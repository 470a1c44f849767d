/**
  `${key}` substitution and the script path rule (internal/render/render.go,
  internal/engine/scriptpath.go), and what the shell reads of a rendered command.
 */
module Rendering {
  import opened Wrappers
  import opened ShellLexer

  /** A value as it is written into a command and into prose. */
  datatype Value = Value(compact: string, prose: string)

  datatype RenderError = Unterminated | UnknownKey(key: string)

  datatype Mode = ForShell | ForProse | Raw

  type Rendered = Result<string, RenderError>

  function Format(mode: Mode, v: Value): string {
    match mode
    case ForShell => ShellQuote(v.compact)
    case ForProse => v.prose
    case Raw => v.compact
  }

  // ---- the template grammar -----------------------------------------------------------------

  predicate IsEscape(t: string) {
    |t| >= 3 && t[0] == '$' && t[1] == '$' && t[2] == '{'
  }

  predicate OpensKey(t: string) {
    |t| >= 2 && t[0] == '$' && t[1] == '{'
  }

  /** The position of the first closing brace. */
  function CloseIndex(t: string): (r: Option<nat>)
    ensures r.Some? ==> r.value < |t| && t[r.value] == '}' && '}' !in t[..r.value]
    ensures r.None? ==> '}' !in t
  {
    if |t| == 0 then None
    else if t[0] == '}' then Some(0)
    else
      var rest := CloseIndex(t[1..]);
      if rest.None? then None
      else
        assert t[..rest.value + 1] == [t[0]] + t[1..][..rest.value];
        Some(rest.value + 1)
  }

  /** How long the element is that a template starts with: an escape, a key, the
      whole of an unterminated key, or one character. */
  function Taken(t: string): (n: nat)
    requires |t| > 0
    ensures 1 <= n <= |t|
  {
    if IsEscape(t) then 3
    else if OpensKey(t) then
      var close := CloseIndex(t[2..]);
      if close.None? then |t| else close.value + 3
    else 1
  }

  /** What that element renders to. */
  function Head(t: string, vals: map<string, Value>, mode: Mode): Rendered
    requires |t| > 0
  {
    if IsEscape(t) then Success("${")
    else if OpensKey(t) then
      var close := CloseIndex(t[2..]);
      if close.None? then Failure(Unterminated)
      else
        var key := t[2..2 + close.value];
        if key in vals then Success(Format(mode, vals[key])) else Failure(UnknownKey(key))
    else Success([t[0]])
  }

  function Then(a: Rendered, b: Rendered): Rendered {
    if a.Failure? then a
    else if b.Failure? then b
    else Success(a.value + b.value)
  }

  function RenderOf(t: string, vals: map<string, Value>, mode: Mode): Rendered
    decreases |t|
  {
    if |t| == 0 then Success("") else Then(Head(t, vals, mode), RenderOf(t[Taken(t)..], vals, mode))
  }

  /** The substitution loop. */
  method Render(tmpl: string, vals: map<string, Value>, mode: Mode) returns (r: Rendered)
    ensures r == RenderOf(tmpl, vals, mode)
  {
    hide Format, Then, Head, Taken;
    var out := "";
    var i := 0;
    assert tmpl[0..] == tmpl;
    NothingThen(RenderOf(tmpl, vals, mode));
    while i < |tmpl|
      invariant 0 <= i <= |tmpl|
      invariant RenderOf(tmpl, vals, mode) == Then(Success(out), RenderOf(tmpl[i..], vals, mode))
      decreases |tmpl| - i
    {
      var rest := tmpl[i..];
      var first, taken := RenderHead(rest, vals, mode);
      assert rest[taken..] == tmpl[i + taken..];
      ThenAssoc(out, first, RenderOf(tmpl[i + taken..], vals, mode));
      if first.Failure? {
        FailureStays(out, first, RenderOf(tmpl[i + taken..], vals, mode));
        return first;
      }
      ThenAppends(out, first.value);
      out := out + first.value;
      i := i + taken;
    }
    ThenNothing(out);
    r := Success(out);
  }

  /** One element of a template. */
  method RenderHead(rest: string, vals: map<string, Value>, mode: Mode) returns (first: Rendered, taken: nat)
    requires |rest| > 0
    ensures first == Head(rest, vals, mode) && taken == Taken(rest)
  {
    hide Format;
    if IsEscape(rest) {
      return Success("${"), 3;
    }
    if OpensKey(rest) {
      var close := CloseIndex(rest[2..]);
      if close.None? {
        return Failure(Unterminated), |rest|;
      }
      var key := rest[2..2 + close.value];
      return if key in vals then Success(Format(mode, vals[key])) else Failure(UnknownKey(key)), close.value + 3;
    }
    return Success([rest[0]]), 1;
  }

  lemma FailureStays(out: string, first: Rendered, more: Rendered)
    requires first.Failure?
    ensures Then(Then(Success(out), first), more) == first
  {}

  lemma ThenAppends(a: string, b: string)
    ensures Then(Success(a), Success(b)) == Success(a + b)
  {}

  lemma ThenNothing(a: string)
    ensures Then(Success(a), Success("")) == Success(a)
  {
    assert a + "" == a;
  }

  lemma ThenAssoc(a: string, b: Rendered, c: Rendered)
    ensures Then(Success(a), Then(b, c)) == Then(Then(Success(a), b), c)
  {
    if b.Success? && c.Success? {
      assert a + (b.value + c.value) == a + b.value + c.value;
    }
  }

  // ---- templates by their parts ---------------------------------------------------------------

  /** A text without a dollar sign, an opening brace to be kept as it is, or a key. */
  datatype Part = Text(text: string) | Brace | Key(name: string)

  predicate PartOk(part: Part) {
    match part
    case Text(text) => '$' !in text
    case Brace => true
    case Key(name) => '}' !in name
  }

  function Spelled(part: Part): string {
    match part
    case Text(text) => text
    case Brace => "$${"
    case Key(name) => "${" + name + "}"
  }

  function Template(parts: seq<Part>): string {
    if |parts| == 0 then "" else Spelled(parts[0]) + Template(parts[1..])
  }

  function Filled(parts: seq<Part>, vals: map<string, Value>, mode: Mode): string
    requires forall i :: 0 <= i < |parts| && parts[i].Key? ==> parts[i].name in vals
  {
    if |parts| == 0 then ""
    else
      (match parts[0]
       case Text(text) => text
       case Brace => "${"
       case Key(name) =>
         match mode
         case ForShell => ShellQuote(vals[name].compact)
         case ForProse => vals[name].prose
         case Raw => vals[name].compact)
      + Filled(parts[1..], vals, mode)
  }

  /** A template is rendered part by part: texts stay, an escaped brace is a brace, and each
      key is its value, quoted for the shell, as prose, or raw. */
  lemma {:induction false} PartsRender(parts: seq<Part>, vals: map<string, Value>, mode: Mode)
    requires forall i :: 0 <= i < |parts| ==> PartOk(parts[i]) && (parts[i].Key? ==> parts[i].name in vals)
    ensures RenderOf(Template(parts), vals, mode) == Success(Filled(parts, vals, mode))
  {
    hide Head, Taken, RenderOf;
    if |parts| == 0 {
      RenderNothing(vals, mode);
    } else {
      var rest := Template(parts[1..]);
      PartsRender(parts[1..], vals, mode);
      match parts[0]
      case Text(text) => TextRenders(text, rest, vals, mode);
      case Brace => BraceRenders(rest, vals, mode);
      case Key(name) => NameRenders(name, rest, vals, mode);
    }
  }

  lemma RenderNothing(vals: map<string, Value>, mode: Mode)
    ensures RenderOf("", vals, mode) == Success("")
  {}

  /** One element, and then the rest. */
  lemma OneElement(t: string, taken: nat, first: string, rest: string, vals: map<string, Value>, mode: Mode)
    requires |t| > 0 && Taken(t) == taken && Head(t, vals, mode) == Success(first) && t[taken..] == rest
    requires RenderOf(rest, vals, mode).Success?
    ensures RenderOf(t, vals, mode) == Success(first + RenderOf(rest, vals, mode).value)
  {
    hide Taken, Head;
  }

  lemma PlainHead(t: string, vals: map<string, Value>, mode: Mode)
    requires |t| > 0 && t[0] != '$'
    ensures Taken(t) == 1 && Head(t, vals, mode) == Success([t[0]])
  {}

  lemma {:induction false} TextRenders(text: string, rest: string, vals: map<string, Value>, mode: Mode)
    requires '$' !in text && RenderOf(rest, vals, mode).Success?
    ensures RenderOf(text + rest, vals, mode) == Success(text + RenderOf(rest, vals, mode).value)
  {
    hide RenderOf, Taken, Head;
    var value := RenderOf(rest, vals, mode).value;
    if |text| == 0 {
      assert text + rest == rest && text + value == value;
    } else {
      TextRenders(text[1..], rest, vals, mode);
      var t := text + rest;
      assert text[0] in text && t[0] == text[0] && t[1..] == text[1..] + rest;
      PlainHead(t, vals, mode);
      OneElement(t, 1, [text[0]], text[1..] + rest, vals, mode);
      assert [text[0]] + (text[1..] + value) == text + value;
    }
  }

  lemma BraceRenders(rest: string, vals: map<string, Value>, mode: Mode)
    requires RenderOf(rest, vals, mode).Success?
    ensures RenderOf("$${" + rest, vals, mode) == Success("${" + RenderOf(rest, vals, mode).value)
  {
    hide RenderOf;
    var t := "$${" + rest;
    assert t[0] == '$' && t[1] == '$' && t[2] == '{' && t[3..] == rest;
    OneElement(t, 3, "${", rest, vals, mode);
  }

  lemma NameRenders(name: string, rest: string, vals: map<string, Value>, mode: Mode)
    requires '}' !in name && name in vals && RenderOf(rest, vals, mode).Success?
    ensures RenderOf("${" + name + "}" + rest, vals, mode) == Success(Format(mode, vals[name]) + RenderOf(rest, vals, mode).value)
  {
    hide RenderOf, Format;
    var t := "${" + name + "}" + rest;
    ClosesAfter(name, "}" + rest);
    assert t == "${" + (name + ("}" + rest));
    assert t[2..] == name + ("}" + rest) && t[0] == '$' && t[1] == '{';
    assert t[2..2 + |name|] == name && t[|name| + 3..] == rest;
    OneElement(t, |name| + 3, Format(mode, vals[name]), rest, vals, mode);
  }

  lemma {:induction false} ClosesAfter(name: string, rest: string)
    requires '}' !in name && |rest| > 0 && rest[0] == '}'
    ensures CloseIndex(name + rest) == Some(|name|)
  {
    if |name| == 0 {
      assert name + rest == rest;
    } else {
      ClosesAfter(name[1..], rest);
      assert (name + rest)[1..] == name[1..] + rest && name[0] in name;
    }
  }

  // ---- the keys a template reads ------------------------------------------------------------

  /** The key a template starts with, if it starts with one. */
  function HeadKey(t: string): Option<string>
    requires |t| > 0
  {
    if IsEscape(t) || !OpensKey(t) || CloseIndex(t[2..]).None? then None
    else Some(t[2..2 + CloseIndex(t[2..]).value])
  }

  predicate Reads(t: string, key: string)
    decreases |t|
  {
    |t| > 0 && (HeadKey(t) == Some(key) || Reads(t[Taken(t)..], key))
  }

  /** No key is left open. */
  predicate Terminated(t: string)
    decreases |t|
  {
    |t| > 0 ==> (OpensKey(t) && !IsEscape(t) ==> CloseIndex(t[2..]).Some?) && Terminated(t[Taken(t)..])
  }

  /** The keys in order of first appearance, after those already seen. */
  function KeysAfter(seen: seq<string>, t: string): seq<string>
    decreases |t|
  {
    if |t| == 0 then seen
    else
      var key := HeadKey(t);
      KeysAfter(if key.Some? && key.value !in seen then seen + [key.value] else seen, t[Taken(t)..])
  }

  /** The scan for keys; an unterminated key ends it. */
  method Keys(tmpl: string) returns (keys: seq<string>)
    ensures keys == KeysAfter([], tmpl)
  {
    hide Taken, HeadKey;
    keys := [];
    var i := 0;
    assert tmpl[0..] == tmpl;
    while i < |tmpl|
      invariant 0 <= i <= |tmpl|
      invariant KeysAfter([], tmpl) == KeysAfter(keys, tmpl[i..])
      decreases |tmpl| - i
    {
      var rest := tmpl[i..];
      var key, taken := ScanKey(rest);
      assert rest[taken..] == tmpl[i + taken..];
      if key.Some? && key.value !in keys {
        keys := keys + [key.value];
      }
      i := i + taken;
    }
  }

  method ScanKey(rest: string) returns (key: Option<string>, taken: nat)
    requires |rest| > 0
    ensures key == HeadKey(rest) && taken == Taken(rest)
  {
    if IsEscape(rest) {
      return None, 3;
    }
    if OpensKey(rest) {
      var close := CloseIndex(rest[2..]);
      if close.None? {
        return None, |rest|;
      }
      return Some(rest[2..2 + close.value]), close.value + 3;
    }
    return None, 1;
  }

  /** The scan finds exactly the keys that are read, each once. */
  lemma {:induction false} KeysAreThoseRead(seen: seq<string>, t: string)
    requires forall i, j :: 0 <= i < j < |seen| ==> seen[i] != seen[j]
    ensures var keys := KeysAfter(seen, t);
            && (forall k :: k in keys <==> k in seen || Reads(t, k))
            && (forall i, j :: 0 <= i < j < |keys| ==> keys[i] != keys[j])
    decreases |t|
  {
    hide Taken, HeadKey;
    if |t| > 0 {
      var key := HeadKey(t);
      KeysAreThoseRead(if key.Some? && key.value !in seen then seen + [key.value] else seen, t[Taken(t)..]);
    }
  }

  /** A template renders exactly when no key is left open and every key it reads has
      a value. */
  lemma {:induction false} RendersIffKeysKnown(t: string, vals: map<string, Value>, mode: Mode)
    ensures RenderOf(t, vals, mode).Success? <==> Terminated(t) && forall k :: Reads(t, k) ==> k in vals
    decreases |t|
  {
    hide Format;
    if |t| > 0 {
      RendersIffKeysKnown(t[Taken(t)..], vals, mode);
      if HeadKey(t).Some? {
        assert Reads(t, HeadKey(t).value);
      }
      assert forall k :: Reads(t[Taken(t)..], k) ==> Reads(t, k);
    }
  }

  /** Values of keys it does not read change nothing. */
  lemma {:induction false} OnlyReadKeysMatter(t: string, a: map<string, Value>, b: map<string, Value>, mode: Mode)
    requires forall k :: Reads(t, k) ==> (k in a <==> k in b) && (k in a ==> a[k] == b[k])
    ensures RenderOf(t, a, mode) == RenderOf(t, b, mode)
    decreases |t|
  {
    hide Format;
    if |t| > 0 {
      assert forall k :: Reads(t[Taken(t)..], k) ==> Reads(t, k);
      OnlyReadKeysMatter(t[Taken(t)..], a, b, mode);
      if HeadKey(t).Some? {
        assert Reads(t, HeadKey(t).value);
      }
    }
  }

  // ---- the first token ------------------------------------------------------------------------

  predicate IsTemplateSpace(c: char) {
    c == ' ' || c == '\t' || c == '\n'
  }

  /** The length of the token a template starts with: up to a space that is not part
      of a key. */
  function TokenLength(t: string): (n: nat)
    ensures n <= |t| && (n < |t| ==> IsTemplateSpace(t[n]))
    decreases |t|
  {
    if |t| == 0 || IsTemplateSpace(t[0]) then 0 else Taken(t) + TokenLength(t[Taken(t)..])
  }

  function SpacesLength(t: string): (n: nat)
    ensures n <= |t| && forall k :: 0 <= k < n ==> IsTemplateSpace(t[k])
    ensures n < |t| ==> !IsTemplateSpace(t[n])
  {
    if |t| == 0 || !IsTemplateSpace(t[0]) then 0 else 1 + SpacesLength(t[1..])
  }

  /** Split a template before any substitution: the first token, and the rest from
      the space that ends it. */
  method FirstTokenTemplate(tmpl: string) returns (token: string, rest: string)
    ensures var start := SpacesLength(tmpl);
            var end := start + TokenLength(tmpl[start..]);
            token == tmpl[start..end] && rest == tmpl[end..]
  {
    hide SpacesLength, TokenLength;
    var start := SkipSpaces(tmpl);
    var length := ScanToken(tmpl[start..]);
    token, rest := tmpl[start..start + length], tmpl[start + length..];
  }

  method SkipSpaces(t: string) returns (i: nat)
    ensures i == SpacesLength(t)
  {
    i := 0;
    assert t[0..] == t;
    while i < |t| && IsTemplateSpace(t[i])
      invariant i <= |t| && SpacesLength(t) == i + SpacesLength(t[i..])
    {
      assert t[i..][1..] == t[i + 1..];
      i := i + 1;
    }
  }

  method ScanToken(t: string) returns (i: nat)
    ensures i == TokenLength(t)
  {
    hide Taken;
    i := 0;
    assert t[0..] == t;
    while i < |t|
      invariant i <= |t| && TokenLength(t) == i + TokenLength(t[i..])
      decreases |t| - i
    {
      if IsTemplateSpace(t[i]) {
        break;
      }
      var taken := ElementLength(t[i..]);
      assert t[i..][taken..] == t[i + taken..];
      i := i + taken;
    }
  }

  method ElementLength(t: string) returns (taken: nat)
    requires |t| > 0
    ensures taken == Taken(t)
  {
    if IsEscape(t) {
      return 3;
    }
    if OpensKey(t) {
      var close := CloseIndex(t[2..]);
      return if close.None? then |t| else close.value + 3;
    }
    taken := 1;
  }

  /** A template splits here without cutting a key or an escape. */
  predicate Boundary(t: string, n: int)
    decreases |t|
  {
    n == 0 || (|t| > 0 && Taken(t) <= n <= |t| && Boundary(t[Taken(t)..], n - Taken(t)))
  }

  /** What starts a template starts it also when what follows is cut off. */
  lemma HeadOfPrefix(t: string, n: nat, vals: map<string, Value>, mode: Mode)
    requires |t| > 0 && Taken(t) <= n <= |t|
    ensures Head(t[..n], vals, mode) == Head(t, vals, mode) && Taken(t[..n]) == Taken(t)
  {
    hide Format;
    if OpensKey(t) && !IsEscape(t) {
      var close := CloseIndex(t[2..]);
      assert t[..n][2..] == t[2..][..n - 2];
      if close.Some? {
        CloseOfPrefix(t[2..], n - 2);
        assert t[..n][2..2 + close.value] == t[2..2 + close.value];
      } else {
        assert t[..n] == t;
      }
    }
  }

  lemma {:induction false} CloseOfPrefix(t: string, n: nat)
    requires n <= |t| && CloseIndex(t).Some? && CloseIndex(t).value < n
    ensures CloseIndex(t[..n]) == CloseIndex(t)
  {
    if t[0] != '}' {
      assert t[..n][1..] == t[1..][..n - 1];
      CloseOfPrefix(t[1..], n - 1);
    }
  }

  /** Rendering the two parts of a template and rendering the whole come to the same,
      errors included. */
  lemma {:induction false} RendersApart(t: string, n: nat, vals: map<string, Value>, mode: Mode)
    requires Boundary(t, n) && n <= |t|
    ensures RenderOf(t, vals, mode) == Then(RenderOf(t[..n], vals, mode), RenderOf(t[n..], vals, mode))
    decreases |t|
  {
    hide Head, Taken, Then;
    if n == 0 {
      assert t[..0] == "" && t[0..] == t;
      NothingThen(RenderOf(t, vals, mode));
    } else {
      var k := Taken(t);
      HeadOfPrefix(t, n, vals, mode);
      RendersApart(t[k..], n - k, vals, mode);
      assert t[..n][k..] == t[k..][..n - k] && t[k..][n - k..] == t[n..];
      Regroup(Head(t, vals, mode), RenderOf(t[k..][..n - k], vals, mode), RenderOf(t[n..], vals, mode));
    }
  }

  lemma {:induction false} TokenIsBoundary(t: string)
    ensures Boundary(t, TokenLength(t))
    decreases |t|
  {
    if |t| > 0 && !IsTemplateSpace(t[0]) {
      TokenIsBoundary(t[Taken(t)..]);
    }
  }

  /** The split of the first token never cuts a key. */
  lemma TokenRendersApart(t: string, vals: map<string, Value>, mode: Mode)
    ensures var n := TokenLength(t);
            RenderOf(t, vals, mode) == Then(RenderOf(t[..n], vals, mode), RenderOf(t[n..], vals, mode))
  {
    hide Then, RenderOf, Boundary;
    TokenIsBoundary(t);
    RendersApart(t, TokenLength(t), vals, mode);
  }

  lemma NothingThen(r: Rendered)
    ensures Then(Success(""), r) == r
  {
    if r.Success? {
      assert "" + r.value == r.value;
    }
  }

  lemma Regroup(a: Rendered, b: Rendered, c: Rendered)
    ensures Then(a, Then(b, c)) == Then(Then(a, b), c)
  {
    if a.Success? {
      ThenAssoc(a.value, b, c);
    }
  }

  // ---- the script path rule -------------------------------------------------------------------

  /** Path joining is the file system library's. */
  type Joiner = (string, string) -> string

  predicate IsPathToken(literal: string) {
    literal != "" && '/' in literal && literal[0] != '/'
  }

  lemma PathTokenIs(literal: string)
    ensures IsPathToken(literal) <==> literal != "" && '/' in literal && literal[0] != '/'
  {}

  predicate ReadsKey(t: string) {
    exists i :: 0 <= i < |t| - 1 && t[i] == '$' && t[i + 1] == '{'
  }

  /** The text a first token stands for. */
  function TokenText(token: string, vals: map<string, Value>): Rendered {
    if ReadsKey(token) then RenderOf(token, vals, Raw) else Success(token)
  }

  /** Render a command; a first token that is a relative path is resolved against the
      workflow's directory and quoted once. */
  method ResolveScriptPath(tmpl: string, vals: map<string, Value>, dir: string, join: Joiner) returns (r: Rendered)
    ensures var start := SpacesLength(tmpl);
            var end := start + TokenLength(tmpl[start..]);
            var token := tmpl[start..end];
            var text := TokenText(token, vals);
            r == if token == "" then RenderOf(tmpl, vals, ForShell)
                 else if text.Failure? then text
                 else if !IsPathToken(text.value) then RenderOf(tmpl, vals, ForShell)
                 else Then(Success(ShellQuote(join(dir, text.value))), RenderOf(tmpl[end..], vals, ForShell))
  {
    hide RenderOf, SpacesLength, TokenLength, IsPathToken, ReadsKey;
    var first, rest := FirstTokenTemplate(tmpl);
    if first == "" {
      r := Render(tmpl, vals, ForShell);
      return;
    }
    var literal := first;
    if ReadsKey(first) {
      var raw := Render(first, vals, Raw);
      if raw.Failure? {
        return raw;
      }
      literal := raw.value;
    }
    PathTokenIs(literal);
    if literal == "" || '/' !in literal || literal[0] == '/' {
      r := Render(tmpl, vals, ForShell);
      return;
    }
    var renderedRest := Render(rest, vals, ForShell);
    if renderedRest.Failure? {
      return renderedRest;
    }
    r := Success(ShellQuote(join(dir, literal)) + renderedRest.value);
  }

  // ---- what the shell reads ------------------------------------------------------------------

  /** The lexer has read its first word. */
  predicate HasFirst(st: Lexer) {
    if |st.segs| > 0 then |st.segs[0]| > 0 else |st.seg| > 0
  }

  function FirstWord(st: Lexer): string
    requires HasFirst(st)
  {
    if |st.segs| > 0 then st.segs[0][0] else st.seg[0]
  }

  lemma FirstWordOfEnd(st: Lexer)
    requires HasFirst(st)
    ensures HasFirst(EndWord(st)) && FirstWord(EndWord(st)) == FirstWord(st)
    ensures HasFirst(EndSeg(st)) && FirstWord(EndSeg(st)) == FirstWord(st)
  {}

  lemma FirstWordOfStep(st: Lexer, c: char, next: char)
    requires HasFirst(st)
    ensures HasFirst(Step(st, c, next).0) && FirstWord(Step(st, c, next).0) == FirstWord(st)
  {
    hide EndWord, EndSeg, Substitutes, Unmodelled;
    FirstWordOfEnd(st);
    match st.quote {
      case Unquoted => FirstWordOfEnd(EndWord(st));
      case Single =>
      case Double =>
    }
  }

  lemma {:induction false} FirstWordStays(st: Lexer, cmd: string)
    requires HasFirst(st)
    ensures HasFirst(Run(st, cmd)) && FirstWord(Run(st, cmd)) == FirstWord(st)
    decreases |cmd|
  {
    if |cmd| > 0 {
      hide Step;
      StepFits(st, cmd);
      FirstWordOfStep(st, cmd[0], NextOf(cmd));
      var (after, taken) := Step(st, cmd[0], NextOf(cmd));
      FirstWordStays(after, cmd[taken..]);
    }
  }

  lemma FinishKeepsFirst(st: Lexer)
    requires HasFirst(st)
    ensures |Finish(st).segs| > 0 && |Finish(st).segs[0]| > 0 && Finish(st).segs[0][0] == FirstWord(st)
  {}

  /** The rest of a split template renders to nothing, or starts with its space. */
  lemma RestStartsWithSpace(rest: string, vals: map<string, Value>)
    requires rest == "" || IsTemplateSpace(rest[0])
    requires RenderOf(rest, vals, ForShell).Success?
    ensures var out := RenderOf(rest, vals, ForShell).value;
            out == "" || (IsTemplateSpace(out[0]) && out[0] == rest[0])
  {}

  /** Whatever values and path hold, the shell reads the resolved script path as its
      command word, whole and alone. */
  lemma ScriptPathIsTheCommand(path: string, rest: string, vals: map<string, Value>)
    requires rest == "" || IsTemplateSpace(rest[0])
    requires RenderOf(rest, vals, ForShell).Success?
    ensures var segs := LexOf(ShellQuote(path) + RenderOf(rest, vals, ForShell).value).segs;
            |segs| > 0 && |segs[0]| > 0 && segs[0][0] == path
  {
    hide RenderOf, Run, Finish;
    var out := RenderOf(rest, vals, ForShell).value;
    RestStartsWithSpace(rest, vals);
    QuoteIsSpliced(START, path, out);
    var st := Spliced(START, path);
    assert "" + path == path;
    if out == "" {
      RunEnds(st);
      LineEnds([], path, NUL);
      assert [] + [path] == [path];
    } else {
      var after := if out[0] == '\n' then EndSeg(st) else EndWord(st);
      assert out == [out[0]] + out[1..];
      OneStep(st, out[0], out[1..]);
      FirstWordStays(after, out[1..]);
      FinishKeepsFirst(Run(after, out[1..]));
    }
  }

  // ---- a value within a command --------------------------------------------------------------

  /** The lexer at the end of a text that `after` follows, unless the text's last
      character takes `after` with it. */
  function RunBefore(st: Lexer, text: string, after: char): Option<Lexer>
    decreases |text|
  {
    if |text| == 0 then Some(st)
    else
      var (next, taken) := Step(st, text[0], if |text| > 1 then text[1] else after);
      if taken > |text| then None else
        StepTakes(st, text[0], if |text| > 1 then text[1] else after);
        RunBefore(next, text[taken..], after)
  }

  lemma StepTakes(st: Lexer, c: char, next: char)
    ensures Step(st, c, next).1 >= 1
  {}

  lemma DropsFront(text: string, rest: string, n: nat)
    requires n <= |text|
    ensures (text + rest)[n..] == text[n..] + rest
  {}

  lemma {:induction false} RunSplits(st: Lexer, text: string, rest: string)
    requires |rest| > 0 && RunBefore(st, text, rest[0]).Some?
    ensures Run(st, text + rest) == Run(RunBefore(st, text, rest[0]).value, rest)
    decreases |text|
  {
    hide Step;
    if |text| == 0 {
      assert text + rest == rest;
    } else {
      var whole := text + rest;
      var next := if |text| > 1 then text[1] else rest[0];
      assert NextOf(whole) == next && whole[0] == text[0];
      StepTakes(st, text[0], next);
      var (after, taken) := Step(st, text[0], next);
      DropsFront(text, rest, taken);
      RunSplits(after, text[taken..], rest);
    }
  }

  /** A value that stands outside quotes, and not behind a backslash, is one part of
      one word: what comes before and after it is read exactly as if its bytes had
      been added to that word unread. */
  lemma ValueStaysInItsWord(before: string, v: string, after: string)
    requires RunBefore(START, before, '\'').Some? && RunBefore(START, before, '\'').value.quote.Unquoted?
    ensures Run(START, before + (ShellQuote(v) + after))
         == Run(Spliced(RunBefore(START, before, '\'').value, v), after)
  {
    hide Run, RunBefore;
    RunSplits(START, before, ShellQuote(v) + after);
    QuoteIsSpliced(RunBefore(START, before, '\'').value, v, after);
  }

  // ---- and nowhere else ------------------------------------------------------------------

  /** After this text a value is one part of one word, whatever it holds and whatever
      follows it. */
  ghost predicate IsOneToken(before: string) {
    exists st :: SplicesAll(before, st)
  }

  ghost predicate SplicesAll(before: string, st: Lexer) {
    forall v, after :: Run(START, before + (ShellQuote(v) + after)) == Run(Spliced(st, v), after)
  }

  /** The condition is exact: a value is one token outside quotes and not behind a
      backslash, and at no other place. */
  lemma OneTokenIffOutside(before: string)
    ensures IsOneToken(before) <==>
              RunBefore(START, before, '\'').Some? && RunBefore(START, before, '\'').value.quote.Unquoted?
  {
    hide Run, RunBefore;
    var st := RunBefore(START, before, '\'');
    if st.Some? && st.value.quote.Unquoted? {
      forall v, after
        ensures Run(START, before + (ShellQuote(v) + after)) == Run(Spliced(st.value, v), after)
      {
        ValueStaysInItsWord(before, v, after);
      }
      assert SplicesAll(before, st.value);
    } else if IsOneToken(before) {
      var base :| SplicesAll(before, base);
      assert Run(START, before + (ShellQuote(";") + "")) == Run(Spliced(base, ";"), "");
      RunEnds(Spliced(base, ";"));
      SemicolonIsNoPart(before);
      assert false;
    }
  }

  /** Anywhere else a quoted semicolon does not become the end of the current word. */
  lemma SemicolonIsNoPart(before: string)
    requires RunBefore(START, before, '\'').Some? ==> !RunBefore(START, before, '\'').value.quote.Unquoted?
    ensures var word := Run(START, before + (ShellQuote(";") + "")).word;
            word == "" || word[|word| - 1] != ';'
  {
    hide Run, RunBefore;
    var st := RunBefore(START, before, '\'');
    QuotedSemicolon();
    if st.None? {
      var taken := RunTakes(START, before, ";'");
      assert before + (ShellQuote(";") + "") == before + (['\''] + ";'");
      EndsUnquoted(taken);
    } else {
      assert ShellQuote(";") + "" == "';'" && "';'"[0] == '\'';
      RunSplits(START, before, "';'");
      assert "';'" == ['\''] + ";'";
      OneStep(st.value, '\'', ";'");
      if st.value.quote.Single? {
        EndsUnquoted(Step(st.value, '\'', ';').0);
      } else {
        var b := Step(st.value, '\'', ';').0;
        assert ";'" == [';'] + ['\''] && ['\''] == ['\''] + "";
        OneStep(b, ';', ['\'']);
        OneStep(Step(b, ';', '\'').0, '\'', "");
        RunEnds(Step(Step(b, ';', '\'').0, '\'', NUL).0);
      }
    }
  }

  lemma QuotedSemicolon()
    ensures ShellQuote(";") == "';'"
  {
    assert Escape("") == "" && Escape(";") == ";" + Escape("");
  }

  /** Read unquoted, a semicolon ends the command, and the quote after it opens anew. */
  lemma EndsUnquoted(st: Lexer)
    requires st.quote.Unquoted?
    ensures Run(st, ";'") == EndSeg(st).(quote := Single, inWord := true, prev := NUL)
    ensures Run(st, ";'").word == ""
  {
    hide Run;
    assert ";'" == [';'] + ['\''] && ['\''] == ['\''] + "";
    OneStep(st, ';', ['\'']);
    OneStep(EndSeg(st), '\'', "");
    RunEnds(Step(EndSeg(st), '\'', NUL).0);
  }

  /** A text that takes the quote with it ends in an unquoted backslash: the quote is a
      character of the word, and what follows is read unquoted. */
  lemma {:induction false} RunTakes(st: Lexer, text: string, rest: string) returns (after: Lexer)
    requires RunBefore(st, text, '\'').None?
    ensures Run(st, text + (['\''] + rest)) == Run(after, rest) && after.quote.Unquoted? && after.inWord
    decreases |text|
  {
    var whole := text + (['\''] + rest);
    var next := if |text| > 1 then text[1] else '\'';
    assert NextOf(whole) == next && whole[0] == text[0];
    var (stepped, taken) := Step(st, text[0], next);
    if taken > |text| {
      after := stepped;
      assert whole[2..] == rest;
    } else {
      StepTakes(st, text[0], next);
      DropsFront(text, ['\''] + rest, taken);
      after := RunTakes(stepped, text[taken..], rest);
    }
  }

  // ---- a value within a template -------------------------------------------------------------

  /** Wherever a template reads a key, its rendering has the quoted value there, between
      what comes before and what comes after. */
  lemma ValueIsPlaced(t: string, n: nat, vals: map<string, Value>)
    requires n < |t| && Boundary(t, n) && HeadKey(t[n..]).Some? && RenderOf(t, vals, ForShell).Success?
    ensures var key, end := HeadKey(t[n..]).value, n + Taken(t[n..]);
            && key in vals && end <= |t|
            && RenderOf(t[..n], vals, ForShell).Success? && RenderOf(t[end..], vals, ForShell).Success?
            && RenderOf(t, vals, ForShell).value
               == RenderOf(t[..n], vals, ForShell).value
                  + (ShellQuote(vals[key].compact) + RenderOf(t[end..], vals, ForShell).value)
  {
    RendersApart(t, n, vals, ForShell);
    var rest := t[n..];
    assert rest[Taken(rest)..] == t[n + Taken(rest)..];
  }

  /** So in a rendered command every value outside quotes and not behind a backslash is
      one part of one word. */
  lemma RenderedValueStays(t: string, n: nat, vals: map<string, Value>)
    requires n < |t| && Boundary(t, n) && HeadKey(t[n..]).Some? && RenderOf(t, vals, ForShell).Success?
    requires RenderOf(t[..n], vals, ForShell).Success?
    requires var st := RunBefore(START, RenderOf(t[..n], vals, ForShell).value, '\''); st.Some? && st.value.quote.Unquoted?
    ensures var key, end := HeadKey(t[n..]).value, n + Taken(t[n..]);
            var st := RunBefore(START, RenderOf(t[..n], vals, ForShell).value, '\'').value;
            key in vals && end <= |t| && RenderOf(t[end..], vals, ForShell).Success?
            && Run(START, RenderOf(t, vals, ForShell).value)
               == Run(Spliced(st, vals[key].compact), RenderOf(t[end..], vals, ForShell).value)
  {
    hide Run, RunBefore, RenderOf, Boundary;
    ValueIsPlaced(t, n, vals);
    var key, end := HeadKey(t[n..]).value, n + Taken(t[n..]);
    ValueStaysInItsWord(RenderOf(t[..n], vals, ForShell).value, vals[key].compact, RenderOf(t[end..], vals, ForShell).value);
  }

  const COMMAND_END := map["k" := Value(";", ";")]

  const COMMAND := map["k" := Value("$(x)", "$(x)")]

  /** A key between two other characters renders to its quoted value between them. */
  lemma RendersBetween(open: string, close: string, vals: map<string, Value>)
    requires |open| == 1 && |close| <= 1 && open[0] != '$' && (|close| == 1 ==> close[0] != '$') && "k" in vals
    ensures RenderOf(open + ("${k}" + close), vals, ForShell) == Success(open + (ShellQuote(vals["k"].compact) + close))
  {
    hide Format;
    var key := "${k}" + close;
    var t := open + key;
    assert t[1..] == key && t[0] == open[0] && [t[0]] == open;
    var quoted := ShellQuote(vals["k"].compact);
    KeyRenders(close, vals);
    RendersPlain(close, vals);
    assert RenderOf(key, vals, ForShell) == Success(quoted + close);
  }

  lemma KeyRenders(close: string, vals: map<string, Value>)
    requires "k" in vals
    ensures RenderOf("${k}" + close, vals, ForShell)
         == Then(Success(ShellQuote(vals["k"].compact)), RenderOf(close, vals, ForShell))
  {
    hide Format, Then;
    var key := "${k}" + close;
    assert key[2..] == "k" + ("}" + close) && key[4..] == close;
    assert key[2..][1..] == "}" + close && CloseIndex(key[2..]) == Some(1) && key[2..3] == "k";
    QuotesForShell(vals["k"]);
  }

  lemma RendersPlain(text: string, vals: map<string, Value>)
    requires |text| == 0 || (|text| == 1 && text[0] != '$')
    ensures RenderOf(text, vals, ForShell) == Success(text)
  {
    if |text| == 1 {
      assert text[1..] == "" && [text[0]] == text && text + "" == text;
    }
  }

  lemma QuotesForShell(v: Value)
    ensures Format(ForShell, v) == ShellQuote(v.compact)
  {}

  /** Between single quotes the value's own quotes close and open them: it is read
      unquoted, here as the end of the command. */
  lemma SingleQuotesLetValueOut()
    ensures RenderOf("'${k}'", COMMAND_END, ForShell) == Success("'';''")
    ensures LexOf("'';''").segs == [[""], [""]] && !IsOneToken("'")
  {
    hide Run, RenderOf;
    QuotedSemicolon();
    RendersBetween("'", "'", COMMAND_END);
    assert "'" + ("${k}" + "'") == "'${k}'" && "'" + ("';'" + "'") == "'';''";
    var st := Lexer([], [], "", true, Single, NUL, false, false);
    assert "'';''" == ['\''] + (['\''] + (";'" + "'"));
    OneStep(START, '\'', ['\''] + (";'" + "'"));
    OneStep(st, '\'', ";'" + "'");
    var open := st.(quote := Unquoted);
    assert ";'" + "'" == [';'] + (['\''] + ['\'']) && ['\''] == ['\''] + "";
    OneStep(open, ';', ['\''] + ['\'']);
    OneStep(EndSeg(open), '\'', ['\'']);
    var again := EndSeg(open).(quote := Single, inWord := true);
    OneStep(again, '\'', "");
    RunEnds(again.(quote := Unquoted));
    assert [] + [""] == [""] && [] + [[""]] == [[""]] && [[""]] + [[""]] == [[""], [""]];
    OneTokenIffOutside("'");
    ReadBefore('\'');
  }

  /** Between double quotes it is read as if it were not quoted at all: here it runs a
      command. */
  lemma DoubleQuotesLetValueOut()
    ensures RenderOf("\"${k}\"", COMMAND, ForShell) == Success("\"'$(x)'\"")
    ensures LexOf("\"'$(x)'\"").subst && !IsOneToken("\"")
  {
    hide Run, RenderOf;
    QuotedCommand();
    RendersBetween("\"", "\"", COMMAND);
    assert "\"" + ("${k}" + "\"") == "\"${k}\"" && "\"" + ("'$(x)'" + "\"") == "\"'$(x)'\"";
    var st := Lexer([], [], "", true, Double, NUL, false, false);
    assert "\"'$(x)'\"" == ['"'] + (['\''] + (['$'] + "(x)'\""));
    OneStep(START, '"', ['\''] + (['$'] + "(x)'\""));
    OneStep(st, '\'', ['$'] + "(x)'\"");
    var in_ := st.(word := "'");
    assert "" + ['\''] == "'";
    OneStep(in_, '$', "(x)'\"");
    SubstStays(in_.(word := in_.word + ['$'], subst := true), "(x)'\"");
    OneTokenIffOutside("\"");
    ReadBefore('"');
  }

  lemma QuotedCommand()
    ensures ShellQuote("$(x)") == "'$(x)'"
  {
    assert Escape("") == "" && Escape(")") == ")" && Escape("x)") == "x" + Escape(")")
        && Escape("(x)") == "(" + Escape("x)") && Escape("$(x)") == "$" + Escape("(x)");
  }

  /** What has been substituted stays so. */
  lemma {:induction false} SubstStays(st: Lexer, cmd: string)
    requires st.subst
    ensures Run(st, cmd).subst
    decreases |cmd|
  {
    if |cmd| > 0 {
      StepFits(st, cmd);
      var (after, taken) := Step(st, cmd[0], NextOf(cmd));
      SubstStays(after, cmd[taken..]);
    }
  }

  /** Before a value that follows an opening quote the lexer is inside it. */
  lemma ReadBefore(quote: char)
    requires quote == '\'' || quote == '"'
    ensures RunBefore(START, [quote], '\'').Some? && !RunBefore(START, [quote], '\'').value.quote.Unquoted?
  {
    assert [quote][1..] == "";
  }

  /** Behind a backslash the opening quote is taken literally and the value is read
      unquoted, here as the end of the command. */
  lemma BackslashLetsValueOut()
    ensures RenderOf("\\${k}", COMMAND_END, ForShell) == Success("\\';'")
    ensures LexOf("\\';'").segs == [["'"], [""]] && !IsOneToken("\\")
  {
    hide Run, RenderOf;
    QuotedSemicolon();
    RendersBetween("\\", "", COMMAND_END);
    assert "\\" + ("${k}" + "") == "\\${k}" && "\\" + ("';'" + "") == "\\';'";
    assert "\\';'" == ['\\'] + (['\''] + ";'");
    EscapedQuoteStarts(";'");
    EndsUnquoted(Lexer([], [], "'", true, Unquoted, NUL, false, false));
    assert [] + ["'"] == ["'"] && [] + [["'"]] == [["'"]] && [["'"]] + [[""]] == [["'"], [""]] && [] + [""] == [""];
    OneTokenIffOutside("\\");
  }

  lemma EscapedQuoteStarts(rest: string)
    ensures Run(START, ['\\'] + (['\''] + rest)) == Run(Lexer([], [], "'", true, Unquoted, NUL, false, false), rest)
  {
    var cmd := ['\\'] + (['\''] + rest);
    assert cmd[2..] == rest && NextOf(cmd) == '\'' && "" + ['\''] == "'";
  }
}
