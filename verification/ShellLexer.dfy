/**
  The hook's shell lexer and the quoter it must read back (internal/hook/classify.go
  lex, internal/render/render.go shellQuote). Text is a sequence of bytes, one char
  each; the NUL byte stands for "no character", as in the source.
 */
module ShellLexer {

  const NUL := '\0'

  datatype Quote = Unquoted | Single | Double

  /** The lexer between two characters. `prev` is the previous unquoted character of
      the current word. */
  datatype Lexer = Lexer(
    segs: seq<seq<string>>,
    seg: seq<string>,
    word: string,
    inWord: bool,
    quote: Quote,
    prev: char,
    subst: bool,
    unsure: bool)

  datatype Lexed = Lexed(segs: seq<seq<string>>, subst: bool, unsure: bool)

  const START := Lexer([], [], "", false, Unquoted, NUL, false, false)

  function EndWord(st: Lexer): Lexer {
    st.(seg := if st.inWord then st.seg + [st.word] else st.seg, word := "", inWord := false, prev := NUL)
  }

  function EndSeg(st: Lexer): Lexer {
    var ended := EndWord(st);
    ended.(segs := if |ended.seg| > 0 then ended.segs + [ended.seg] else ended.segs, seg := [])
  }

  /** A character that belongs to the current word as it is. */
  function Put(st: Lexer, c: char): Lexer {
    st.(word := st.word + [c], inWord := true, prev := c)
  }

  function InSingle(st: Lexer, c: char): Lexer {
    if c == '\'' then st.(quote := Unquoted) else st.(word := st.word + [c])
  }

  predicate DoubleEscapable(c: char) {
    c == '"' || c == '\\' || c == '$' || c == '`'
  }

  /** The state after one character inside double quotes, and how many it took. */
  function InDouble(st: Lexer, c: char, next: char): (Lexer, nat) {
    if c == '"' then (st.(quote := Unquoted), 1)
    else if c == '\\' && next == '\n' then (st, 2)
    else if c == '\\' && DoubleEscapable(next) then (st.(word := st.word + [next]), 2)
    else (st.(word := st.word + [c], subst := st.subst || c == '`' || (c == '$' && next == '(')), 1)
  }

  /** Constructs the lexer does not model. */
  predicate Unmodelled(st: Lexer, c: char, next: char) {
    || (c == '<' && next == '<')
    || (c == '(' && (!st.inWord || next == ')'))
    || (c == '{' && st.inWord && st.prev != '$')
    || (c == '{' && !st.inWord && next != NUL && next != ' ' && next != '\t' && next != '\n')
  }

  predicate Substitutes(c: char, next: char) {
    c == '`' || ((c == '$' || c == '<' || c == '>') && next == '(')
  }

  /** The state after one unquoted character, and how many it took. */
  function InPlain(st: Lexer, c: char, next: char): (Lexer, nat) {
    if c == '#' && !st.inWord then (Put(st, c).(unsure := true), 1)
    else if c == '$' && next == '\'' then (Put(st, c).(unsure := true), 1)
    else if c == '\'' || c == '"' then
      (st.(quote := if c == '"' then Double else Single, inWord := true, prev := NUL), 1)
    else if c == '\\' then
      if next == '\n' then (st, 2)
      else if next != NUL then (st.(word := st.word + [next], inWord := true, prev := NUL), 2)
      else (st.(inWord := true, prev := NUL), 1)
    else if c == ' ' || c == '\t' then (EndWord(st), 1)
    else if c == '\n' || c == ';' then (EndSeg(st), 1)
    else if (c == '&' && (st.prev == '>' || st.prev == '<' || next == '>')) || (c == '|' && st.prev == '>') then
      (Put(st, c), 1)
    else if c == '&' || c == '|' then (EndSeg(st), 1)
    else if Substitutes(c, next) then (Put(st, c).(subst := true), 1)
    else if Unmodelled(st, c, next) then (Put(st, c).(unsure := true), 1)
    else (Put(st, c), 1)
  }

  function Step(st: Lexer, c: char, next: char): (Lexer, nat) {
    match st.quote
    case Single => (InSingle(st, c), 1)
    case Double => InDouble(st, c, next)
    case Unquoted => InPlain(st, c, next)
  }

  function NextOf(cmd: string): char {
    if |cmd| > 1 then cmd[1] else NUL
  }

  lemma StepFits(st: Lexer, cmd: string)
    requires |cmd| > 0
    ensures 1 <= Step(st, cmd[0], NextOf(cmd)).1 <= |cmd|
  {}

  /** The state after the rest of a command. */
  function Run(st: Lexer, cmd: string): Lexer
    decreases |cmd|
  {
    if |cmd| == 0 then st
    else
      StepFits(st, cmd);
      var (after, taken) := Step(st, cmd[0], NextOf(cmd));
      Run(after, cmd[taken..])
  }

  function Finish(st: Lexer): Lexed {
    var ended := EndSeg(st);
    Lexed(ended.segs, ended.subst, ended.unsure || st.quote != Unquoted)
  }

  function LexOf(cmd: string): Lexed {
    Finish(Run(START, cmd))
  }

  /** One character inside double quotes. */
  method LexDouble(st: Lexer, c: char, next: char) returns (after: Lexer, taken: nat)
    ensures (after, taken) == InDouble(st, c, next)
  {
    after, taken := st, 1;
    if c == '"' {
      after := st.(quote := Unquoted);
    } else if c == '\\' && next == '\n' {
      taken := 2;
    } else if c == '\\' && DoubleEscapable(next) {
      after := st.(word := st.word + [next]);
      taken := 2;
    } else {
      if c == '`' || (c == '$' && next == '(') {
        after := after.(subst := true);
      }
      after := after.(word := st.word + [c]);
    }
  }

  /** One unquoted character. */
  method LexPlain(st: Lexer, c: char, next: char) returns (after: Lexer, taken: nat)
    ensures (after, taken) == InPlain(st, c, next)
  {
    hide Substitutes, Unmodelled;
    after, taken := st, 1;
    if (c == '#' && !st.inWord) || (c == '$' && next == '\'') {
      after := Put(st, c).(unsure := true);
    } else if c == '\'' || c == '"' {
      after := st.(quote := if c == '"' then Double else Single, inWord := true, prev := NUL);
    } else if c == '\\' {
      if next == '\n' {
        taken := 2;
      } else {
        if next != NUL {
          after := st.(word := st.word + [next]);
          taken := 2;
        }
        after := after.(inWord := true, prev := NUL);
      }
    } else if c == ' ' || c == '\t' {
      after := EndWord(st);
    } else if c == '\n' || c == ';' {
      after := EndSeg(st);
    } else if (c == '&' && (st.prev == '>' || st.prev == '<' || next == '>')) || (c == '|' && st.prev == '>') {
      after := Put(st, c);
    } else if c == '&' || c == '|' {
      after := EndSeg(st);
    } else {
      if Substitutes(c, next) {
        after := after.(subst := true);
      } else if Unmodelled(st, c, next) {
        after := after.(unsure := true);
      }
      after := Put(after, c);
    }
  }

  /** The lexer loop. */
  method Lex(cmd: string) returns (segs: seq<seq<string>>, subst: bool, unsure: bool)
    ensures Lexed(segs, subst, unsure) == LexOf(cmd)
  {
    hide InSingle, InDouble, InPlain, Run, Finish;
    var st := START;
    var i := 0;
    assert cmd[0..] == cmd;
    while i < |cmd|
      invariant 0 <= i <= |cmd|
      invariant Run(START, cmd) == Run(st, cmd[i..])
    {
      var c := cmd[i];
      var next := if i + 1 < |cmd| then cmd[i + 1] else NUL;
      var after, taken := st, 1;
      match st.quote {
        case Single => after := InSingle(st, c);
        case Double => after, taken := LexDouble(st, c, next);
        case Unquoted => after, taken := LexPlain(st, c, next);
      }
      StepTaken(st, cmd, i, after, taken);
      st := after;
      i := i + taken;
    }
    RunEnds(st);
    assert cmd[i..] == "";
    var closed := Finish(st);
    segs, subst, unsure := closed.segs, closed.subst, closed.unsure;
  }

  lemma StepTaken(st: Lexer, cmd: string, i: nat, after: Lexer, taken: nat)
    requires i < |cmd|
    requires Step(st, cmd[i], if i + 1 < |cmd| then cmd[i + 1] else NUL) == (after, taken)
    ensures taken >= 1 && i + taken <= |cmd| && Run(st, cmd[i..]) == Run(after, cmd[i + taken..])
  {
    StepFits(st, cmd[i..]);
    assert cmd[i..][taken..] == cmd[i + taken..];
  }

  // ---- quoting ------------------------------------------------------------------------

  /** Every single quote becomes: close, an escaped quote, open again. */
  function Escape(s: string): string {
    if |s| == 0 then "" else (if s[0] == '\'' then "'\\''" else [s[0]]) + Escape(s[1..])
  }

  function ShellQuote(s: string): string {
    "'" + Escape(s) + "'"
  }

  /** The lexer after a text has been added to the current word unread. */
  function Spliced(st: Lexer, s: string): Lexer {
    st.(word := st.word + s, inWord := true, prev := NUL)
  }

  lemma OneStep(st: Lexer, c: char, rest: string)
    requires Step(st, c, if |rest| > 0 then rest[0] else NUL).1 == 1
    ensures Run(st, [c] + rest) == Run(Step(st, c, if |rest| > 0 then rest[0] else NUL).0, rest)
  {
    assert ([c] + rest)[1..] == rest;
    assert NextOf([c] + rest) == if |rest| > 0 then rest[0] else NUL;
  }

  lemma {:induction false} EscapedRun(st: Lexer, s: string, rest: string)
    requires st.quote.Single? && st.inWord && st.prev == NUL
    ensures Run(st, Escape(s) + ("'" + rest)) == Run(Spliced(st, s).(quote := Unquoted), rest)
    decreases |s|
  {
    hide Run;
    if |s| == 0 {
      assert st.word + s == st.word;
      assert Escape(s) + ("'" + rest) == ['\''] + rest;
      OneStep(st, '\'', rest);
    } else {
      var more := Escape(s[1..]) + ("'" + rest);
      EscapedRun(st.(word := st.word + [s[0]]), s[1..], rest);
      assert st.word + [s[0]] + s[1..] == st.word + s;
      if s[0] == '\'' {
        assert Escape(s) + ("'" + rest) == ['\''] + (['\\'] + (['\''] + (['\''] + more)));
        OneStep(st, '\'', ['\\'] + (['\''] + (['\''] + more)));
        EscapedQuote(st.(quote := Unquoted), ['\''] + more);
        OneStep(st.(quote := Unquoted, word := st.word + ['\'']), '\'', more);
      } else {
        assert Escape(s) + ("'" + rest) == [s[0]] + more;
        OneStep(st, s[0], more);
      }
    }
  }

  lemma EscapedQuote(st: Lexer, rest: string)
    requires st.quote.Unquoted? && st.inWord && st.prev == NUL
    ensures Run(st, ['\\'] + (['\''] + rest)) == Run(st.(word := st.word + ['\'']), rest)
  {
    var cmd := ['\\'] + (['\''] + rest);
    assert cmd[2..] == rest && NextOf(cmd) == '\'';
  }

  /** Outside quotes, a quoted text is added to the current word byte for byte:
      nothing in it ends the word, the segment or the quote, runs a command or
      makes the lexer unsure. */
  lemma QuoteIsSpliced(st: Lexer, s: string, rest: string)
    requires st.quote.Unquoted?
    ensures Run(st, ShellQuote(s) + rest) == Run(Spliced(st, s), rest)
  {
    hide Run;
    assert ShellQuote(s) + rest == ['\''] + (Escape(s) + ("'" + rest));
    OneStep(st, '\'', Escape(s) + ("'" + rest));
    EscapedRun(st.(quote := Single, inWord := true, prev := NUL), s, rest);
  }

  // ---- command lines ---------------------------------------------------------------------

  /** A character the lexer reads as itself wherever it stands in a word. */
  predicate IsBare(c: char) {
    c !in {' ', '\t', '\n', ';', '&', '|', '\'', '"', '\\', '#', '$', '`', '<', '>', '(', '{'}
  }

  predicate BareWord(w: string) {
    |w| > 0 && forall i :: 0 <= i < |w| ==> IsBare(w[i])
  }

  datatype Token = Bare(text: string) | Quoted(text: string)

  predicate TokenOk(t: Token) {
    t.Bare? ==> BareWord(t.text)
  }

  function Spelling(t: Token): string {
    if t.Bare? then t.text else ShellQuote(t.text)
  }

  function Line(tokens: seq<Token>): string {
    if |tokens| == 0 then ""
    else if |tokens| == 1 then Spelling(tokens[0])
    else Spelling(tokens[0]) + " " + Line(tokens[1..])
  }

  function WordsOf(tokens: seq<Token>): (words: seq<string>)
    ensures |words| == |tokens| && forall i :: 0 <= i < |words| ==> words[i] == tokens[i].text
  {
    seq(|tokens|, i requires 0 <= i < |tokens| => tokens[i].text)
  }

  lemma {:induction false} BareRun(st: Lexer, w: string, rest: string)
    requires st.quote.Unquoted? && BareWord(w)
    ensures Run(st, w + rest) == Run(st.(word := st.word + w, inWord := true, prev := w[|w| - 1]), rest)
    decreases |w|
  {
    hide Run;
    assert w + rest == [w[0]] + (w[1..] + rest);
    OneStep(st, w[0], w[1..] + rest);
    if |w| == 1 {
      assert w[1..] + rest == rest && w == [w[0]];
    } else {
      BareRun(Put(st, w[0]), w[1..], rest);
      assert st.word + [w[0]] + w[1..] == st.word + w;
    }
  }

  function Between(segs: seq<seq<string>>, seg: seq<string>): Lexer {
    Lexer(segs, seg, "", false, Unquoted, NUL, false, false)
  }

  /** One token read from between words. */
  lemma TokenRun(seg: seq<string>, t: Token, rest: string) returns (prev: char)
    requires TokenOk(t)
    ensures prev != '<' && prev != '>'
    ensures Run(Between([], seg), Spelling(t) + rest) == Run(Lexer([], seg, t.text, true, Unquoted, prev, false, false), rest)
  {
    hide Run;
    assert "" + t.text == t.text;
    if t.Bare? {
      BareRun(Between([], seg), t.text, rest);
      prev := t.text[|t.text| - 1];
    } else {
      QuoteIsSpliced(Between([], seg), t.text, rest);
      prev := NUL;
    }
  }

  /** A line of bare and quoted words is lexed into exactly those words, as one
      segment, with nothing run and nothing in doubt. */
  lemma LineRoundTrip(tokens: seq<Token>)
    requires |tokens| > 0 && forall i :: 0 <= i < |tokens| ==> TokenOk(tokens[i])
    ensures LexOf(Line(tokens)) == Lexed([WordsOf(tokens)], false, false)
  {
    hide Run, Finish, Line, TokenOk;
    LineRun([], tokens);
    assert [] + WordsOf(tokens) == WordsOf(tokens);
  }

  /** Quoting and lexing undo each other, for every byte string. */
  lemma QuoteRoundTrip(s: string)
    ensures LexOf(ShellQuote(s)) == Lexed([[s]], false, false)
  {
    LineRoundTrip([Quoted(s)]);
    assert WordsOf([Quoted(s)]) == [s];
  }

  lemma {:induction false} LineRun(seg: seq<string>, tokens: seq<Token>)
    requires |tokens| > 0 && forall i :: 0 <= i < |tokens| ==> TokenOk(tokens[i])
    ensures Finish(Run(Between([], seg), Line(tokens))) == Lexed([seg + WordsOf(tokens)], false, false)
    decreases |tokens|
  {
    hide Run, Step, Finish, Spelling;
    var first := tokens[0];
    if |tokens| == 1 {
      assert Line(tokens) == Spelling(first) + "";
      var prev := TokenRun(seg, first, "");
      RunEnds(Lexer([], seg, first.text, true, Unquoted, prev, false, false));
      assert WordsOf(tokens) == [first.text];
      LineEnds(seg, first.text, prev);
    } else {
      var rest := Line(tokens[1..]);
      assert Line(tokens) == Spelling(first) + ([' '] + rest);
      var prev := TokenRun(seg, first, [' '] + rest);
      WordEnds(seg, first.text, prev, rest);
      LineRun(seg + [first.text], tokens[1..]);
      assert seg + [first.text] + WordsOf(tokens[1..]) == seg + WordsOf(tokens);
    }
  }

  lemma LineEnds(seg: seq<string>, word: string, prev: char)
    ensures Finish(Lexer([], seg, word, true, Unquoted, prev, false, false)) == Lexed([seg + [word]], false, false)
  {}

  lemma WordEnds(seg: seq<string>, word: string, prev: char, rest: string)
    ensures Run(Lexer([], seg, word, true, Unquoted, prev, false, false), [' '] + rest)
         == Run(Between([], seg + [word]), rest)
  {
    hide Run;
    OneStep(Lexer([], seg, word, true, Unquoted, prev, false, false), ' ', rest);
  }

  // ---- several commands on a line ----------------------------------------------------------

  /** Blanks and operators that end a command, with at least one operator. */
  predicate IsSeparator(sep: string) {
    (forall i :: 0 <= i < |sep| ==> IsBlank(sep[i]) || Ends(sep[i])) && exists i :: 0 <= i < |sep| && Ends(sep[i])
  }

  predicate IsBlank(c: char) {
    c == ' ' || c == '\t'
  }

  predicate Ends(c: char) {
    c == '\n' || c == ';' || c == '&' || c == '|'
  }

  /** What blanks and operators do to the lexer. */
  function Separated(st: Lexer, sep: string): Lexer
    decreases |sep|
  {
    if |sep| == 0 then st
    else Separated(if IsBlank(sep[0]) then EndWord(st) else EndSeg(st), sep[1..])
  }

  lemma {:induction false} SeparatorRun(st: Lexer, sep: string, rest: string)
    requires st.quote.Unquoted? && st.prev != '<' && st.prev != '>' && (|rest| > 0 ==> rest[0] != '>')
    requires forall i :: 0 <= i < |sep| ==> IsBlank(sep[i]) || Ends(sep[i])
    ensures Run(st, sep + rest) == Run(Separated(st, sep), rest)
    decreases |sep|
  {
    hide Run;
    if |sep| == 0 {
      assert sep + rest == rest;
    } else {
      assert sep + rest == [sep[0]] + (sep[1..] + rest);
      OneStep(st, sep[0], sep[1..] + rest);
      SeparatorRun(if IsBlank(sep[0]) then EndWord(st) else EndSeg(st), sep[1..], rest);
    }
  }

  /** An operator among them ends the command, and nothing more happens. */
  lemma {:induction false} OperatorEnds(st: Lexer, sep: string)
    requires IsSeparator(sep) || (st == EndSeg(st) && forall i :: 0 <= i < |sep| ==> IsBlank(sep[i]) || Ends(sep[i]))
    ensures Separated(st, sep) == EndSeg(st)
    decreases |sep|
  {
    if |sep| > 0 {
      var next := if IsBlank(sep[0]) then EndWord(st) else EndSeg(st);
      assert EndSeg(next) == EndSeg(st);
      if IsBlank(sep[0]) && st != EndSeg(st) {
        var i :| 0 <= i < |sep| && Ends(sep[i]);
        assert sep[1..][i - 1] == sep[i];
        assert IsSeparator(sep[1..]);
      }
      OperatorEnds(next, sep[1..]);
    }
  }

  /** Commands found so far are carried along. */
  lemma {:induction false} SegsCarried(segs: seq<seq<string>>, st: Lexer, cmd: string)
    ensures var end := Run(st, cmd);
            Run(st.(segs := segs + st.segs), cmd) == end.(segs := segs + end.segs)
    decreases |cmd|
  {
    if |cmd| > 0 {
      StepFits(st, cmd);
      StepCarries(segs, st, cmd[0], NextOf(cmd));
      var (after, taken) := Step(st, cmd[0], NextOf(cmd));
      SegsCarried(segs, after, cmd[taken..]);
    }
  }

  lemma StepCarries(segs: seq<seq<string>>, st: Lexer, c: char, next: char)
    ensures var (after, taken) := Step(st, c, next);
            Step(st.(segs := segs + st.segs), c, next) == (after.(segs := segs + after.segs), taken)
  {
    if st.quote.Unquoted? {
      hide EndSeg, Unmodelled, Substitutes;
      EndSegCarries(segs, st);
      SameConstructs(st, st.(segs := segs + st.segs), c, next);
    }
  }

  lemma SameConstructs(st: Lexer, other: Lexer, c: char, next: char)
    requires other.inWord == st.inWord && other.prev == st.prev
    ensures Unmodelled(st, c, next) == Unmodelled(other, c, next)
  {}

  lemma EndSegCarries(segs: seq<seq<string>>, st: Lexer)
    ensures EndSeg(st.(segs := segs + st.segs)) == EndSeg(st).(segs := segs + EndSeg(st).segs)
  {
    var ended := EndWord(st);
    assert segs + (st.segs + [ended.seg]) == segs + st.segs + [ended.seg];
  }

  /** A line of tokens read from between words, whatever follows: its last word is still open. */
  lemma {:induction false} LineThen(seg: seq<string>, tokens: seq<Token>, rest: string) returns (prev: char)
    requires |tokens| > 0 && forall i :: 0 <= i < |tokens| ==> TokenOk(tokens[i])
    ensures prev != '<' && prev != '>'
    ensures var last := tokens[|tokens| - 1].text;
            Run(Between([], seg), Line(tokens) + rest)
              == Run(Lexer([], seg + WordsOf(tokens)[..|tokens| - 1], last, true, Unquoted, prev, false, false), rest)
    decreases |tokens|
  {
    hide Run, Step, Spelling, TokenOk, Line, WordsOf;
    var first := tokens[0];
    LineBegins(tokens, rest);
    WordsBefore(seg, tokens);
    if |tokens| == 1 {
      prev := TokenRun(seg, first, rest);
    } else {
      var more := Line(tokens[1..]) + rest;
      prev := TokenRun(seg, first, [' '] + more);
      WordEnds(seg, first.text, prev, more);
      prev := LineThen(seg + [first.text], tokens[1..], rest);
    }
  }

  lemma LineBegins(tokens: seq<Token>, rest: string)
    requires |tokens| > 0
    ensures Line(tokens) + rest
            == if |tokens| == 1 then Spelling(tokens[0]) + rest
               else Spelling(tokens[0]) + ([' '] + (Line(tokens[1..]) + rest))
  {
    hide Spelling;
    if |tokens| > 1 {
      assert Line(tokens) == Spelling(tokens[0]) + " " + Line(tokens[1..]);
    }
  }

  lemma WordsBefore(seg: seq<string>, tokens: seq<Token>)
    requires |tokens| > 0
    ensures seg + WordsOf(tokens)[..|tokens| - 1]
            == if |tokens| == 1 then seg else seg + [tokens[0].text] + WordsOf(tokens[1..])[..|tokens| - 2]
  {}

  /** Lines, with separators between them. */
  function Script(lines: seq<seq<Token>>, seps: seq<string>): string
    requires |lines| > 0 && |seps| == |lines| - 1
  {
    if |lines| == 1 then Line(lines[0]) else Line(lines[0]) + (seps[0] + Script(lines[1..], seps[1..]))
  }

  function WordsOfAll(lines: seq<seq<Token>>): (words: seq<seq<string>>)
    ensures |words| == |lines| && forall i :: 0 <= i < |words| ==> words[i] == WordsOf(lines[i])
  {
    seq(|lines|, i requires 0 <= i < |lines| => WordsOf(lines[i]))
  }

  ghost predicate LinesOk(lines: seq<seq<Token>>) {
    forall i, j :: 0 <= i < |lines| && 0 <= j < |lines[i]| ==> TokenOk(lines[i][j])
  }

  /** No operator hides a command: a script is lexed into the words of each of its lines,
      one segment a line, with nothing run and nothing in doubt. */
  lemma {:induction false} ScriptRoundTrip(lines: seq<seq<Token>>, seps: seq<string>)
    requires |lines| > 0 && |seps| == |lines| - 1 && LinesOk(lines)
    requires (forall i :: 0 <= i < |lines| ==> |lines[i]| > 0) && forall i :: 0 <= i < |seps| ==> IsSeparator(seps[i])
    ensures LexOf(Script(lines, seps)) == Lexed(WordsOfAll(lines), false, false)
    decreases |lines|
  {
    hide Run, TokenOk, Line, IsSeparator;
    if |lines| == 1 {
      LineRoundTrip(lines[0]);
      assert WordsOfAll(lines) == [WordsOf(lines[0])];
    } else {
      var rest := Script(lines[1..], seps[1..]);
      var first := WordsOf(lines[0]);
      assert LinesOk(lines[1..]);
      ScriptRoundTrip(lines[1..], seps[1..]);
      FirstLine(lines[0], seps[0], rest, lines[1..], seps[1..]);
      assert Between([], []) == START && START.segs == [];
      SegsCarried([first], START, rest);
      assert [first] + [] == [first];
      Carried(first, Run(START, rest));
      assert WordsOfAll(lines) == [first] + WordsOfAll(lines[1..]);
    }
  }

  lemma Carried(first: seq<string>, st: Lexer)
    ensures var end := Finish(st);
            Finish(st.(segs := [first] + st.segs)) == Lexed([first] + end.segs, end.subst, end.unsure)
  {
    assert forall more: seq<seq<string>> :: [first] + (st.segs + more) == ([first] + st.segs) + more;
  }

  lemma FirstLine(line: seq<Token>, sep: string, rest: string, lines: seq<seq<Token>>, seps: seq<string>)
    requires |line| > 0 && (forall j :: 0 <= j < |line| ==> TokenOk(line[j])) && IsSeparator(sep)
    requires |lines| > 0 && |seps| == |lines| - 1 && rest == Script(lines, seps)
    requires |lines[0]| > 0 && TokenOk(lines[0][0])
    ensures Run(START, Line(line) + (sep + rest)) == Run(Between([WordsOf(line)], []), rest)
  {
    hide Run, IsSeparator, Script, Line, Separated, EndSeg, TokenOk;
    var prev := LineThen([], line, sep + rest);
    var n := |line| - 1;
    var st := Lexer([], [] + WordsOf(line)[..n], line[n].text, true, Unquoted, prev, false, false);
    StartsPlainly(lines, seps);
    SeparatorIsClean(sep);
    SeparatorRun(st, sep, rest);
    OperatorEnds(st, sep);
    LineIsDone(line, st);
  }

  lemma LineIsDone(line: seq<Token>, st: Lexer)
    requires |line| > 0 && st.segs == [] && st.quote.Unquoted? && st.inWord && !st.subst && !st.unsure
    requires st.seg == [] + WordsOf(line)[..|line| - 1] && st.word == line[|line| - 1].text
    ensures EndSeg(st) == Between([WordsOf(line)], [])
  {
    assert st.seg + [st.word] == WordsOf(line);
  }

  lemma SeparatorIsClean(sep: string)
    requires IsSeparator(sep)
    ensures forall i :: 0 <= i < |sep| ==> IsBlank(sep[i]) || Ends(sep[i])
  {}

  lemma StartsPlainly(lines: seq<seq<Token>>, seps: seq<string>)
    requires |lines| > 0 && |seps| == |lines| - 1 && |lines[0]| > 0 && TokenOk(lines[0][0])
    ensures |Script(lines, seps)| > 0 && Script(lines, seps)[0] != '>'
  {
    var t := lines[0][0];
    assert |Spelling(t)| > 0 && Spelling(t)[0] != '>';
    assert Line(lines[0])[0] == Spelling(t)[0];
  }

  // ---- substitutions ---------------------------------------------------------------------------

  /** What the lexer has seen of substitutions and doubts it does not forget. */
  lemma {:induction false} MarksStay(st: Lexer, cmd: string)
    ensures st.subst ==> Run(st, cmd).subst
    ensures st.unsure ==> Run(st, cmd).unsure
    decreases |cmd|
  {
    if |cmd| > 0 {
      StepFits(st, cmd);
      MarksStay(Step(st, cmd[0], NextOf(cmd)).0, cmd[Step(st, cmd[0], NextOf(cmd)).1..]);
    }
  }

  /** Outside single quotes no command substitution goes unseen, whatever came before it and
      whatever follows. */
  lemma SubstitutionIsSeen(st: Lexer, rest: string)
    requires !st.quote.Single?
    ensures Run(st, "`" + rest).subst && Run(st, "$(" + rest).subst
  {
    hide Run;
    assert "`" + rest == ['`'] + rest && "$(" + rest == ['$'] + (['('] + rest);
    OneStep(st, '`', rest);
    MarksStay(Step(st, '`', NextOf(['`'] + rest)).0, rest);
    OneStep(st, '$', ['('] + rest);
    MarksStay(Step(st, '$', '(').0, ['('] + rest);
  }

  /** And a process substitution outside all quotes neither. */
  lemma ProcessSubstitutionIsSeen(st: Lexer, rest: string)
    requires st.quote.Unquoted?
    ensures Run(st, "<(" + rest).subst && Run(st, ">(" + rest).subst
  {
    hide Run;
    assert "<(" + rest == ['<'] + (['('] + rest) && ">(" + rest == ['>'] + (['('] + rest);
    OneStep(st, '<', ['('] + rest);
    MarksStay(Step(st, '<', '(').0, ['('] + rest);
    OneStep(st, '>', ['('] + rest);
    MarksStay(Step(st, '>', '(').0, ['('] + rest);
  }

  lemma RunEnds(st: Lexer)
    ensures Run(st, "") == st
  {}
}
