/**
  The printed instruction blocks (internal/cli/format.go). A session takes the first
  line that starts at column 0 with an instruction's name as its next instruction
  and an END line at column 0 as its close, so no text a workflow, a step or a
  subagent supplied may put such a line there.

  Text is a sequence of Unicode characters.
 */
module Blocks {
  import opened Wrappers
  import opened Workflows

  const LF := '\n'
  const CR := '\r'
  const TAB := '\t'

  // ---- neutralising ---------------------------------------------------------------------------

  /** CRLF made one given text, everything else as it is. */
  function ReplaceCrLf(s: string, by_: string): string {
    if |s| >= 2 && s[0] == CR && s[1] == LF then by_ + ReplaceCrLf(s[2..], by_)
    else if |s| > 0 then [s[0]] + ReplaceCrLf(s[1..], by_)
    else ""
  }

  function ReplaceLf(s: string): string {
    if |s| == 0 then "" else (if s[0] == LF then "\\n" else [s[0]]) + ReplaceLf(s[1..])
  }

  function HexDigit(n: nat): char
    requires n < 16
  {
    if n < 10 then '0' + n as char else 'a' + (n - 10) as char
  }

  /** Lower-case hexadecimal with that many digits. */
  function Hex(n: nat, digits: nat): (s: string)
    ensures |s| == digits
  {
    if digits == 0 then "" else Hex(n / 16, digits - 1) + [HexDigit(n % 16)]
  }

  /** Line separators and the controls that reorder a line. */
  predicate IsBreakOrBidi(c: char) {
    var r := c as int;
    r == 0x85 || r == 0x2028 || r == 0x2029 || 0x202a <= r <= 0x202e || 0x2066 <= r <= 0x2069
  }

  predicate IsControl(c: char) {
    (c as int) < 0x20 || c as int == 0x7f
  }

  /** One character, made visible if it is a control or a break. */
  function Neutral(c: char): string {
    if c == CR then "\\r"
    else if c == LF || c == TAB then [c]
    else if IsControl(c) then "\\x" + Hex(c as int, 2)
    else if IsBreakOrBidi(c) then "\\u" + Hex(c as int, 4)
    else [c]
  }

  function EachNeutral(s: string): string {
    if |s| == 0 then "" else Neutral(s[0]) + EachNeutral(s[1..])
  }

  function Neutralised(s: string): string {
    EachNeutral(ReplaceCrLf(s, [LF]))
  }

  /** The loop over the characters. */
  method NeutralizeControls(s: string) returns (out: string)
    ensures out == Neutralised(s)
  {
    hide Neutral;
    var t := ReplaceCrLf(s, [LF]);
    out := "";
    var i := 0;
    assert t[0..] == t;
    while i < |t|
      invariant 0 <= i <= |t| && EachNeutral(t) == out + EachNeutral(t[i..])
    {
      assert t[i..][1..] == t[i + 1..];
      var one := NeutralOne(t[i]);
      out := out + one;
      i := i + 1;
    }
  }

  method NeutralOne(c: char) returns (out: string)
    ensures out == Neutral(c)
  {
    hide Hex;
    if c == CR {
      out := "\\r";
    } else if c == LF || c == TAB {
      out := [c];
    } else if IsControl(c) {
      out := "\\x" + Hex(c as int, 2);
    } else if IsBreakOrBidi(c) {
      out := "\\u" + Hex(c as int, 4);
    } else {
      out := [c];
    }
  }

  /** Neither a control, a tab apart, nor a line break of any kind. */
  predicate Tame(c: char) {
    (!IsControl(c) || c == TAB) && !IsBreakOrBidi(c)
  }

  predicate TameLine(s: string) {
    forall i :: 0 <= i < |s| ==> Tame(s[i])
  }

  predicate TameText(s: string) {
    forall i :: 0 <= i < |s| ==> Tame(s[i]) || s[i] == LF
  }

  lemma HexIsTame(n: nat, digits: nat)
    ensures TameLine(Hex(n, digits))
  {
    if digits > 0 {
      HexIsTame(n / 16, digits - 1);
      var d := HexDigit(n % 16);
      assert '0' <= d <= '9' || 'a' <= d <= 'f';
    }
  }

  lemma NeutralIsTame(c: char)
    ensures TameText(Neutral(c)) && (c != LF ==> TameLine(Neutral(c)))
  {
    HexIsTame(c as int, 2);
    HexIsTame(c as int, 4);
    assert Tame('\\') && Tame('x') && Tame('u') && Tame('r');
  }

  lemma {:induction false} EachIsTame(s: string)
    ensures TameText(EachNeutral(s)) && (LF !in s ==> TameLine(EachNeutral(s)))
  {
    if |s| > 0 {
      NeutralIsTame(s[0]);
      EachIsTame(s[1..]);
    }
  }

  // ---- one-line texts -----------------------------------------------------------------------------

  /** A header, a label or a value on one line: breaks become visible. */
  function SingleLine(s: string): string {
    Neutralised(ReplaceLf(ReplaceCrLf(s, "\\n")))
  }

  lemma {:induction false} NoLfLeft(s: string)
    ensures LF !in ReplaceLf(s)
  {
    if |s| > 0 {
      NoLfLeft(s[1..]);
    }
  }

  lemma {:induction false} NoCrLfIsKept(s: string)
    requires LF !in s
    ensures ReplaceCrLf(s, [LF]) == s
  {
    if |s| > 0 {
      NoCrLfIsKept(s[1..]);
      assert s == [s[0]] + s[1..];
    }
  }

  /** Nothing that breaks, moves or reorders a line survives on one. */
  lemma SingleLineIsTame(s: string)
    ensures TameLine(SingleLine(s))
  {
    var flat := ReplaceLf(ReplaceCrLf(s, "\\n"));
    NoLfLeft(ReplaceCrLf(s, "\\n"));
    NoCrLfIsKept(flat);
    EachIsTame(flat);
  }

  predicate Plain(s: string) {
    forall i :: 0 <= i < |s| ==> Tame(s[i]) && s[i] != TAB
  }

  /** A plain text is printed as it is, whatever follows it. */
  lemma {:induction false} PlainStays(a: string, b: string)
    requires Plain(a)
    ensures SingleLine(a + b) == a + SingleLine(b)
  {
    if |a| == 0 {
      assert a + b == b && a + SingleLine(b) == SingleLine(b);
    } else {
      var rest := a[1..] + b;
      assert a + b == [a[0]] + rest;
      PlainStays(a[1..], b);
      PlainHead(a[0], rest);
      assert a == [a[0]] + a[1..];
    }
  }

  lemma PlainHead(c: char, rest: string)
    requires Tame(c) && c != TAB
    ensures SingleLine([c] + rest) == [c] + SingleLine(rest)
  {
    assert ([c] + rest)[1..] == rest;
    var flat := ReplaceLf(ReplaceCrLf(rest, "\\n"));
    assert ([c] + ReplaceCrLf(rest, "\\n"))[1..] == ReplaceCrLf(rest, "\\n");
    assert ReplaceLf(ReplaceCrLf([c] + rest, "\\n")) == [c] + flat;
    NoLfLeft(ReplaceCrLf(rest, "\\n"));
    NoCrLfIsKept(flat);
    assert LF !in [c] + flat;
    NoCrLfIsKept([c] + flat);
    assert ([c] + flat)[1..] == flat;
  }

  // ---- lines --------------------------------------------------------------------------------------

  /** The text of lines, each with its newline. */
  function Text(lines: seq<string>): string {
    if |lines| == 0 then "" else Text(lines[..|lines| - 1]) + lines[|lines| - 1] + [LF]
  }

  /** The lines of a text whose last line ends in a newline. */
  function LinesOf(s: string, current: string): seq<string> {
    if |s| == 0 then if current == "" then [] else [current]
    else if s[0] == LF then [current] + LinesOf(s[1..], "")
    else LinesOf(s[1..], current + [s[0]])
  }

  lemma {:induction false} LinesOfOne(line: string, current: string, rest: string)
    requires LF !in line
    ensures LinesOf(line + ([LF] + rest), current) == [current + line] + LinesOf(rest, "")
    decreases |line|
  {
    var s := line + ([LF] + rest);
    if |line| == 0 {
      assert s == [LF] + rest && s[1..] == rest && current + line == current;
    } else {
      assert s[1..] == line[1..] + ([LF] + rest) && s[0] == line[0];
      LinesOfOne(line[1..], current + [line[0]], rest);
      assert current + [line[0]] + line[1..] == current + line;
    }
  }

  /** Reading a printed text line by line gives back the lines it was printed from. */
  lemma {:induction false} TextReadsBack(lines: seq<string>, rest: string)
    requires forall i :: 0 <= i < |lines| ==> LF !in lines[i]
    ensures LinesOf(Text(lines) + rest, "") == lines + LinesOf(rest, "")
  {
    if |lines| == 0 {
      assert Text(lines) + rest == rest;
    } else {
      var front, last := lines[..|lines| - 1], lines[|lines| - 1];
      assert Text(lines) + rest == Text(front) + (last + ([LF] + rest));
      TextReadsBack(front, last + ([LF] + rest));
      LinesOfOne(last, "", rest);
      assert "" + last == last;
      assert front + ([last] + LinesOf(rest, "")) == lines + LinesOf(rest, "");
    }
  }

  /** Split at newlines, a final newline not counted. */
  function SplitLines(s: string): (lines: seq<string>)
    ensures |lines| > 0
  {
    if |s| == 0 then [""]
    else
      var rest := SplitLines(s[1..]);
      if s[0] == LF then [""] + rest else [[s[0]] + rest[0]] + rest[1..]
  }

  function TrimFinalLf(s: string): string {
    if |s| > 0 && s[|s| - 1] == LF then s[..|s| - 1] else s
  }

  lemma {:induction false} SplitIsTame(s: string)
    requires TameText(s)
    ensures forall i :: 0 <= i < |SplitLines(s)| ==> TameLine(SplitLines(s)[i])
  {
    if |s| > 0 {
      SplitIsTame(s[1..]);
    }
  }

  function Spaces(n: nat): (s: string)
    ensures |s| == n && forall i :: 0 <= i < n ==> s[i] == ' '
  {
    seq(n, i => ' ')
  }

  function Prefixed(prefix: string, lines: seq<string>): (out: seq<string>)
    ensures |out| == |lines| && forall i :: 0 <= i < |out| ==> out[i] == prefix + lines[i]
  {
    seq(|lines|, i requires 0 <= i < |lines| => prefix + lines[i])
  }

  /** A body's lines: neutralised, then indented. */
  function BodyLines(text: string, n: nat): seq<string> {
    if text == "" then [Spaces(n) + "(empty)"]
    else Prefixed(Spaces(n), SplitLines(TrimFinalLf(Neutralised(text))))
  }

  predicate Indented(line: string) {
    |line| > 0 && line[0] == ' '
  }

  /** However many lines a body has, each is indented and tame. */
  lemma BodyIsIndented(text: string, n: nat)
    requires n > 0
    ensures forall i :: 0 <= i < |BodyLines(text, n)| ==>
              Indented(BodyLines(text, n)[i]) && TameLine(BodyLines(text, n)[i])
  {
    if text == "" {
      assert TameLine("(empty)");
    } else {
      EachIsTame(ReplaceCrLf(text, [LF]));
      SplitIsTame(TrimFinalLf(Neutralised(text)));
    }
  }

  // ---- what a line may be ------------------------------------------------------------------------

  predicate StartsWith(line: string, word: string) {
    |word| <= |line| && line[..|word|] == word
  }

  predicate IsInstruction(line: string) {
    StartsWith(line, "DISPATCH") || StartsWith(line, "ASK") || StartsWith(line, "WAIT") || StartsWith(line, "TERMINAL")
  }

  predicate IsEnd(line: string) {
    StartsWith(line, "END")
  }

  /** Indented, or starting with a lower-case letter: never an instruction nor an END. */
  predicate Quiet(line: string) {
    |line| > 0 && (line[0] == ' ' || 'a' <= line[0] <= 'z')
  }

  lemma QuietIsNothing(line: string)
    requires Quiet(line)
    ensures !IsInstruction(line) && !IsEnd(line)
  {
    hide StartsWith;
    StartsElsewhere(line, "DISPATCH");
    StartsElsewhere(line, "ASK");
    StartsElsewhere(line, "WAIT");
    StartsElsewhere(line, "TERMINAL");
    StartsElsewhere(line, "END");
  }

  lemma StartsElsewhere(line: string, word: string)
    requires |line| > 0 && |word| > 0 && line[0] != word[0]
    ensures !StartsWith(line, word)
  {}

  // ---- the writer --------------------------------------------------------------------------------

  function Join(parts: seq<string>): string {
    if |parts| == 0 then ""
    else if |parts| == 1 then parts[0]
    else parts[0] + " " + Join(parts[1..])
  }

  function HeadLine(indent: nat, parts: seq<string>): string {
    Spaces(2 * indent) + SingleLine(Join(parts))
  }

  /** The builder every block goes through; `lines` is what it has written. */
  class BlockWriter {
    var text: string
    ghost var lines: seq<string>

    ghost predicate Valid()
      reads this
    {
      text == Text(lines) && forall i :: 0 <= i < |lines| ==> TameLine(lines[i])
    }

    constructor ()
      ensures Valid() && lines == []
    {
      text, lines := "", [];
    }

    /** One line, its parts joined and neutralised together. */
    method Line(indent: nat, parts: seq<string>)
      requires Valid()
      modifies this
      ensures Valid() && lines == old(lines) + [HeadLine(indent, parts)]
    {
      hide SingleLine;
      SingleLineIsTame(Join(parts));
      text := text + Spaces(2 * indent) + SingleLine(Join(parts)) + [LF];
      ghost var added := HeadLine(indent, parts);
      assert (lines + [added])[..|lines|] == lines;
      assert text == Text(lines) + added + [LF];
      lines := lines + [added];
    }

    /** A body, indented one level deeper. */
    method Body(indent: nat, body: string)
      requires Valid()
      modifies this
      ensures Valid() && lines == old(lines) + BodyLines(body, 2 * (indent + 1))
    {
      hide BodyLines;
      var more := BodyLines(body, 2 * (indent + 1));
      BodyIsIndented(body, 2 * (indent + 1));
      var i := 0;
      while i < |more|
        invariant 0 <= i <= |more| && Valid() && lines == old(lines) + more[..i]
      {
        text := text + more[i] + [LF];
        assert (lines + [more[i]])[..|lines|] == lines;
        lines := lines + [more[i]];
        i := i + 1;
      }
      assert more[..i] == more;
    }

    method Field(indent: nat, label_: string, body: string)
      requires Valid()
      modifies this
      ensures Valid() && lines == old(lines) + [HeadLine(indent, [label_ + ":"])] + BodyLines(body, 2 * (indent + 1))
    {
      Line(indent, [label_ + ":"]);
      Body(indent, body);
    }
  }

  /** All of these lines are quiet. */
  predicate AllQuiet(lines: seq<string>) {
    forall i :: 0 <= i < |lines| ==> Quiet(lines[i])
  }

  lemma BodyIsQuiet(text: string, n: nat)
    requires n > 0
    ensures AllQuiet(BodyLines(text, n))
  {
    hide BodyLines;
    BodyIsIndented(text, n);
  }

  /** A line is quiet when it is indented with something on it, or when its first part
      starts with a lower-case letter. */
  lemma HeadIsQuiet(indent: nat, parts: seq<string>)
    requires |parts| > 0 && |parts[0]| > 0 && 'a' <= parts[0][0] <= 'z'
    ensures AllQuiet([HeadLine(indent, parts)])
  {
    hide SingleLine;
    var joined := Join(parts);
    assert joined[0] == parts[0][0] && joined == [joined[0]] + joined[1..];
    PlainHead(joined[0], joined[1..]);
    if indent > 0 {
      assert HeadLine(indent, parts)[0] == ' ';
    } else {
      assert Spaces(0) + SingleLine(joined) == SingleLine(joined);
    }
  }

  lemma NestedIsQuiet(indent: nat, parts: seq<string>)
    requires indent > 0
    ensures AllQuiet([HeadLine(indent, parts)])
  {
    hide SingleLine;
  }

  // ---- the blocks ------------------------------------------------------------------------------------

  datatype Context = Context(source: string, value: string, bytes: nat, status: string)

  /** The contents of a dispatch, each text as it was supplied. */
  datatype Dispatch = Dispatch(
    runId: string,
    step: string,
    item: Option<nat>,
    attempt: nat,
    maxAttempts: nat,
    description: string,
    context: seq<Context>,
    writes: seq<(string, string)>,
    subagentArgs: string,
    previousFailure: string,
    interrupted: bool)

  /** Its first and last line enclose a text: no line between them can be taken for an
      instruction or a close, and nothing in it breaks or reorders a line. */
  ghost predicate Encloses(text: string, first: string, last: string) {
    var lines := LinesOf(text, "");
    && |lines| >= 2 && lines[0] == SingleLine(first) && lines[|lines| - 1] == SingleLine(last)
    && (forall i :: 0 < i < |lines| - 1 ==> Quiet(lines[i]) && !IsInstruction(lines[i]) && !IsEnd(lines[i]))
    && (forall i :: 0 <= i < |lines| ==> TameLine(lines[i]))
    && TameText(text)
  }

  /** A printed block: an instruction opens it, an END closes it, and they enclose the
      rest. */
  ghost predicate IsBlock(text: string, first: string, last: string) {
    Encloses(text, first, last) && IsInstruction(SingleLine(first)) && IsEnd(SingleLine(last))
  }

  lemma {:induction false} TextIsTame(lines: seq<string>)
    requires forall i :: 0 <= i < |lines| ==> TameLine(lines[i])
    ensures TameText(Text(lines))
  {
    if |lines| > 0 {
      TextIsTame(lines[..|lines| - 1]);
    }
  }

  lemma LinesOfText(lines: seq<string>)
    requires forall i :: 0 <= i < |lines| ==> TameLine(lines[i])
    ensures LinesOf(Text(lines), "") == lines && TameText(Text(lines))
  {
    hide Tame;
    TextIsTame(lines);
    forall i | 0 <= i < |lines|
      ensures LF !in lines[i]
    {
      TameHasNoNewline(lines[i]);
    }
    TextReadsBack(lines, "");
    assert Text(lines) + "" == Text(lines) && lines + [] == lines;
  }

  lemma TameHasNoNewline(s: string)
    requires TameLine(s)
    ensures LF !in s
  {}

  /** The block is open: its first line is there and all since is quiet. */
  predicate Opened(lines: seq<string>, first: string) {
    |lines| > 0 && lines[0] == SingleLine(first) && AllQuiet(lines[1..])
  }

  lemma StaysOpen(lines: seq<string>, first: string, more: seq<string>)
    requires Opened(lines, first) && AllQuiet(more)
    ensures Opened(lines + more, first)
  {
    hide SingleLine, Quiet;
    assert (lines + more)[1..] == lines[1..] + more;
  }

  /** The line that opens a block starts with its own name, and the one that closes it
      with END. */
  lemma OpensWithItsName(kind: string, parts: seq<string>)
    requires Plain(kind) && |parts| > 0
    ensures StartsWith(SingleLine(Join([kind] + parts)), kind)
  {
    hide SingleLine, Plain, Tame;
    assert ([kind] + parts)[1..] == parts;
    var rest := " " + Join(parts);
    assert Join([kind] + parts) == kind + rest;
    PlainStays(kind, rest);
    assert (kind + SingleLine(rest))[..|kind|] == kind;
  }

  const KINDS: set<string> := {"DISPATCH", "DISPATCH_PARALLEL", "ASK", "WAIT", "TERMINAL"}

  /** So it is an instruction, and the closing line an END. */
  lemma IsNamed(kind: string, id: string, name: string)
    requires kind in KINDS
    ensures IsInstruction(SingleLine(Join([kind, id, name]))) && IsEnd(SingleLine(Join(["END", kind, id, name])))
  {
    hide SingleLine, Join;
    assert [kind] + [id, name] == [kind, id, name] && ["END"] + [kind, id, name] == ["END", kind, id, name];
    OpensWithItsName(kind, [id, name]);
    OpensWithItsName("END", [kind, id, name]);
    var line := SingleLine(Join([kind, id, name]));
    if kind == "DISPATCH_PARALLEL" {
      assert line[..8] == line[..17][..8] == "DISPATCH";
    }
  }

  lemma BlockOf(lines: seq<string>, first: string, last: string)
    requires Opened(lines, first) && (forall i :: 0 <= i < |lines| ==> TameLine(lines[i]))
    ensures Encloses(Text(lines + [SingleLine(last)]), first, last)
  {
    hide SingleLine, Quiet, IsInstruction, IsEnd, Tame, Text, TameText;
    SingleLineIsTame(last);
    var all := lines + [SingleLine(last)];
    LinesOfText(all);
    forall i | 0 < i < |all| - 1
      ensures Quiet(all[i]) && !IsInstruction(all[i]) && !IsEnd(all[i])
    {
      assert lines[1..][i - 1] == all[i];
      QuietIsNothing(all[i]);
    }
  }

  lemma FlushLine(parts: seq<string>)
    ensures HeadLine(0, parts) == SingleLine(Join(parts))
  {
    hide SingleLine;
    assert Spaces(0) == "";
  }

  // ---- printing ----------------------------------------------------------------------------------

  /** Write a quiet line. */
  method WriteLine(w: BlockWriter, ghost first: string, indent: nat, parts: seq<string>)
    requires w.Valid() && Opened(w.lines, first) && |parts| > 0
    requires indent > 0 || (|parts[0]| > 0 && 'a' <= parts[0][0] <= 'z')
    modifies w
    ensures w.Valid() && Opened(w.lines, first) && w.lines == old(w.lines) + [HeadLine(indent, parts)]
  {
    hide Opened, HeadLine, AllQuiet;
    if indent > 0 {
      NestedIsQuiet(indent, parts);
    } else {
      HeadIsQuiet(indent, parts);
    }
    StaysOpen(w.lines, first, [HeadLine(indent, parts)]);
    w.Line(indent, parts);
  }

  method WriteBody(w: BlockWriter, ghost first: string, indent: nat, body: string)
    requires w.Valid() && Opened(w.lines, first)
    modifies w
    ensures w.Valid() && Opened(w.lines, first) && w.lines == old(w.lines) + BodyLines(body, 2 * (indent + 1))
  {
    hide Opened, BodyLines, AllQuiet;
    BodyIsQuiet(body, 2 * (indent + 1));
    StaysOpen(w.lines, first, BodyLines(body, 2 * (indent + 1)));
    w.Body(indent, body);
  }

  method WriteField(w: BlockWriter, ghost first: string, indent: nat, name: string, body: string)
    requires w.Valid() && Opened(w.lines, first) && |name| > 0 && 'a' <= name[0] <= 'z'
    modifies w
    ensures w.Valid() && Opened(w.lines, first) && w.lines == old(w.lines) + FieldLines(indent, name, body)
  {
    hide Opened, HeadLine, BodyLines;
    WriteLine(w, first, indent, [name + ":"]);
    WriteBody(w, first, indent, body);
  }

  method Open(parts: seq<string>) returns (w: BlockWriter)
    ensures fresh(w) && w.Valid() && Opened(w.lines, Join(parts)) && w.lines == [SingleLine(Join(parts))]
  {
    hide SingleLine, Join;
    w := new BlockWriter();
    w.Line(0, parts);
    FlushLine(parts);
    assert w.lines == [SingleLine(Join(parts))];
    assert w.lines[1..] == [];
  }

  method Close(w: BlockWriter, kind: string, id: string, name: string) returns (text: string)
    requires w.Valid() && Opened(w.lines, Join([kind, id, name])) && kind in KINDS
    modifies w
    ensures var last := Join(["END", kind, id, name]);
            IsBlock(text, Join([kind, id, name]), last) && text == Text(old(w.lines) + [SingleLine(last)])
            && LinesOf(text, "") == old(w.lines) + [SingleLine(last)]
  {
    hide SingleLine, Opened, Join, Encloses, IsInstruction, IsEnd, Tame, LinesOf, Text;
    SingleLineIsTame(Join(["END", kind, id, name]));
    LinesOfText(w.lines + [SingleLine(Join(["END", kind, id, name]))]);
    BlockOf(w.lines, Join([kind, id, name]), Join(["END", kind, id, name]));
    IsNamed(kind, id, name);
    FlushLine(["END", kind, id, name]);
    w.Line(0, ["END", kind, id, name]);
    text := w.text;
  }

  // ---- reading a block back -------------------------------------------------------------------

  /** The indented lines right after the first line that is this heading. */
  function Under(lines: seq<string>, heading: string): Option<seq<string>> {
    if |lines| == 0 then None
    else if lines[0] == heading then Some(IndentedFront(lines[1..]))
    else Under(lines[1..], heading)
  }

  function IndentedFront(lines: seq<string>): seq<string> {
    if |lines| > 0 && Indented(lines[0]) then [lines[0]] + IndentedFront(lines[1..]) else []
  }

  predicate AllIndented(lines: seq<string>) {
    forall i :: 0 <= i < |lines| ==> Indented(lines[i])
  }

  /** A line at column 0, starting with this letter, and what is indented under it. */
  predicate IsPart(part: seq<string>, c: char) {
    |part| > 0 && |part[0]| > 0 && part[0][0] == c && c != ' ' && AllIndented(part[1..])
  }

  predicate AllParts(parts: seq<seq<string>>, letters: string) {
    |letters| == |parts| && forall i :: 0 <= i < |parts| ==> IsPart(parts[i], letters[i])
  }

  lemma BothAllParts(a: seq<seq<string>>, x: string, b: seq<seq<string>>, y: string)
    requires AllParts(a, x) && AllParts(b, y)
    ensures AllParts(a + b, x + y)
  {
    hide IsPart;
  }

  function Flat(parts: seq<seq<string>>): seq<string> {
    if |parts| == 0 then [] else parts[0] + Flat(parts[1..])
  }

  lemma Grouped(a: seq<string>, b: seq<string>, c: seq<string>)
    ensures a + b + c == a + (b + c)
  {}

  lemma {:induction false} FlatOfBoth(a: seq<seq<string>>, b: seq<seq<string>>)
    ensures Flat(a + b) == Flat(a) + Flat(b)
  {
    if |a| == 0 {
      assert a + b == b;
    } else {
      FlatOfBoth(a[1..], b);
      assert (a + b)[0] == a[0] && (a + b)[1..] == a[1..] + b;
      Grouped(a[0], Flat(a[1..]), Flat(b));
    }
  }

  lemma {:induction false} FrontOf(body: seq<string>, rest: seq<string>)
    requires AllIndented(body) && (|rest| > 0 ==> !Indented(rest[0]))
    ensures IndentedFront(body + rest) == body
  {
    if |body| == 0 {
      assert body + rest == rest;
    } else {
      FrontOf(body[1..], rest);
      assert (body + rest)[1..] == body[1..] + rest;
    }
  }

  /** Lines that do not start as the heading does are passed over. */
  lemma {:induction false} UnderLater(part: seq<string>, rest: seq<string>, heading: string)
    requires |heading| > 0 && forall i :: 0 <= i < |part| ==> |part[i]| > 0 && part[i][0] != heading[0]
    ensures Under(part + rest, heading) == Under(rest, heading)
  {
    if |part| == 0 {
      assert part + rest == rest;
    } else {
      UnderLater(part[1..], rest, heading);
      assert (part + rest)[1..] == part[1..] + rest;
    }
  }

  lemma OtherPart(part: seq<string>, rest: seq<string>, c: char, heading: string)
    requires IsPart(part, c) && |heading| > 0 && heading[0] != c && heading[0] != ' '
    ensures Under(part + rest, heading) == Under(rest, heading)
  {
    forall i | 0 <= i < |part|
      ensures |part[i]| > 0 && part[i][0] != heading[0]
    {
      assert i > 0 ==> part[i] == part[1..][i - 1];
    }
    UnderLater(part, rest, heading);
  }

  lemma FirstPart(part: seq<string>, c: char, rest: seq<string>)
    requires IsPart(part, c) && (|rest| > 0 ==> !Indented(rest[0]))
    ensures |part| > 0 && Under(part + rest, part[0]) == Some(part[1..])
  {
    assert (part + rest)[0] == part[0] && (part + rest)[1..] == part[1..] + rest;
    FrontOf(part[1..], rest);
  }

  /** A part is found by its heading, if no part before it starts with the same letter. */
  lemma {:induction false} PartReadsBack(parts: seq<seq<string>>, letters: string, j: nat)
    requires AllParts(parts, letters) && j < |parts| && IsPart(parts[j], letters[j])
    requires forall i :: 0 <= i < j ==> letters[i] != letters[j]
    ensures Under(Flat(parts), parts[j][0]) == Some(parts[j][1..])
  {
    var first, rest := parts[0], parts[1..];
    if j == 0 {
      if |rest| > 0 {
        PartIsNotIndented(rest[0], letters[1], Flat(rest[1..]));
      }
      FirstPart(first, letters[0], Flat(rest));
    } else {
      PartReadsBack(rest, letters[1..], j - 1);
      OtherPart(first, Flat(rest), letters[0], parts[j][0]);
    }
  }

  lemma FlatOfThree(a: seq<string>, b: seq<string>, c: seq<string>)
    ensures Flat([a, b, c]) == a + b + c && Flat([a, b]) == a + b && Flat([a]) == a
  {
    assert [a][1..] == [] && [a, b, c][1..] == [b, c] && [b, c][1..] == [c] && [c][1..] == [] && [a, b][1..] == [b] && [b][1..] == [];
    assert Flat([c]) == c && Flat([b]) == b && Flat([b, c]) == b + c;
    assert a + (b + c) == a + b + c;
  }

  lemma HeadedIsPart(head: string, body: seq<string>, c: char)
    requires |head| > 0 && head[0] == c && c != ' ' && AllIndented(body)
    ensures IsPart([head] + body, c) && ([head] + body)[0] == head && ([head] + body)[1..] == body
  {}

  lemma PartIsNotIndented(part: seq<string>, c: char, rest: seq<string>)
    requires IsPart(part, c)
    ensures |part + rest| > 0 && !Indented((part + rest)[0])
  {}

  lemma OneLineIsPart(line: string)
    requires |line| > 0 && line[0] != ' '
    ensures IsPart([line], line[0])
  {}

  /** The second and the third part of a block that starts with this line. */
  lemma ReadsSecond(first: string, f: char, a: seq<string>, x: char, rest: seq<string>)
    requires IsPart([first], f) && IsPart(a, x) && f != x && |rest| > 0 && !Indented(rest[0])
    ensures |a| > 0 && Under([first] + (a + rest), a[0]) == Some(a[1..])
  {
    hide Under;
    FirstPart(a, x, rest);
    OtherPart([first], a + rest, f, a[0]);
  }

  lemma ReadsThird(first: string, f: char, a: seq<string>, x: char, b: seq<string>, y: char, rest: seq<string>)
    requires IsPart([first], f) && IsPart(a, x) && IsPart(b, y) && f != y && x != y && |rest| > 0 && !Indented(rest[0])
    ensures |b| > 0 && Under([first] + (a + (b + rest)), b[0]) == Some(b[1..])
  {
    hide Under;
    FirstPart(b, y, rest);
    OtherPart(a, b + rest, x, b[0]);
    OtherPart([first], a + (b + rest), f, b[0]);
  }

  lemma {:induction false} NoSuchPart(parts: seq<seq<string>>, letters: string, heading: string)
    requires AllParts(parts, letters) && |heading| > 0 && heading[0] != ' ' && heading[0] !in letters
    ensures Under(Flat(parts), heading).None?
  {
    if |parts| > 0 {
      NoSuchPart(parts[1..], letters[1..], heading);
      OtherPart(parts[0], Flat(parts[1..]), letters[0], heading);
    }
  }

  /** A line at column 0 starts as its first part does. */
  lemma HeadStarts(parts: seq<string>)
    requires |parts| > 0 && |parts[0]| > 0 && Tame(parts[0][0]) && parts[0][0] != TAB
    ensures |HeadLine(0, parts)| > 0 && HeadLine(0, parts)[0] == parts[0][0] && HeadLine(0, parts) == SingleLine(Join(parts))
  {
    hide SingleLine, Tame;
    var joined := Join(parts);
    assert joined[0] == parts[0][0] && joined == [joined[0]] + joined[1..];
    PlainHead(joined[0], joined[1..]);
    assert Spaces(0) + SingleLine(joined) == SingleLine(joined);
  }

  lemma NestedStarts(indent: nat, parts: seq<string>)
    requires indent > 0
    ensures Indented(HeadLine(indent, parts))
  {}

  /** Somewhere among the lines these stand, together and in order. */
  ghost predicate Shows(lines: seq<string>, part: seq<string>) {
    exists front, back :: Splits(lines, front, part, back)
  }

  predicate Splits(lines: seq<string>, front: seq<string>, part: seq<string>, back: seq<string>) {
    lines == front + part + back
  }

  lemma ShowsLater(lines: seq<string>, part: seq<string>, more: seq<string>)
    requires Shows(lines, part)
    ensures Shows(lines + more, part)
  {
    var front, back :| Splits(lines, front, part, back);
    assert Splits(lines + more, front, part, back + more);
  }

  lemma ShowsLast(lines: seq<string>, part: seq<string>)
    ensures Shows(lines + part, part)
  {
    assert Splits(lines + part, lines, part, []);
  }

  function FieldLines(indent: nat, name: string, body: string): seq<string> {
    [HeadLine(indent, [name + ":"])] + BodyLines(body, 2 * (indent + 1))
  }

  /** A source, its value as a body, and its status if it has one. */
  function SourceLines(indent: nat, n: nat, c: Context): seq<string> {
    [HeadLine(indent + 1, ["[" + Decimal(n + 1) + "]", c.source, "(" + Decimal(c.bytes) + " bytes)"])]
    + BodyLines(c.value, 2 * (indent + 2))
    + if c.status != "" then [HeadLine(indent + 1, ["(" + c.status + ")"])] else []
  }

  function ContextLines(indent: nat, context: seq<Context>): seq<string> {
    if |context| == 0 then []
    else
      var n := |context| - 1;
      ContextLines(indent, context[..n]) + SourceLines(indent, n, context[n])
  }

  /** Every source is shown, under its number, with its value and status. */
  lemma {:induction false} EverySourceIsShown(indent: nat, context: seq<Context>, i: nat)
    requires i < |context|
    ensures var c := context[i];
            Shows(ContextLines(indent, context),
                  [HeadLine(indent + 1, ["[" + Decimal(i + 1) + "]", c.source, "(" + Decimal(c.bytes) + " bytes)"])]
                  + BodyLines(c.value, 2 * (indent + 2))
                  + if c.status != "" then [HeadLine(indent + 1, ["(" + c.status + ")"])] else [])
  {
    hide HeadLine, BodyLines, Decimal, Shows;
    var n := |context| - 1;
    if i == n {
      ShowsLast(ContextLines(indent, context[..n]), SourceLines(indent, n, context[n]));
    } else {
      EverySourceIsShown(indent, context[..n], i);
      var c := context[i];
      ShowsLater(ContextLines(indent, context[..n]),
                 [HeadLine(indent + 1, ["[" + Decimal(i + 1) + "]", c.source, "(" + Decimal(c.bytes) + " bytes)"])]
                 + BodyLines(c.value, 2 * (indent + 2))
                 + (if c.status != "" then [HeadLine(indent + 1, ["(" + c.status + ")"])] else []),
                 SourceLines(indent, n, context[n]));
    }
  }

  lemma {:induction false} ContextIsIndented(indent: nat, context: seq<Context>)
    ensures AllIndented(ContextLines(indent, context))
  {
    hide HeadLine, BodyLines, Decimal;
    if |context| > 0 {
      var n := |context| - 1;
      var c := context[n];
      ContextIsIndented(indent, context[..n]);
      NestedStarts(indent + 1, ["[" + Decimal(n + 1) + "]", c.source, "(" + Decimal(c.bytes) + " bytes)"]);
      NestedStarts(indent + 1, ["(" + c.status + ")"]);
      BodyIsIndented(c.value, 2 * (indent + 2));
    }
  }

  /** Every key to be returned is listed, in order. */
  lemma {:induction false} EveryKeyIsListed(indent: nat, writes: seq<(string, string)>)
    ensures var lines := WritesLines(indent, writes);
            |lines| == |writes| && AllIndented(lines)
            && forall i :: 0 <= i < |writes| ==> lines[i] == HeadLine(indent + 1, [writes[i].0 + ":", writes[i].1])
  {
    hide HeadLine;
    if |writes| > 0 {
      var n := |writes| - 1;
      EveryKeyIsListed(indent, writes[..n]);
      NestedStarts(indent + 1, [writes[n].0 + ":", writes[n].1]);
    }
  }

  function WritesLines(indent: nat, writes: seq<(string, string)>): seq<string> {
    if |writes| == 0 then []
    else
      var n := |writes| - 1;
      WritesLines(indent, writes[..n]) + [HeadLine(indent + 1, [writes[n].0 + ":", writes[n].1])]
  }

  const RETURNS := "return" + ": a JSON object with exactly these keys (key order does not matter)"

  const UNFINISHED := "a previous attempt on this step did not finish (a crash, or a person intervened after a block);"
                      + " inspect current state before acting."

  function PreviousName(attempt: nat): string
    requires attempt > 0
  {
    "previous attempt failed" + " (attempt " + Decimal(attempt - 1) + " of this step, postcondition output)"
  }

  /** What the step is and what it may look at. */
  function TaskLines(indent: nat, d: Dispatch): seq<string> {
    [HeadLine(indent, ["attempt:", Decimal(d.attempt) + " of " + Decimal(d.maxAttempts)])]
    + FieldLines(indent, "description", d.description)
    + if |d.context| == 0 then [HeadLine(indent, ["context:", "(none)"])]
      else [HeadLine(indent, ["context:"])] + ContextLines(indent, d.context)
  }

  /** What it must return and what happened before. */
  function ReturnLines(indent: nat, d: Dispatch): seq<string> {
    (if |d.writes| == 0 then [HeadLine(indent, ["return:", "(none)"])]
     else [HeadLine(indent, [RETURNS])] + WritesLines(indent, d.writes))
    + [HeadLine(indent, ["subagent_args:", d.subagentArgs])]
    + HistoryLines(indent, d)
  }

  function HistoryLines(indent: nat, d: Dispatch): seq<string> {
    (if d.attempt >= 2 then FieldLines(indent, PreviousName(d.attempt), d.previousFailure) else [])
    + (if d.interrupted then FieldLines(indent, "interrupted", UNFINISHED) else [])
  }

  /** Everything a dispatch has to say, in order. */
  function DispatchBody(indent: nat, d: Dispatch): seq<string> {
    TaskLines(indent, d) + ReturnLines(indent, d)
  }

  function ContextPart(d: Dispatch): seq<string> {
    if |d.context| == 0 then [HeadLine(0, ["context:", "(none)"])]
    else [HeadLine(0, ["context:"])] + ContextLines(0, d.context)
  }

  function ReturnPart(d: Dispatch): seq<string> {
    if |d.writes| == 0 then [HeadLine(0, ["return:", "(none)"])] else [HeadLine(0, [RETURNS])] + WritesLines(0, d.writes)
  }

  /** The parts of a dispatch's block that are always there. */
  function FixedParts(d: Dispatch, first: string): seq<seq<string>> {
    [[first], [HeadLine(0, ["attempt:", Decimal(d.attempt) + " of " + Decimal(d.maxAttempts)])],
     FieldLines(0, "description", d.description), ContextPart(d), ReturnPart(d),
     [HeadLine(0, ["subagent_args:", d.subagentArgs])]]
  }

  function HistoryParts(d: Dispatch): seq<seq<string>> {
    (if d.attempt >= 2 then [FieldLines(0, PreviousName(d.attempt), d.previousFailure)] else [])
    + (if d.interrupted then [FieldLines(0, "interrupted", UNFINISHED)] else [])
  }

  function DispatchParts(d: Dispatch, first: string, help: string, last: string): seq<seq<string>> {
    FixedParts(d, first) + (HistoryParts(d) + [[help], [last]])
  }

  const FIXED_LETTERS := "Dadcrs"

  function HistoryLetters(d: Dispatch): string {
    (if d.attempt >= 2 then "p" else "") + (if d.interrupted then "i" else "")
  }

  function PartLetters(d: Dispatch): string {
    FIXED_LETTERS + (HistoryLetters(d) + "sE")
  }

  /** Only the letter s begins two of the parts. */
  lemma LettersDiffer(d: Dispatch)
    ensures var letters := PartLetters(d);
            |letters| >= 8 && (forall i, j :: 0 <= i < j < |letters| && letters[i] == letters[j] ==> letters[j] == 's')
            && letters[2] == 'd' && letters[3] == 'c' && letters[4] == 'r'
            && (d.attempt >= 2 ==> letters[6] == 'p')
            && (if d.interrupted then letters[if d.attempt >= 2 then 7 else 6] == 'i' else 'i' !in letters)
  {}

  lemma PartsInOrder(d: Dispatch, first: string, help: string, last: string)
    ensures [first] + DispatchBody(0, d) + [help] + [last] == Flat(DispatchParts(d, first, help, last))
  {
    hide HeadLine, FieldLines, ContextLines, WritesLines, Decimal;
    var fixed, history := FixedParts(d, first), HistoryParts(d);
    FlatOfBoth(fixed, history + [[help], [last]]);
    FlatOfBoth(history, [[help], [last]]);
    assert Flat(history) == HistoryLines(0, d);
    FlatOfThree([help], [last], []);
    assert [help] + [last] + [] == [help] + [last];
    FixedInOrder(d, first);
  }

  lemma FixedInOrder(d: Dispatch, first: string)
    ensures Flat(FixedParts(d, first)) + HistoryLines(0, d) == [first] + DispatchBody(0, d)
  {
    hide HeadLine, FieldLines, ContextLines, WritesLines, Decimal, HistoryLines, Flat;
    var parts := FixedParts(d, first);
    FlatOfBoth(parts[..3], parts[3..]);
    assert parts[..3] + parts[3..] == parts;
    FlatOfThree(parts[0], parts[1], parts[2]);
    FlatOfThree(parts[3], parts[4], parts[5]);
    assert parts[..3] == [parts[0], parts[1], parts[2]] && parts[3..] == [parts[3], parts[4], parts[5]];
    assert TaskLines(0, d) == parts[1] + parts[2] + parts[3];
    assert ReturnLines(0, d) == parts[4] + parts[5] + HistoryLines(0, d);
  }

  lemma FieldIsPart(name: string, body: string)
    requires |name| > 0 && 'a' <= name[0] <= 'z'
    ensures IsPart(FieldLines(0, name, body), name[0])
    ensures FieldLines(0, name, body)[0] == HeadLine(0, [name + ":"]) && FieldLines(0, name, body)[1..] == BodyLines(body, 2)
  {
    hide HeadLine, BodyLines, IsPart;
    HeadStarts([name + ":"]);
    BodyIsIndented(body, 2);
    HeadedIsPart(HeadLine(0, [name + ":"]), BodyLines(body, 2), name[0]);
  }

  lemma ContextIsPart(d: Dispatch)
    ensures IsPart(ContextPart(d), 'c')
    ensures |d.context| > 0 ==>
              ContextPart(d)[0] == HeadLine(0, ["context:"]) && ContextPart(d)[1..] == ContextLines(0, d.context)
  {
    hide HeadLine, ContextLines, IsPart;
    HeadStarts(["context:"]);
    LineIsPart(["context:", "(none)"]);
    ContextIsIndented(0, d.context);
    HeadedIsPart(HeadLine(0, ["context:"]), ContextLines(0, d.context), 'c');
  }

  lemma ReturnIsPart(d: Dispatch)
    ensures IsPart(ReturnPart(d), 'r')
    ensures |d.writes| > 0 ==>
              ReturnPart(d)[0] == HeadLine(0, [RETURNS]) && ReturnPart(d)[1..] == WritesLines(0, d.writes)
  {
    hide HeadLine, WritesLines, IsPart;
    HeadStarts([RETURNS]);
    LineIsPart(["return:", "(none)"]);
    EveryKeyIsListed(0, d.writes);
    HeadedIsPart(HeadLine(0, [RETURNS]), WritesLines(0, d.writes), 'r');
  }

  lemma LineIsPart(parts: seq<string>)
    requires |parts| > 0 && |parts[0]| > 0 && 'a' <= parts[0][0] <= 'z'
    ensures IsPart([HeadLine(0, parts)], parts[0][0])
  {
    hide HeadLine;
    HeadStarts(parts);
  }

  lemma PartsAreParts(d: Dispatch, first: string, help: string, last: string)
    requires |first| > 0 && first[0] == 'D' && |last| > 0 && last[0] == 'E' && |help| > 0 && help[0] == 's'
    ensures AllParts(DispatchParts(d, first, help, last), PartLetters(d))
  {
    hide FixedParts, HistoryParts, HistoryLetters, AllParts;
    FixedAreParts(d, first);
    HistoryAreParts(d);
    FootAreParts(help, last);
    BothAllParts(HistoryParts(d), HistoryLetters(d), [[help], [last]], "sE");
    BothAllParts(FixedParts(d, first), FIXED_LETTERS, HistoryParts(d) + [[help], [last]], HistoryLetters(d) + "sE");
  }

  lemma FootAreParts(help: string, last: string)
    requires |last| > 0 && last[0] == 'E' && |help| > 0 && help[0] == 's'
    ensures AllParts([[help], [last]], "sE")
  {}

  lemma FixedAreParts(d: Dispatch, first: string)
    requires |first| > 0 && first[0] == 'D'
    ensures AllParts(FixedParts(d, first), FIXED_LETTERS)
  {
    hide HeadLine, FieldLines, Decimal, ContextPart, ReturnPart, IsPart;
    OneLineIsPart(first);
    LineIsPart(["attempt:", Decimal(d.attempt) + " of " + Decimal(d.maxAttempts)]);
    LineIsPart(["subagent_args:", d.subagentArgs]);
    FieldIsPart("description", d.description);
    ContextIsPart(d);
    ReturnIsPart(d);
  }

  lemma HistoryAreParts(d: Dispatch)
    ensures AllParts(HistoryParts(d), HistoryLetters(d))
  {
    hide HeadLine, FieldLines, Decimal, IsPart;
    FieldIsPart("interrupted", UNFINISHED);
    if d.attempt >= 2 {
      FieldIsPart(PreviousName(d.attempt), d.previousFailure);
    }
  }

  /** The part at a position is found by its heading, unless that starts with an s. */
  lemma PartIsFound(d: Dispatch, first: string, help: string, last: string, j: nat)
    requires |first| > 0 && first[0] == 'D' && |last| > 0 && last[0] == 'E' && |help| > 0 && help[0] == 's'
    requires j < |DispatchParts(d, first, help, last)| == |PartLetters(d)| && PartLetters(d)[j] != 's'
    ensures var part := DispatchParts(d, first, help, last)[j];
            |part| > 0 && Under([first] + DispatchBody(0, d) + [help] + [last], part[0]) == Some(part[1..])
  {
    hide DispatchParts, PartLetters, DispatchBody, Under, Flat;
    var parts, letters := DispatchParts(d, first, help, last), PartLetters(d);
    PartsInOrder(d, first, help, last);
    PartsAreParts(d, first, help, last);
    LettersDiffer(d);
    assert IsPart(parts[j], letters[j]);
    PartReadsBack(parts, letters, j);
  }

  /** What the lines of a block say under each heading is what the dispatch holds: what it
      describes, its context, what it must return, what the attempt before failed with if
      this is a further one, and that it was interrupted if and only if it was. */
  ghost predicate Tells(lines: seq<string>, d: Dispatch) {
    && Under(lines, HeadLine(0, ["description:"])) == Some(BodyLines(d.description, 2))
    && (|d.context| > 0 ==> Under(lines, HeadLine(0, ["context:"])) == Some(ContextLines(0, d.context)))
    && (|d.writes| > 0 ==> Under(lines, HeadLine(0, [RETURNS])) == Some(WritesLines(0, d.writes)))
    && (d.attempt >= 2 ==>
          Under(lines, HeadLine(0, [PreviousName(d.attempt) + ":"])) == Some(BodyLines(d.previousFailure, 2)))
    && Under(lines, HeadLine(0, ["interrupted:"])) == (if d.interrupted then Some(BodyLines(UNFINISHED, 2)) else None)
  }

  /** A dispatch can be read back from the lines of its block. */
  lemma DispatchReadsBack(d: Dispatch, first: string, help: string, last: string)
    requires |first| > 0 && first[0] == 'D' && |last| > 0 && last[0] == 'E' && |help| > 0 && help[0] == 's'
    ensures Tells([first] + DispatchBody(0, d) + [help] + [last], d)
  {
    hide HeadLine, BodyLines, Decimal, Under, Flat, IsPart, FieldLines, ContextPart, ReturnPart, DispatchBody, PartLetters;
    var parts := DispatchParts(d, first, help, last);
    PartsAreParts(d, first, help, last);
    LettersDiffer(d);
    FieldIsPart("description", d.description);
    FieldIsPart("interrupted", UNFINISHED);
    assert "description" + ":" == "description:" && "interrupted" + ":" == "interrupted:";
    ContextIsPart(d);
    ReturnIsPart(d);
    PartIsFound(d, first, help, last, 2);
    PartIsFound(d, first, help, last, 3);
    PartIsFound(d, first, help, last, 4);
    if d.attempt >= 2 {
      FieldIsPart(PreviousName(d.attempt), d.previousFailure);
      PartIsFound(d, first, help, last, 6);
    }
    if d.interrupted {
      PartIsFound(d, first, help, last, if d.attempt >= 2 then 7 else 6);
    } else {
      HeadStarts(["interrupted:"]);
      PartsInOrder(d, first, help, last);
      NoSuchPart(parts, PartLetters(d), HeadLine(0, ["interrupted:"]));
    }
  }

  /** The body a dispatch has on its own and inside a group's block. */
  method WriteDispatchBody(w: BlockWriter, ghost first: string, indent: nat, d: Dispatch)
    requires w.Valid() && Opened(w.lines, first)
    modifies w
    ensures w.Valid() && Opened(w.lines, first) && w.lines == old(w.lines) + DispatchBody(indent, d)
  {
    hide Opened, TaskLines, ReturnLines;
    WriteTask(w, first, indent, d);
    WriteRest(w, first, indent, d);
  }

  method WriteTask(w: BlockWriter, ghost first: string, indent: nat, d: Dispatch)
    requires w.Valid() && Opened(w.lines, first)
    modifies w
    ensures w.Valid() && Opened(w.lines, first) && w.lines == old(w.lines) + TaskLines(indent, d)
  {
    hide Opened, HeadLine, FieldLines, ContextLines, Decimal;
    WriteLine(w, first, indent, ["attempt:", Decimal(d.attempt) + " of " + Decimal(d.maxAttempts)]);
    WriteField(w, first, indent, "description", d.description);
    WriteContext(w, first, indent, d.context);
  }

  method WriteRest(w: BlockWriter, ghost first: string, indent: nat, d: Dispatch)
    requires w.Valid() && Opened(w.lines, first)
    modifies w
    ensures w.Valid() && Opened(w.lines, first) && w.lines == old(w.lines) + ReturnLines(indent, d)
  {
    hide Opened, HeadLine, FieldLines, WritesLines, Decimal;
    hide HistoryLines;
    WriteReturn(w, first, indent, d.writes);
    WriteLine(w, first, indent, ["subagent_args:", d.subagentArgs]);
    WriteHistory(w, first, indent, d);
  }

  method WriteHistory(w: BlockWriter, ghost first: string, indent: nat, d: Dispatch)
    requires w.Valid() && Opened(w.lines, first)
    modifies w
    ensures w.Valid() && Opened(w.lines, first) && w.lines == old(w.lines) + HistoryLines(indent, d)
  {
    hide Opened, FieldLines, Decimal;
    if d.attempt >= 2 {
      WriteField(w, first, indent, PreviousName(d.attempt), d.previousFailure);
    }
    if d.interrupted {
      WriteField(w, first, indent, "interrupted", UNFINISHED);
    }
  }

  method WriteContext(w: BlockWriter, ghost first: string, indent: nat, context: seq<Context>)
    requires w.Valid() && Opened(w.lines, first)
    modifies w
    ensures w.Valid() && Opened(w.lines, first)
    ensures w.lines == old(w.lines)
              + if |context| == 0 then [HeadLine(indent, ["context:", "(none)"])]
                else [HeadLine(indent, ["context:"])] + ContextLines(indent, context)
  {
    hide Opened, HeadLine, BodyLines, Decimal;
    if |context| == 0 {
      WriteLine(w, first, indent, ["context:", "(none)"]);
      return;
    }
    WriteLine(w, first, indent, ["context:"]);
    ghost var before := w.lines;
    var i := 0;
    while i < |context|
      invariant 0 <= i <= |context| && w.Valid() && Opened(w.lines, first)
      invariant w.lines == before + ContextLines(indent, context[..i])
    {
      WriteSource(w, first, indent, i, context[i]);
      assert context[..i + 1][..i] == context[..i];
      i := i + 1;
    }
    assert context[..i] == context;
  }

  method WriteSource(w: BlockWriter, ghost first: string, indent: nat, n: nat, c: Context)
    requires w.Valid() && Opened(w.lines, first)
    modifies w
    ensures w.Valid() && Opened(w.lines, first) && w.lines == old(w.lines) + SourceLines(indent, n, c)
  {
    hide Opened, HeadLine, BodyLines, Decimal;
    WriteLine(w, first, indent + 1, ["[" + Decimal(n + 1) + "]", c.source, "(" + Decimal(c.bytes) + " bytes)"]);
    WriteBody(w, first, indent + 1, c.value);
    if c.status != "" {
      WriteLine(w, first, indent + 1, ["(" + c.status + ")"]);
    }
  }

  method WriteReturn(w: BlockWriter, ghost first: string, indent: nat, writes: seq<(string, string)>)
    requires w.Valid() && Opened(w.lines, first)
    modifies w
    ensures w.Valid() && Opened(w.lines, first)
    ensures w.lines == old(w.lines)
              + if |writes| == 0 then [HeadLine(indent, ["return:", "(none)"])]
                else [HeadLine(indent, [RETURNS])] + WritesLines(indent, writes)
  {
    hide Opened, HeadLine;
    if |writes| == 0 {
      WriteLine(w, first, indent, ["return:", "(none)"]);
      return;
    }
    WriteLine(w, first, indent, [RETURNS]);
    ghost var before := w.lines;
    var i := 0;
    while i < |writes|
      invariant 0 <= i <= |writes| && w.Valid() && Opened(w.lines, first)
      invariant w.lines == before + WritesLines(indent, writes[..i])
    {
      WriteLine(w, first, indent + 1, [writes[i].0 + ":", writes[i].1]);
      assert writes[..i + 1][..i] == writes[..i];
      i := i + 1;
    }
    assert writes[..i] == writes;
  }

  lemma BlockLetter(kind: string, id: string, name: string)
    requires kind in KINDS
    ensures var first, last := SingleLine(Join([kind, id, name])), SingleLine(Join(["END", kind, id, name]));
            |first| > 0 && first[0] == kind[0] && |last| > 0 && last[0] == 'E'
  {
    hide SingleLine, Join;
    assert [kind] + [id, name] == [kind, id, name] && ["END"] + [kind, id, name] == ["END", kind, id, name];
    OpensWithItsName(kind, [id, name]);
    OpensWithItsName("END", [kind, id, name]);
    var first, last := SingleLine(Join([kind, id, name])), SingleLine(Join(["END", kind, id, name]));
    assert first[..|kind|][0] == kind[0] && last[..3][0] == 'E';
  }

  function SubmitHelp(d: Dispatch, flag: string, pawl: string): string {
    pawl + " submit --run " + d.runId + " --step " + d.step + flag + " --json '<the object above>'"
  }

  /** A DISPATCH block: everything the dispatch has to say, and whatever its fields
      hold, one block. `pawl` is how the command is spelled. */
  method FormatDispatch(d: Dispatch, pawl: string) returns (text: string)
    ensures IsBlock(text, Join(["DISPATCH", d.runId, d.step]), Join(["END", "DISPATCH", d.runId, d.step]))
    ensures text == Text([SingleLine(Join(["DISPATCH", d.runId, d.step]))] + DispatchBody(0, d)
                         + [HeadLine(0, ["submit with:", SubmitHelp(d, "", pawl)])]
                         + [SingleLine(Join(["END", "DISPATCH", d.runId, d.step]))])
    ensures Tells(LinesOf(text, ""), d)
  {
    hide Opened, IsBlock, Join, HeadLine, DispatchBody, SubmitHelp, SingleLine, Tells, LinesOf, Text;
    BlockLetter("DISPATCH", d.runId, d.step);
    HeadStarts(["submit with:", SubmitHelp(d, "", pawl)]);
    DispatchReadsBack(d, SingleLine(Join(["DISPATCH", d.runId, d.step])), HeadLine(0, ["submit with:", SubmitHelp(d, "", pawl)]),
                      SingleLine(Join(["END", "DISPATCH", d.runId, d.step])));
    ghost var first := Join(["DISPATCH", d.runId, d.step]);
    var w := Open(["DISPATCH", d.runId, d.step]);
    WriteDispatchBody(w, first, 0, d);
    WriteLine(w, first, 0, ["submit with:", SubmitHelp(d, "", pawl)]);
    text := Close(w, "DISPATCH", d.runId, d.step);
  }

  /** How a member is named inside its group's block, and how its submit says so. */
  function MemberName(d: Dispatch): string {
    if d.item.Some? then d.step + "[" + Decimal(d.item.value) + "]" else d.step
  }

  function ItemFlag(d: Dispatch): string {
    if d.item.Some? then " --item " + Decimal(d.item.value) else ""
  }

  /** A member's own block, one level in. */
  function MemberLines(d: Dispatch, pawl: string): seq<string> {
    [HeadLine(1, ["DISPATCH", d.runId, MemberName(d)])] + DispatchBody(1, d)
    + [HeadLine(1, ["submit with:", SubmitHelp(d, ItemFlag(d), pawl)])]
    + [HeadLine(1, ["END", "DISPATCH", d.runId, MemberName(d)])]
  }

  function MembersLines(members: seq<Dispatch>, pawl: string): seq<string> {
    if |members| == 0 then []
    else MembersLines(members[..|members| - 1], pawl) + MemberLines(members[|members| - 1], pawl)
  }

  /** Every member's block is shown whole. */
  lemma {:induction false} EveryMemberIsShown(members: seq<Dispatch>, i: nat, pawl: string)
    requires i < |members|
    ensures Shows(MembersLines(members, pawl),
                  [HeadLine(1, ["DISPATCH", members[i].runId, MemberName(members[i])])] + DispatchBody(1, members[i])
                  + [HeadLine(1, ["submit with:", SubmitHelp(members[i], ItemFlag(members[i]), pawl)])]
                  + [HeadLine(1, ["END", "DISPATCH", members[i].runId, MemberName(members[i])])])
  {
    hide HeadLine, DispatchBody, Shows, SubmitHelp;
    var n := |members| - 1;
    if i == n {
      ShowsLast(MembersLines(members[..n], pawl), MemberLines(members[n], pawl));
    } else {
      EveryMemberIsShown(members[..n], i, pawl);
      ShowsLater(MembersLines(members[..n], pawl), MemberLines(members[i], pawl), MemberLines(members[n], pawl));
    }
  }

  lemma OneMoreMember(members: seq<Dispatch>, i: nat, pawl: string)
    requires i < |members|
    ensures MembersLines(members[..i + 1], pawl) == MembersLines(members[..i], pawl) + MemberLines(members[i], pawl)
  {
    assert members[..i + 1][..i] == members[..i];
  }

  method WriteMember(w: BlockWriter, ghost first: string, d: Dispatch, pawl: string)
    requires w.Valid() && Opened(w.lines, first)
    modifies w
    ensures w.Valid() && Opened(w.lines, first) && w.lines == old(w.lines) + MemberLines(d, pawl)
  {
    hide Opened, Join, HeadLine, DispatchBody, SubmitHelp;
    WriteLine(w, first, 1, ["DISPATCH", d.runId, MemberName(d)]);
    WriteDispatchBody(w, first, 1, d);
    WriteLine(w, first, 1, ["submit with:", SubmitHelp(d, ItemFlag(d), pawl)]);
    WriteLine(w, first, 1, ["END", "DISPATCH", d.runId, MemberName(d)]);
  }

  /** A DISPATCH_PARALLEL block: the blocks of its members are nested in it, whole and
      in order but indented, so the group's own lines are the only ones at column 0
      that open or close. */
  method FormatDispatchParallel(runId: string, step: string, interrupted: bool, members: seq<Dispatch>, pawl: string)
    returns (text: string)
    ensures IsBlock(text, Join(["DISPATCH_PARALLEL", runId, step]), Join(["END", "DISPATCH_PARALLEL", runId, step]))
    ensures text == Text([SingleLine(Join(["DISPATCH_PARALLEL", runId, step]))]
                         + (if interrupted then FieldLines(0, "interrupted", UNFINISHED) else [])
                         + MembersLines(members, pawl)
                         + [SingleLine(Join(["END", "DISPATCH_PARALLEL", runId, step]))])
  {
    hide Opened, IsBlock, Join, MemberLines, FieldLines, SingleLine;
    ghost var first := Join(["DISPATCH_PARALLEL", runId, step]);
    var w := Open(["DISPATCH_PARALLEL", runId, step]);
    if interrupted {
      WriteField(w, first, 0, "interrupted", UNFINISHED);
    }
    ghost var begun := w.lines;
    var i := 0;
    while i < |members|
      invariant 0 <= i <= |members| && fresh(w) && w.Valid() && Opened(w.lines, first)
      invariant w.lines == begun + MembersLines(members[..i], pawl)
    {
      WriteMember(w, first, members[i], pawl);
      OneMoreMember(members, i, pawl);
      i := i + 1;
    }
    assert members[..i] == members;
    text := Close(w, "DISPATCH_PARALLEL", runId, step);
  }

  function OptionLines(options: seq<string>): seq<string> {
    if |options| == 0 then []
    else
      OptionLines(options[..|options| - 1]) + [HeadLine(1, ["[" + Decimal(|options|) + "]", options[|options| - 1]])]
  }

  /** Every option is listed under its number, in order. */
  lemma {:induction false} EveryOptionIsListed(options: seq<string>)
    ensures var lines := OptionLines(options);
            |lines| == |options| && AllIndented(lines)
            && forall i :: 0 <= i < |options| ==> lines[i] == HeadLine(1, ["[" + Decimal(i + 1) + "]", options[i]])
  {
    hide HeadLine, Decimal;
    if |options| > 0 {
      var n := |options| - 1;
      EveryOptionIsListed(options[..n]);
      NestedStarts(1, ["[" + Decimal(n + 1) + "]", options[n]]);
    }
  }

  lemma OneMoreOption(options: seq<string>, i: nat)
    requires i < |options|
    ensures OptionLines(options[..i + 1]) == OptionLines(options[..i]) + [HeadLine(1, ["[" + Decimal(i + 1) + "]", options[i]])]
  {
    assert options[..i + 1][..i] == options[..i];
  }

  const FREE_TEXT_ONLY := "(none \U{2014} free text only)"

  /** The options, numbered in order. */
  method WriteOptions(w: BlockWriter, ghost first: string, options: seq<string>)
    requires w.Valid() && Opened(w.lines, first)
    modifies w
    ensures w.Valid() && Opened(w.lines, first)
    ensures w.lines == old(w.lines)
              + if |options| == 0 then [HeadLine(0, ["options:", FREE_TEXT_ONLY])]
                else [HeadLine(0, ["options:"])] + OptionLines(options)
  {
    hide Opened, Join, HeadLine;
    if |options| == 0 {
      WriteLine(w, first, 0, ["options:", FREE_TEXT_ONLY]);
      return;
    }
    WriteLine(w, first, 0, ["options:"]);
    ghost var begun := w.lines;
    var i := 0;
    while i < |options|
      invariant 0 <= i <= |options| && w.Valid() && Opened(w.lines, first)
      invariant w.lines == begun + OptionLines(options[..i])
    {
      WriteLine(w, first, 1, ["[" + Decimal(i + 1) + "]", options[i]]);
      OneMoreOption(options, i);
      i := i + 1;
    }
    assert options[..i] == options;
  }

  /** How a question is answered: a label of the options, free text, or both. */
  function AnswerHelp(options: nat, multi: bool, submit: string): seq<string> {
    if multi then
      [HeadLine(0, ["submit with:", submit + "'{\"selected\": [\"<option label>\"], \"other\": \"<free text, if any>\"}'"])]
    else if options == 0 then [HeadLine(0, ["submit with:", submit + "'{\"other\": \"<free text>\"}'"])]
    else
      [HeadLine(0, ["submit with:", submit + "'{\"selected\": [\"<option label>\"]}'"]),
       HeadLine(0, ["or:", submit + "'{\"other\": \"<free text>\"}'"])]
  }

  method WriteAnswerHelp(w: BlockWriter, ghost first: string, options: nat, multi: bool, submit: string)
    requires w.Valid() && Opened(w.lines, first)
    modifies w
    ensures w.Valid() && Opened(w.lines, first) && w.lines == old(w.lines) + AnswerHelp(options, multi, submit)
  {
    hide Opened, Join, HeadLine;
    if multi {
      WriteLine(w, first, 0, ["submit with:", submit + "'{\"selected\": [\"<option label>\"], \"other\": \"<free text, if any>\"}'"]);
    } else if options == 0 {
      WriteLine(w, first, 0, ["submit with:", submit + "'{\"other\": \"<free text>\"}'"]);
    } else {
      WriteLine(w, first, 0, ["submit with:", submit + "'{\"selected\": [\"<option label>\"]}'"]);
      WriteLine(w, first, 0, ["or:", submit + "'{\"other\": \"<free text>\"}'"]);
    }
  }

  /** An ASK block: the question, the options in order and how to answer. */
  method FormatAsk(runId: string, step: string, question: string, options: seq<string>, multi: bool, pawl: string)
    returns (text: string)
    ensures IsBlock(text, Join(["ASK", runId, step]), Join(["END", "ASK", runId, step]))
    ensures text == Text([SingleLine(Join(["ASK", runId, step]))] + FieldLines(0, "question", question)
                         + (if |options| == 0 then [HeadLine(0, ["options:", FREE_TEXT_ONLY])]
                            else [HeadLine(0, ["options:"])] + OptionLines(options))
                         + [HeadLine(0, ["multi:", if multi then "true" else "false"])]
                         + AnswerHelp(|options|, multi, pawl + " submit --run " + runId + " --step " + step + " --json ")
                         + [SingleLine(Join(["END", "ASK", runId, step]))])
    ensures Under(LinesOf(text, ""), HeadLine(0, ["question:"])) == Some(BodyLines(question, 2))
    ensures |options| > 0 ==> Under(LinesOf(text, ""), HeadLine(0, ["options:"])) == Some(OptionLines(options))
  {
    hide Opened, IsBlock, Join, HeadLine, SingleLine, FieldLines, BodyLines, OptionLines, AnswerHelp, LinesOf, Text, Under;
    ghost var first := Join(["ASK", runId, step]);
    var w := Open(["ASK", runId, step]);
    WriteField(w, first, 0, "question", question);
    WriteOptions(w, first, options);
    WriteLine(w, first, 0, ["multi:", if multi then "true" else "false"]);
    WriteAnswerHelp(w, first, |options|, multi, pawl + " submit --run " + runId + " --step " + step + " --json ");
    BlockLetter("ASK", runId, step);
    AskReadsBack(SingleLine(first), question, options, multi,
                 AnswerHelp(|options|, multi, pawl + " submit --run " + runId + " --step " + step + " --json ")
                 + [SingleLine(Join(["END", "ASK", runId, step]))]);
    text := Close(w, "ASK", runId, step);
    assert LinesOf(text, "")
           == [SingleLine(first)] + FieldLines(0, "question", question) + OptionPart(options)
              + [HeadLine(0, ["multi:", if multi then "true" else "false"])]
              + (AnswerHelp(|options|, multi, pawl + " submit --run " + runId + " --step " + step + " --json ")
                 + [SingleLine(Join(["END", "ASK", runId, step]))]);
  }

  function OptionPart(options: seq<string>): seq<string> {
    if |options| == 0 then [HeadLine(0, ["options:", FREE_TEXT_ONLY])] else [HeadLine(0, ["options:"])] + OptionLines(options)
  }

  /** A question can be read back from its block, and so can its options. */
  lemma AskReadsBack(first: string, question: string, options: seq<string>, multi: bool, rest: seq<string>)
    requires |first| > 0 && first[0] == 'A'
    ensures var lines := [first] + FieldLines(0, "question", question) + OptionPart(options)
                         + [HeadLine(0, ["multi:", if multi then "true" else "false"])] + rest;
            && Under(lines, HeadLine(0, ["question:"])) == Some(BodyLines(question, 2))
            && (|options| > 0 ==> Under(lines, HeadLine(0, ["options:"])) == Some(OptionLines(options)))
  {
    hide HeadLine, BodyLines, OptionLines, Under, FieldLines, OptionPart, IsPart;
    FieldIsPart("question", question);
    assert "question" + ":" == "question:";
    var multiLine := [HeadLine(0, ["multi:", if multi then "true" else "false"])];
    LineIsPart(["multi:", if multi then "true" else "false"]);
    PartIsNotIndented(multiLine, 'm', rest);
    OptionsArePart(options);
    OneLineIsPart(first);
    var asked, listed := FieldLines(0, "question", question), OptionPart(options);
    PartIsNotIndented(listed, 'o', multiLine + rest);
    ReadsSecond(first, 'A', asked, 'q', listed + (multiLine + rest));
    ReadsThird(first, 'A', asked, 'q', listed, 'o', multiLine + rest);
    assert [first] + asked + listed + multiLine + rest == [first] + (asked + (listed + (multiLine + rest)));
  }

  lemma OptionsArePart(options: seq<string>)
    ensures IsPart(OptionPart(options), 'o')
    ensures |options| > 0 ==>
              OptionPart(options)[0] == HeadLine(0, ["options:"]) && OptionPart(options)[1..] == OptionLines(options)
  {
    hide HeadLine, OptionLines, IsPart;
    HeadStarts(["options:"]);
    LineIsPart(["options:", FREE_TEXT_ONLY]);
    EveryOptionIsListed(options);
    HeadedIsPart(HeadLine(0, ["options:"]), OptionLines(options), 'o');
  }

  /** A WAIT block. */
  method FormatWait(runId: string, step: string, every: string, timeout: string, pawl: string) returns (text: string)
    ensures IsBlock(text, Join(["WAIT", runId, step]), Join(["END", "WAIT", runId, step]))
    ensures text == Text([SingleLine(Join(["WAIT", runId, step]))] + [HeadLine(0, ["every:", every])]
                         + [HeadLine(0, ["timeout:", timeout])]
                         + [HeadLine(0, ["poll with:", pawl + " poll --run " + runId + " --step " + step])]
                         + [SingleLine(Join(["END", "WAIT", runId, step]))])
  {
    hide Opened, IsBlock, Join, HeadLine, SingleLine;
    ghost var first := Join(["WAIT", runId, step]);
    var w := Open(["WAIT", runId, step]);
    WriteLine(w, first, 0, ["every:", every]);
    WriteLine(w, first, 0, ["timeout:", timeout]);
    WriteLine(w, first, 0, ["poll with:", pawl + " poll --run " + runId + " --step " + step]);
    text := Close(w, "WAIT", runId, step);
  }

  /** The two ways out of a blocked run. */
  function WaysOut(status: string, hint: Option<(string, string)>, abandon: string): seq<string> {
    if status != "blocked" then []
    else (if hint.Some? then FieldLines(0, hint.value.0, hint.value.1) else []) + FieldLines(0, "abandon", abandon)
  }

  method WriteWaysOut(w: BlockWriter, ghost first: string, status: string, hint: Option<(string, string)>, abandon: string)
    requires w.Valid() && Opened(w.lines, first)
    requires hint.Some? ==> |hint.value.0| > 0 && 'a' <= hint.value.0[0] <= 'z'
    modifies w
    ensures w.Valid() && Opened(w.lines, first) && w.lines == old(w.lines) + WaysOut(status, hint, abandon)
  {
    hide Opened, FieldLines;
    if status == "blocked" {
      if hint.Some? {
        WriteField(w, first, 0, hint.value.0, hint.value.1);
      }
      WriteField(w, first, 0, "abandon", abandon);
    }
  }

  /** A TERMINAL block; `hint` is the way to resume a blocked run, under a label of
      this program's own. */
  method FormatTerminal(runId: string, status: string, message: string, detail: string,
                        hint: Option<(string, string)>, abandon: string)
    returns (text: string)
    requires hint.Some? ==> |hint.value.0| > 0 && 'a' <= hint.value.0[0] <= 'z'
    ensures IsBlock(text, Join(["TERMINAL", runId, status]), Join(["END", "TERMINAL", runId, status]))
    ensures text == Text([SingleLine(Join(["TERMINAL", runId, status]))] + FieldLines(0, "message", message)
                         + (if detail != "" then FieldLines(0, "blocked_reason", detail) else [])
                         + WaysOut(status, hint, abandon)
                         + [SingleLine(Join(["END", "TERMINAL", runId, status]))])
    ensures Under(LinesOf(text, ""), HeadLine(0, ["message:"])) == Some(BodyLines(message, 2))
    ensures detail != "" ==> Under(LinesOf(text, ""), HeadLine(0, ["blocked_reason:"])) == Some(BodyLines(detail, 2))
    ensures status == "blocked" ==> Shows(LinesOf(text, ""), FieldLines(0, "abandon", abandon))
  {
    hide Opened, IsBlock, Join, SingleLine, FieldLines, WaysOut, BodyLines, HeadLine, Under, LinesOf, Text, Shows;
    ghost var first := Join(["TERMINAL", runId, status]);
    var w := Open(["TERMINAL", runId, status]);
    WriteField(w, first, 0, "message", message);
    if detail != "" {
      WriteField(w, first, 0, "blocked_reason", detail);
    }
    ghost var begun := w.lines;
    assert begun == [SingleLine(Join(["TERMINAL", runId, status]))] + FieldLines(0, "message", message)
                    + (if detail != "" then FieldLines(0, "blocked_reason", detail) else []);
    WriteWaysOut(w, first, status, hint, abandon);
    BlockLetter("TERMINAL", runId, status);
    EndReadsBack(SingleLine(first), message, detail, status, hint, abandon, SingleLine(Join(["END", "TERMINAL", runId, status])));
    text := Close(w, "TERMINAL", runId, status);
  }

  lemma TailIsNotIndented(status: string, hint: Option<(string, string)>, abandon: string, last: string)
    requires |last| > 0 && last[0] == 'E' && (hint.Some? ==> |hint.value.0| > 0 && 'a' <= hint.value.0[0] <= 'z')
    ensures var tail := WaysOut(status, hint, abandon) + [last]; |tail| > 0 && !Indented(tail[0])
  {
    hide HeadLine, FieldLines, BodyLines;
    FieldIsPart("abandon", abandon);
    if hint.Some? {
      FieldIsPart(hint.value.0, hint.value.1);
    }
  }

  /** An end can be read back: its message, why the run is blocked, and how to abandon it. */
  lemma EndReadsBack(first: string, message: string, detail: string, status: string, hint: Option<(string, string)>,
                     abandon: string, last: string)
    requires |first| > 0 && first[0] == 'T' && |last| > 0 && last[0] == 'E'
    requires hint.Some? ==> |hint.value.0| > 0 && 'a' <= hint.value.0[0] <= 'z'
    ensures var lines := [first] + FieldLines(0, "message", message)
                         + (if detail != "" then FieldLines(0, "blocked_reason", detail) else [])
                         + WaysOut(status, hint, abandon) + [last];
            && Under(lines, HeadLine(0, ["message:"])) == Some(BodyLines(message, 2))
            && (detail != "" ==> Under(lines, HeadLine(0, ["blocked_reason:"])) == Some(BodyLines(detail, 2)))
            && (status == "blocked" ==> Shows(lines, FieldLines(0, "abandon", abandon)))
  {
    hide HeadLine, BodyLines, Under, FieldLines, Shows, IsPart;
    FieldIsPart("message", message);
    FieldIsPart("blocked_reason", detail);
    assert "message" + ":" == "message:" && "blocked_reason" + ":" == "blocked_reason:";
    OneLineIsPart(first);
    TailIsNotIndented(status, hint, abandon, last);
    var said, why := FieldLines(0, "message", message), FieldLines(0, "blocked_reason", detail);
    var tail := WaysOut(status, hint, abandon) + [last];
    var before := [first] + said + if detail != "" then why else [];
    if detail != "" {
      PartIsNotIndented(why, 'b', tail);
      ReadsSecond(first, 'T', said, 'm', why + tail);
      ReadsThird(first, 'T', said, 'm', why, 'b', tail);
      assert before + tail == [first] + (said + (why + tail));
    } else {
      ReadsSecond(first, 'T', said, 'm', tail);
      assert before + tail == [first] + (said + tail);
    }
    assert before + tail == before + WaysOut(status, hint, abandon) + [last];
    AbandonIsShown(before, status, hint, abandon, last);
  }

  lemma AbandonIsShown(before: seq<string>, status: string, hint: Option<(string, string)>, abandon: string, last: string)
    ensures status == "blocked" ==> Shows(before + WaysOut(status, hint, abandon) + [last], FieldLines(0, "abandon", abandon))
  {
    hide Shows, FieldLines;
    if status == "blocked" {
      var hinted := before + if hint.Some? then FieldLines(0, hint.value.0, hint.value.1) else [];
      ShowsLast(hinted, FieldLines(0, "abandon", abandon));
      ShowsLater(hinted + FieldLines(0, "abandon", abandon), FieldLines(0, "abandon", abandon), [last]);
      assert hinted + FieldLines(0, "abandon", abandon) == before + WaysOut(status, hint, abandon);
    }
  }
}
