/**
  The file under the journal (internal/journal/log.go, internal/journal/opaque.go):
  one record a line, appended whole or torn by a crash, and how every reader finds
  the records that were written completely. Text is a sequence of bytes.

  How a record is encoded is the JSON library's; all that is asked of it is
  `Lawful`.
 */
module JournalFile {
  import opened Wrappers
  import opened Journal
  import opened Protocol
  import opened Workflows
  import RunTheorems

  const LF := '\n'

  predicate IsSpace(c: char) {
    c == ' ' || c == '\t' || c == '\n' || c == '\r' || c == 11 as char || c == 12 as char
  }

  function TrimLeft(s: string): string {
    if |s| > 0 && IsSpace(s[0]) then TrimLeft(s[1..]) else s
  }

  function TrimRight(s: string): string {
    if |s| > 0 && IsSpace(s[|s| - 1]) then TrimRight(s[..|s| - 1]) else s
  }

  function Trim(s: string): string {
    TrimRight(TrimLeft(s))
  }

  /** What every format of the journal shares of an event. */
  datatype Shared = Shared(isStart: bool, isEnd: bool, status: string, seqNo: int, format: int)

  function SharedOf(r: Record): Shared {
    Shared(r.event.RunStart?, r.event.RunEnd?, if r.event.RunEnd? then r.event.status else "", r.seqNo,
           if r.event.RunStart? then r.event.format else 0)
  }

  /** The encoder and the two decoders: of whole records, and of their shared part. */
  datatype Codec = Codec(
    encode: Record -> string,
    decode: string -> Option<Record>,
    lenient: string -> Option<Shared>)

  /** A record is encoded on one line with nothing to trim, and decoding undoes
      encoding; the lenient decoder agrees with the strict one where that succeeds. */
  ghost predicate Lawful(c: Codec) {
    && (forall r :: |c.encode(r)| > 0 && LF !in c.encode(r)
                    && !IsSpace(c.encode(r)[0]) && !IsSpace(c.encode(r)[|c.encode(r)| - 1])
                    && c.decode(c.encode(r)) == Some(r))
    && (forall s :: c.decode(s).Some? ==> c.lenient(s) == Some(SharedOf(c.decode(s).value)))
  }

  // ---- lines --------------------------------------------------------------------------------

  /** The position of the first newline. */
  function FirstNewline(s: string): (r: Option<nat>)
    ensures r.Some? ==> r.value < |s| && s[r.value] == LF && LF !in s[..r.value]
    ensures r.None? ==> LF !in s
  {
    if |s| == 0 then None
    else if s[0] == LF then Some(0)
    else
      var rest := FirstNewline(s[1..]);
      if rest.None? then None
      else
        assert s[..rest.value + 1] == [s[0]] + s[1..][..rest.value];
        Some(rest.value + 1)
  }

  /** The length up to and including the last newline. */
  function CompleteLength(s: string): (n: nat)
    ensures n <= |s| && (n > 0 ==> s[n - 1] == LF) && LF !in s[n..]
  {
    if |s| == 0 || s[|s| - 1] == LF then |s|
    else
      var n := CompleteLength(s[..|s| - 1]);
      assert s[n..] == s[..|s| - 1][n..] + [s[|s| - 1]];
      n
  }

  lemma NewlineUnique(line: string, rest: string)
    requires LF !in line
    ensures FirstNewline(line + [LF] + rest) == Some(|line|)
  {
    var s := line + [LF] + rest;
    assert s[|line|] == LF && forall k :: 0 <= k < |line| ==> s[k] == line[k];
  }

  // ---- parsing ------------------------------------------------------------------------------

  datatype Parsed = Parsed(records: seq<Record>, validLen: nat)

  datatype ParseError = Corrupt(at: nat)

  function Shift(r: Result<Parsed, ParseError>, record: Option<Record>, offset: nat): Result<Parsed, ParseError> {
    match r
    case Failure(e) => Failure(Corrupt(e.at + offset))
    case Success(p) => Success(Parsed((if record.Some? then [record.value] else []) + p.records,
                                      p.validLen + offset))
  }

  /** Every newline-terminated line is a record or blank; a tail without a newline is
      torn and dropped, whatever it holds. */
  function ParseOf(c: Codec, data: string): Result<Parsed, ParseError>
    decreases |data|
  {
    var idx := FirstNewline(data);
    if idx.None? then Success(Parsed([], 0))
    else
      var line := Trim(data[..idx.value]);
      var rest := ParseOf(c, data[idx.value + 1..]);
      if line == "" then Shift(rest, None, idx.value + 1)
      else
        var record := c.decode(line);
        if record.None? then Failure(Corrupt(0)) else Shift(rest, record, idx.value + 1)
  }

  /** What one line adds to what the rest parses to. */
  function Line(c: Codec, line: string, rest: Result<Parsed, ParseError>): Result<Parsed, ParseError> {
    if Trim(line) == "" then Shift(rest, None, |line| + 1)
    else if c.decode(Trim(line)).None? then Failure(Corrupt(0))
    else Shift(rest, c.decode(Trim(line)), |line| + 1)
  }

  lemma ParseLine(c: Codec, line: string, rest: string)
    requires LF !in line
    ensures ParseOf(c, line + [LF] + rest) == Line(c, line, ParseOf(c, rest))
  {
    hide Trim;
    var data := line + [LF] + rest;
    NewlineUnique(line, rest);
    assert data[..|line|] == line && data[|line| + 1..] == rest;
  }

  lemma ParseTail(c: Codec, data: string)
    requires LF !in data
    ensures ParseOf(c, data) == Success(Parsed([], 0))
  {}

  lemma AtNewline(data: string)
    requires FirstNewline(data).Some?
    ensures var n := FirstNewline(data).value; data == data[..n] + [LF] + data[n + 1..] && LF !in data[..n]
  {}

  /** The parse loop. */
  method ParseJournal(c: Codec, data: string) returns (r: Result<Parsed, ParseError>)
    ensures r == ParseOf(c, data)
  {
    hide Trim, ParseOf, Before, Shift;
    var records: seq<Record> := [];
    var pos := 0;
    assert data[0..] == data;
    ShiftNothing(ParseOf(c, data));
    while pos < |data|
      invariant 0 <= pos <= |data|
      invariant ParseOf(c, data) == Before(records, pos, ParseOf(c, data[pos..]))
      decreases |data| - pos
    {
      var idx := FirstNewline(data[pos..]);
      if idx.None? {
        ParseTail(c, data[pos..]);
        BeforeNothing(records, pos);
        return Success(Parsed(records, pos));
      }
      var next := pos + idx.value + 1;
      AtNewline(data[pos..]);
      assert data[pos..][..idx.value] == data[pos..pos + idx.value] && data[pos..][idx.value + 1..] == data[next..];
      ParseLine(c, data[pos..pos + idx.value], data[next..]);
      var trimmed := Trim(data[pos..pos + idx.value]);
      if trimmed == "" {
        BeforeShift(records, pos, ParseOf(c, data[next..]), None, idx.value + 1);
      } else {
        var record := c.decode(trimmed);
        if record.None? {
          BeforeCorrupt(records, pos);
          return Failure(Corrupt(pos));
        }
        BeforeShift(records, pos, ParseOf(c, data[next..]), record, idx.value + 1);
        records := records + [record.value];
      }
      pos := next;
    }
    ParseTail(c, data[pos..]);
    BeforeNothing(records, pos);
    r := Success(Parsed(records, pos));
  }

  lemma BeforeNothing(records: seq<Record>, pos: nat)
    ensures Before(records, pos, Success(Parsed([], 0))) == Success(Parsed(records, pos))
  {
    assert records + [] == records;
  }

  lemma BeforeCorrupt(records: seq<Record>, pos: nat)
    ensures Before(records, pos, Failure(Corrupt(0))) == Failure(Corrupt(pos))
  {}

  /** What was parsed before, in front of what is parsed from here. */
  function Before(records: seq<Record>, pos: nat, r: Result<Parsed, ParseError>): Result<Parsed, ParseError> {
    match r
    case Failure(e) => Failure(Corrupt(e.at + pos))
    case Success(p) => Success(Parsed(records + p.records, p.validLen + pos))
  }

  lemma ShiftNothing(r: Result<Parsed, ParseError>)
    ensures Before([], 0, r) == r
  {
    if r.Success? {
      assert [] + r.value.records == r.value.records;
    }
  }

  lemma BeforeShift(records: seq<Record>, pos: nat, r: Result<Parsed, ParseError>, record: Option<Record>, offset: nat)
    ensures Before(records, pos, Shift(r, record, offset))
         == Before(if record.Some? then records + [record.value] else records, pos + offset, r)
  {
    if r.Success? {
      if record.Some? {
        assert records + ([record.value] + r.value.records) == records + [record.value] + r.value.records;
      } else {
        assert records + ([] + r.value.records) == records + r.value.records;
      }
    }
  }

  // ---- what was written ---------------------------------------------------------------------

  /** The bytes of records appended whole. */
  function Written(c: Codec, records: seq<Record>): string {
    if |records| == 0 then "" else c.encode(records[0]) + [LF] + Written(c, records[1..])
  }

  lemma {:induction false} WrittenAppend(c: Codec, a: seq<Record>, b: seq<Record>)
    ensures Written(c, a + b) == Written(c, a) + Written(c, b)
  {
    if |a| == 0 {
      assert a + b == b;
    } else {
      assert (a + b)[1..] == a[1..] + b;
      WrittenAppend(c, a[1..], b);
    }
  }

  lemma NothingToTrim(s: string)
    requires |s| > 0 && !IsSpace(s[0]) && !IsSpace(s[|s| - 1])
    ensures Trim(s) == s
  {}

  /** How many records a truncation leaves whole. */
  function WholeRecords(c: Codec, records: seq<Record>, n: nat): (k: nat)
    ensures k <= |records|
  {
    if |records| == 0 || n < |c.encode(records[0])| + 1 then 0
    else 1 + WholeRecords(c, records[1..], n - |c.encode(records[0])| - 1)
  }

  /** The count is exact: that many fit, one more does not. */
  lemma {:induction false} WholeRecordsFit(c: Codec, records: seq<Record>, n: nat)
    ensures var k := WholeRecords(c, records, n);
            |Written(c, records[..k])| <= n && (k < |records| ==> n < |Written(c, records[..k + 1])|)
  {
    if |records| == 0 {
    } else if n < |c.encode(records[0])| + 1 {
      assert records[..1][1..] == [];
    } else {
      var rest := n - |c.encode(records[0])| - 1;
      WholeRecordsFit(c, records[1..], rest);
      var k := WholeRecords(c, records[1..], rest);
      assert records[..k + 1][1..] == records[1..][..k];
      if k < |records| - 1 {
        assert records[..k + 2][1..] == records[1..][..k + 1];
      }
    }
  }

  /** Torn-write recovery: cut a written journal after any number of bytes, and
      exactly the records written whole are read, at exactly their length. */
  lemma {:induction false} TruncationKeepsWholeRecords(c: Codec, records: seq<Record>, n: nat)
    requires Lawful(c) && n <= |Written(c, records)|
    ensures var k := WholeRecords(c, records, n);
            ParseOf(c, Written(c, records)[..n]) == Success(Parsed(records[..k], |Written(c, records[..k])|))
  {
    hide ParseOf, Trim;
    var cut := Written(c, records)[..n];
    if |records| == 0 {
      ParseTail(c, cut);
    } else {
      var line, rest := c.encode(records[0]), Written(c, records[1..]);
      if n < |line| + 1 {
        assert cut == line[..n];
        ParseTail(c, cut);
      } else {
        var left := n - |line| - 1;
        assert cut == line + [LF] + rest[..left];
        ParseLine(c, line, rest[..left]);
        NothingToTrim(line);
        TruncationKeepsWholeRecords(c, records[1..], left);
        var k := WholeRecords(c, records[1..], left);
        assert records[..k + 1] == [records[0]] + records[1..][..k];
        assert records[..k + 1][1..] == records[1..][..k];
      }
    }
  }

  lemma WholeJournalParses(c: Codec, records: seq<Record>)
    requires Lawful(c)
    ensures ParseOf(c, Written(c, records)) == Success(Parsed(records, |Written(c, records)|))
  {
    var n := |Written(c, records)|;
    TruncationKeepsWholeRecords(c, records, n);
    WholeRecordsFit(c, records, n);
    AllFit(c, records);
    assert Written(c, records)[..n] == Written(c, records) && records[..|records|] == records;
  }

  lemma {:induction false} AllFit(c: Codec, records: seq<Record>)
    ensures WholeRecords(c, records, |Written(c, records)|) == |records|
  {
    if |records| > 0 {
      AllFit(c, records[1..]);
    }
  }

  // ---- where a reader cuts ------------------------------------------------------------------

  /** Every reader cuts a readable file after its last newline, which is also where the
      raw append of a run's end cuts. */
  lemma {:induction false} CutIsAfterLastNewline(c: Codec, data: string)
    requires ParseOf(c, data).Success?
    ensures ParseOf(c, data).value.validLen == CompleteLength(data)
    decreases |data|
  {
    hide Trim;
    var idx := FirstNewline(data);
    if idx.None? {
      NoNewline(data);
    } else {
      var rest := data[idx.value + 1..];
      CutIsAfterLastNewline(c, rest);
      assert data == data[..idx.value + 1] + rest;
      CompleteAfter(data[..idx.value + 1], rest);
    }
  }

  lemma {:induction false} NoNewline(s: string)
    requires LF !in s
    ensures CompleteLength(s) == 0
  {
    if |s| > 0 {
      assert s[|s| - 1] in s;
      NoNewline(s[..|s| - 1]);
    }
  }

  lemma {:induction false} CompleteAfter(line: string, rest: string)
    requires |line| > 0 && line[|line| - 1] == LF
    ensures CompleteLength(line + rest) == |line| + CompleteLength(rest)
  {
    var s := line + rest;
    if |rest| == 0 {
      assert s == line;
    } else if rest[|rest| - 1] != LF {
      assert s[..|s| - 1] == line + rest[..|rest| - 1];
      CompleteAfter(line, rest[..|rest| - 1]);
    }
  }

  /** Cutting the torn tail changes nothing that is read, and there is nothing left to
      cut. */
  lemma {:induction false} CutIsIdempotent(c: Codec, data: string)
    requires ParseOf(c, data).Success?
    ensures ParseOf(c, data).value.validLen <= |data|
    ensures ParseOf(c, data[..ParseOf(c, data).value.validLen]) == ParseOf(c, data)
    decreases |data|
  {
    hide Trim, ParseOf;
    var idx := FirstNewline(data);
    if idx.None? {
      ParseTail(c, data);
      ParseTail(c, "");
      assert data[..0] == "";
    } else {
      AtNewline(data);
      var line, rest := data[..idx.value], data[idx.value + 1..];
      ParseLine(c, line, rest);
      CutIsIdempotent(c, rest);
      var kept := ParseOf(c, rest).value.validLen;
      assert data[..idx.value + 1 + kept] == line + [LF] + rest[..kept];
      ParseLine(c, line, rest[..kept]);
    }
  }

  /** What is read once a line has been appended to a readable file: the records that were
      there, and then whatever the torn tail and the new line come to together. */
  lemma {:induction false} AppendedLine(c: Codec, data: string, added: string)
    requires ParseOf(c, data).Success? && LF !in added
    ensures var p := ParseOf(c, data).value;
            p.validLen <= |data| && LF !in data[p.validLen..]
            && ParseOf(c, data + added + [LF])
               == Before(p.records, p.validLen, Line(c, data[p.validLen..] + added, ParseOf(c, "")))
    decreases |data|
  {
    hide Trim, ParseOf, Line;
    var idx := FirstNewline(data);
    if idx.None? {
      ParseTail(c, data);
      assert data[0..] == data && data + added + [LF] == (data + added) + [LF] + "";
      ParseLine(c, data + added, "");
      ShiftNothing(Line(c, data + added, ParseOf(c, "")));
    } else {
      AtNewline(data);
      var line, rest := data[..idx.value], data[idx.value + 1..];
      ParseLine(c, line, rest);
      LineOfSuccess(c, line, ParseOf(c, rest));
      AppendedLine(c, rest, added);
      assert data + added + [LF] == line + [LF] + (rest + added + [LF]);
      ParseLine(c, line, rest + added + [LF]);
      var p := ParseOf(c, rest).value;
      assert data[p.validLen + |line| + 1..] == rest[p.validLen..];
      LineBefore(c, line, p.records, p.validLen, Line(c, rest[p.validLen..] + added, ParseOf(c, "")));
    }
  }

  lemma LineOfSuccess(c: Codec, line: string, rest: Result<Parsed, ParseError>)
    requires Line(c, line, rest).Success?
    ensures rest.Success? && Line(c, line, rest).value.validLen == rest.value.validLen + |line| + 1
  {
    hide Trim;
  }

  lemma LineBefore(c: Codec, line: string, records: seq<Record>, pos: nat, last: Result<Parsed, ParseError>)
    requires Line(c, line, Success(Parsed(records, pos))).Success?
    ensures var p := Line(c, line, Success(Parsed(records, pos))).value;
            Line(c, line, Before(records, pos, last)) == Before(p.records, p.validLen, last)
  {
    hide Trim;
    if last.Success? {
      var first := if Trim(line) == "" then [] else [c.decode(Trim(line)).value];
      assert first + (records + last.value.records) == first + records + last.value.records;
    }
  }

  /** A record appended to a readable file is read if and only if what the tail and the
      record spell together decodes to it; otherwise it is read as something else, or the
      whole file is corrupt, from the tail on. */
  lemma AppendedIsRead(c: Codec, data: string, r: Record)
    requires Lawful(c) && ParseOf(c, data).Success?
    ensures var p, grown := ParseOf(c, data).value, data + c.encode(r) + [LF];
            && p.validLen <= |data|
            && var line := TrimLeft(data[p.validLen..]) + c.encode(r);
            && (ParseOf(c, grown) == Success(Parsed(p.records + [r], |grown|)) <==> c.decode(line) == Some(r))
            && (ParseOf(c, grown) == Failure(Corrupt(p.validLen)) <==> c.decode(line).None?)
  {
    hide ParseOf, Trim, TrimLeft, TrimRight;
    var p := ParseOf(c, data).value;
    AppendedLine(c, data, c.encode(r));
    var tail := data[p.validLen..];
    TrimTail(tail, c.encode(r));
    ParseTail(c, "");
    var line := TrimLeft(tail) + c.encode(r);
    assert Before(p.records, p.validLen, Line(c, tail + c.encode(r), ParseOf(c, "")))
        == if c.decode(line).None? then Failure(Corrupt(p.validLen))
           else Success(Parsed(p.records + [c.decode(line).value], |data + c.encode(r) + [LF]|)) by {
      if c.decode(line).Some? {
        assert [c.decode(line).value] + [] == [c.decode(line).value];
      }
    }
    assert (p.records + [r])[|p.records|] == r;
    if c.decode(line).Some? {
      assert (p.records + [c.decode(line).value])[|p.records|] == c.decode(line).value;
    }
  }

  lemma {:induction false} TrimTail(tail: string, record: string)
    requires |record| > 0 && !IsSpace(record[0]) && !IsSpace(record[|record| - 1])
    ensures Trim(tail + record) == TrimLeft(tail) + record && |TrimLeft(tail) + record| > 0
  {
    if |tail| == 0 {
      assert tail + record == record;
      assert TrimLeft(tail) + record == record;
    } else if IsSpace(tail[0]) {
      assert (tail + record)[1..] == tail[1..] + record;
      TrimTail(tail[1..], record);
    }
  }

  /** Appending a line to a complete file adds one record to what is read. */
  lemma AppendAddsOne(c: Codec, data: string, r: Record)
    requires Lawful(c) && ParseOf(c, data).Success? && ParseOf(c, data).value.validLen == |data|
    ensures var grown := data + c.encode(r) + [LF];
            ParseOf(c, grown) == Success(Parsed(ParseOf(c, data).value.records + [r], |grown|))
  {
    hide ParseOf;
    AppendedIsRead(c, data, r);
    assert data[|data|..] == "" && TrimLeft("") + c.encode(r) == c.encode(r);
  }

  /** No beginning of a record, whole or not, followed by another record is a record. It
      holds of JSON objects whose keys begin with a letter: what is open at the cut is
      not closed by what follows, and nothing may follow what is closed. */
  ghost predicate Separate(c: Codec) {
    forall r, s, n :: 0 < n <= |c.encode(r)| ==> c.decode(c.encode(r)[..n] + c.encode(s)).None?
  }

  /** After a write that stopped inside a record, the record appended next is lost and the
      file is corrupt from there; after one that wrote nothing, it is read. */
  lemma AppendedAfterTorn(c: Codec, data: string, torn: Record, n: nat, r: Record)
    requires Lawful(c) && Separate(c) && n <= |c.encode(torn)|
    requires ParseOf(c, data).Success? && ParseOf(c, data).value.validLen == |data|
    ensures var grown := data + c.encode(torn)[..n] + c.encode(r) + [LF];
            ParseOf(c, grown) == if n == 0 then Success(Parsed(ParseOf(c, data).value.records + [r], |grown|))
                                 else Failure(Corrupt(|data|))
  {
    hide ParseOf, TrimRight;
    var tail := c.encode(torn)[..n];
    if n == 0 {
      assert data + tail == data;
      AppendAddsOne(c, data, r);
    } else {
      AppendedLine(c, data, tail + c.encode(r));
      assert data[|data|..] + (tail + c.encode(r)) == tail + c.encode(r);
      assert data + (tail + c.encode(r)) + [LF] == data + tail + c.encode(r) + [LF];
      TrimTail(tail, c.encode(r));
    }
  }

  // ---- sequence numbers -------------------------------------------------------------------------

  /** One above the highest number in use. */
  function NextSeq(records: seq<Record>): (n: int)
    ensures n >= 0 && forall r :: r in records ==> r.seqNo < n
  {
    if |records| == 0 then 0
    else
      var before := NextSeq(records[..|records| - 1]);
      var last := records[|records| - 1].seqNo;
      assert records == records[..|records| - 1] + [records[|records| - 1]];
      if last >= before then last + 1 else before
  }

  predicate Consecutive(records: seq<Record>) {
    forall i :: 0 <= i < |records| ==> records[i].seqNo == i
  }

  lemma {:induction false} NextOfConsecutive(records: seq<Record>)
    requires Consecutive(records)
    ensures NextSeq(records) == |records|
  {
    if |records| > 0 {
      NextOfConsecutive(records[..|records| - 1]);
    }
  }

  // ---- the log ----------------------------------------------------------------------------------

  /** A run's events.jsonl and the handle on it. */
  class Log {
    const codec: Codec
    var file: string
    var seqNo: int

    constructor (codec: Codec, file: string)
      ensures this.codec == codec && this.file == file
    {
      this.codec, this.file, this.seqNo := codec, file, 0;
    }

    /** Open for appending: the torn tail is cut off, numbering continues. */
    method Open() returns (r: Result<seq<Record>, ParseError>)
      modifies this
      ensures match ParseOf(codec, old(file))
              case Failure(e) => r == Failure(e) && file == old(file)
              case Success(p) =>
                r == Success(p.records) && p.validLen <= |old(file)| && file == old(file)[..p.validLen]
                && seqNo == NextSeq(p.records) && ParseOf(codec, file) == Success(Parsed(p.records, |file|))
    {
      hide ParseOf;
      var parsed := ParseJournal(codec, file);
      if parsed.Failure? {
        return Failure(parsed.error);
      }
      CutIsIdempotent(codec, file);
      if parsed.value.validLen < |file| {
        file := file[..parsed.value.validLen];
      }
      assert file == old(file)[..parsed.value.validLen];
      var records := parsed.value.records;
      seqNo := 0;
      var i := 0;
      while i < |records|
        invariant 0 <= i <= |records| && seqNo == NextSeq(records[..i]) && file == old(file)[..parsed.value.validLen]
      {
        assert records[..i + 1][..i] == records[..i];
        if records[i].seqNo >= seqNo {
          seqNo := records[i].seqNo + 1;
        }
        i := i + 1;
      }
      assert records[..i] == records;
      r := Success(records);
    }

    /** Append one event. The number is taken before the write, so a number is never
        used twice; the write may stop after any number of bytes, and only a whole
        line with its newline, and on the disk, is a success. */
    method Append(event: Event, now: int, bytes: nat, synced: bool) returns (ok: bool)
      requires bytes <= |codec.encode(Record(seqNo, now, event))| + 1
      modifies this
      ensures seqNo == old(seqNo) + 1
      ensures ok <==> bytes == |codec.encode(Record(old(seqNo), now, event))| + 1 && synced
      ensures file == old(file) + (codec.encode(Record(old(seqNo), now, event)) + [LF])[..bytes]
    {
      var line := codec.encode(Record(seqNo, now, event)) + [LF];
      seqNo := seqNo + 1;
      file := file + line[..bytes];
      ok := bytes == |line| && synced;
    }

    /** End a run whose journal cannot be read: cut after the last newline, append. */
    method AppendRunEndRaw(end: Record)
      requires end.event.RunEnd?
      modifies this`file
      ensures file == old(file)[..CompleteLength(old(file))] + codec.encode(end) + [LF]
    {
      var n := CompleteLength(file);
      if n < |file| {
        file := file[..n];
      }
      assert file == old(file)[..n];
      file := file + codec.encode(end) + [LF];
    }
  }

  /** Whatever was written and wherever the write of it was cut short, opening reads
      the records written whole, and an append then adds exactly one record, numbered
      next. */
  method RecoverAndAppend(log: Log, ghost records: seq<Record>, ghost n: nat, event: Event, now: int)
    returns (r: Result<seq<Record>, ParseError>)
    requires Lawful(log.codec) && Consecutive(records) && n <= |Written(log.codec, records)|
    requires log.file == Written(log.codec, records)[..n]
    modifies log
    ensures var kept := records[..WholeRecords(log.codec, records, n)];
            r == Success(kept) && Consecutive(kept + [Record(|kept|, now, event)])
            && log.file == Written(log.codec, kept + [Record(|kept|, now, event)])
  {
    hide ParseOf, WholeRecords, Lawful, Written;
    ghost var c, k := log.codec, WholeRecords(log.codec, records, n);
    ghost var kept := records[..k];
    TruncationKeepsWholeRecords(c, records, n);
    WholeRecordsFit(c, records, n);
    WrittenAppend(c, kept, records[k..]);
    assert kept + records[k..] == records;
    r := log.Open();
    NextOfConsecutive(kept);
    ghost var added := Record(|kept|, now, event);
    var bytes := |log.codec.encode(Record(log.seqNo, now, event))| + 1;
    var ok := log.Append(event, now, bytes, true);
    WrittenAppend(c, kept, [added]);
    OneWritten(c, added);
    assert (c.encode(added) + [LF])[..bytes] == c.encode(added) + [LF];
  }

  /** An append that failed, and one more on the same handle. If the first wrote the line
      and only the sync failed, both are read; if it wrote nothing, the second alone, under
      a number that leaves a gap; otherwise the file is corrupt. So the journal can be
      replayed afterwards if and only if the line was written, or nothing was and there
      was nothing before it. */
  method AppendAfterFailure(log: Log, ghost records: seq<Record>, first: Event, bytes: nat, second: Event, now: int)
    requires Lawful(log.codec) && Separate(log.codec)
    requires ParseOf(log.codec, log.file) == Success(Parsed(records, |log.file|)) && log.seqNo == NextSeq(records)
    requires WellFormed(records, |records|) && !first.UnknownKind? && !second.UnknownKind?
    requires bytes <= |log.codec.encode(Record(log.seqNo, now, first))| + 1
    modifies log
    ensures var a, b := Record(old(log.seqNo), now, first), Record(old(log.seqNo) + 1, now, second);
            var parsed := ParseOf(log.codec, log.file);
            && parsed == (if bytes == |log.codec.encode(a)| + 1 then Success(Parsed(records + [a] + [b], |log.file|))
                          else if bytes == 0 then Success(Parsed(records + [b], |log.file|))
                          else Failure(Corrupt(|old(log.file)|)))
            && (Consecutive(records) ==>
                  (parsed.Success? && WellFormed(parsed.value.records, |parsed.value.records|)
                   <==> bytes == |log.codec.encode(a)| + 1 || (bytes == 0 && |records| == 0)))
  {
    hide ParseOf, Lawful, Separate, NextSeq;
    ghost var c, data := log.codec, log.file;
    ghost var a, b := Record(log.seqNo, now, first), Record(log.seqNo + 1, now, second);
    var ok := log.Append(first, now, bytes, false);
    ghost var line := c.encode(a) + [LF];
    assert log.file == data + line[..bytes];
    var whole := |log.codec.encode(Record(log.seqNo, now, second))| + 1;
    ok := log.Append(second, now, whole, true);
    assert (c.encode(b) + [LF])[..whole] == c.encode(b) + [LF];
    if bytes == |line| {
      assert line[..bytes] == line && data + line == data + c.encode(a) + [LF];
      AppendAddsOne(c, data, a);
      AppendAddsOne(c, data + line, b);
      assert log.file == data + line + c.encode(b) + [LF];
      if Consecutive(records) {
        NextOfConsecutive(records);
      }
    } else {
      assert line[..bytes] == c.encode(a)[..bytes];
      AppendedAfterTorn(c, data, a, bytes, b);
      assert log.file == data + c.encode(a)[..bytes] + c.encode(b) + [LF];
      if bytes == 0 && |records| > 0 {
        GapAfter(records, b);
      }
    }
  }

  /** A number above the next leaves a gap. */
  lemma GapAfter(records: seq<Record>, b: Record)
    requires |records| > 0 && b.seqNo > NextSeq(records)
    ensures !WellFormed(records + [b], |records| + 1)
  {
    assert records[|records| - 1] in records;
    assert GapAt(records + [b], |records|);
  }

  lemma OneWritten(c: Codec, r: Record)
    ensures Written(c, [r]) == c.encode(r) + [LF]
  {
    assert [r][1..] == [] && Written(c, []) == "";
  }

  // ---- the lenient scan ---------------------------------------------------------------------------

  datatype Scan = Scan(lastSeq: int, format: int, ended: bool, endStatus: string, events: nat)

  const NO_SCAN := Scan(0, 0, false, "", 0)

  function NormalFormat(format: int): int {
    if format == 0 then 1 else format
  }

  function ScanOne(s: Scan, e: Shared): Scan {
    var over := e.isEnd && e.status != BLOCKED;
    Scan(if e.seqNo > s.lastSeq then e.seqNo else s.lastSeq,
         if e.isStart && s.format == 0 then NormalFormat(e.format) else s.format,
         over, if over then e.status else "", s.events + 1)
  }

  /** Line by line, skipping what does not decode. */
  function ScanFrom(c: Codec, s: Scan, data: string): Scan
    decreases |data|
  {
    var idx := FirstNewline(data);
    if idx.None? then s
    else
      var line := Trim(data[..idx.value]);
      var shared := c.lenient(line);
      ScanFrom(c, if line == "" || shared.None? then s else ScanOne(s, shared.value), data[idx.value + 1..])
  }

  /** The scan loop. */
  method ScanEvents(c: Codec, data: string) returns (s: Scan)
    ensures s == ScanFrom(c, NO_SCAN, data)
  {
    hide Trim;
    s := NO_SCAN;
    var pos := 0;
    assert data[0..] == data;
    while pos < |data|
      invariant 0 <= pos <= |data| && ScanFrom(c, NO_SCAN, data) == ScanFrom(c, s, data[pos..])
      decreases |data| - pos
    {
      var idx := FirstNewline(data[pos..]);
      if idx.None? {
        break;
      }
      assert data[pos..][..idx.value] == data[pos..pos + idx.value];
      assert data[pos..][idx.value + 1..] == data[pos + idx.value + 1..];
      var line := Trim(data[pos..pos + idx.value]);
      var shared := c.lenient(line);
      if line != "" && shared.Some? {
        s := ScanOne(s, shared.value);
      }
      pos := pos + idx.value + 1;
    }
  }

  function ScanRecords(s: Scan, records: seq<Record>): Scan
    decreases |records|
  {
    if |records| == 0 then s else ScanRecords(ScanOne(s, SharedOf(records[0])), records[1..])
  }

  /** On a readable file the lenient scan reads the same records. */
  lemma {:induction false} ScanReadsTheSame(c: Codec, s: Scan, data: string)
    requires Lawful(c) && ParseOf(c, data).Success?
    ensures ScanFrom(c, s, data) == ScanRecords(s, ParseOf(c, data).value.records)
    decreases |data|
  {
    hide Trim;
    var idx := FirstNewline(data);
    if idx.Some? {
      var line := Trim(data[..idx.value]);
      var rest := data[idx.value + 1..];
      var next := if line == "" then s else ScanOne(s, SharedOf(c.decode(line).value));
      ScanReadsTheSame(c, next, rest);
      var records := ParseOf(c, data).value.records;
      if line != "" {
        assert records[1..] == ParseOf(c, rest).value.records;
      } else {
        assert records == ParseOf(c, rest).value.records;
      }
    }
  }

  predicate EndsOver(events: seq<Event>) {
    |events| > 0 && Last(events).RunEnd? && Last(events).status != BLOCKED
  }

  lemma {:induction false} ScanEnds(s: Scan, records: seq<Record>)
    requires |records| > 0
    ensures ScanRecords(s, records).ended == EndsOver(EventsOf(records))
    decreases |records|
  {
    if |records| == 1 {
      assert records[1..] == [];
    } else {
      ScanEnds(ScanOne(s, SharedOf(records[0])), records[1..]);
      assert EventsOf(records)[|records| - 1] == EventsOf(records[1..])[|records| - 2];
    }
  }

  /** A scan counts the records, finds the highest number in use, the format the first start
      is stamped with, and the status of the end the journal ends in. */
  lemma {:induction false} ScanTells(s: Scan, records: seq<Record>)
    ensures var t := ScanRecords(s, records);
            && t.events == s.events + |records| && t.lastSeq >= s.lastSeq
            && (forall i :: 0 <= i < |records| ==> records[i].seqNo <= t.lastSeq)
            && (t.lastSeq == s.lastSeq || exists i :: 0 <= i < |records| && records[i].seqNo == t.lastSeq)
            && (s.format != 0 ==> t.format == s.format)
            && (|records| > 0 ==>
                  t.endStatus == if EndsOver(EventsOf(records)) then Last(EventsOf(records)).status else "")
    decreases |records|
  {
    if |records| > 0 {
      var next := ScanOne(s, SharedOf(records[0]));
      ScanTells(next, records[1..]);
      var t := ScanRecords(s, records);
      assert forall i :: 0 < i < |records| ==> records[i] == records[1..][i - 1];
      if t.lastSeq != s.lastSeq && t.lastSeq != next.lastSeq {
        var i :| 0 <= i < |records[1..]| && records[1..][i].seqNo == t.lastSeq;
        assert records[i + 1].seqNo == t.lastSeq;
      }
      if |records| > 1 {
        assert EventsOf(records)[|records| - 1] == EventsOf(records[1..])[|records| - 2];
      }
    }
  }

  /** The format it finds. */
  lemma {:induction false} ScanFindsFormat(s: Scan, records: seq<Record>, k: nat)
    requires s.format == 0 && k < |records| && records[k].event.RunStart? && records[k].event.format >= 0
    requires forall i :: 0 <= i < k ==> !records[i].event.RunStart?
    ensures ScanRecords(s, records).format == if records[k].event.format == 0 then 1 else records[k].event.format
    decreases |records|
  {
    if k > 0 {
      ScanFindsFormat(ScanOne(s, SharedOf(records[0])), records[1..], k - 1);
    } else {
      ScanTells(ScanOne(s, SharedOf(records[0])), records[1..]);
    }
  }

  lemma EndIsTerminal(events: seq<Event>)
    requires EndsOver(events)
    ensures Terminal(CoreOf(events))
  {
    hide StepItems, StepBranches, StepData, StepLedger, StepPlace;
  }

  /** The scan and the replay agree on whether a run is over if and only if nothing
      follows the end of one that is. */
  lemma ScanAgreesWithReplay(c: Codec, data: string)
    requires Lawful(c) && ParseOf(c, data).Success?
    ensures var events := EventsOf(ParseOf(c, data).value.records);
            (ScanFrom(c, NO_SCAN, data).ended <==> Terminal(CoreOf(events)))
            <==> (Terminal(CoreOf(events)) ==> EndsOver(events))
  {
    hide ParseOf, ScanFrom;
    ScanReadsTheSame(c, NO_SCAN, data);
    var records := ParseOf(c, data).value.records;
    if |records| > 0 {
      ScanEnds(NO_SCAN, records);
    }
    var events := EventsOf(records);
    if EndsOver(events) {
      EndIsTerminal(events);
    }
  }

  /** Nothing follows the end of a run in any journal the engine writes. */
  lemma {:induction false} NothingFollowsTheEnd(w: Workflow, events: seq<Event>)
    requires Legal(w, events)
    ensures Terminal(CoreOf(events)) ==> EndsOver(events)
  {
    hide StepItems, StepBranches, StepData, StepLedger, StepPlace, Legal, CanAppend;
    if |events| > 0 {
      assert events == Front(events) + [Last(events)];
      LegalSplit(w, events);
      RunTheorems.TerminalIsFinal(w, Front(events), Last(events));
    }
  }

  /** So for every journal the engine writes the two agree. */
  lemma ScanAgreesOnEngineJournals(c: Codec, w: Workflow, data: string)
    requires Lawful(c) && ParseOf(c, data).Success?
    requires Legal(w, EventsOf(ParseOf(c, data).value.records))
    ensures ScanFrom(c, NO_SCAN, data).ended <==> Terminal(CoreOf(EventsOf(ParseOf(c, data).value.records)))
  {
    hide ParseOf, ScanFrom, Legal;
    ScanAgreesWithReplay(c, data);
    NothingFollowsTheEnd(w, EventsOf(ParseOf(c, data).value.records));
  }

  /** Ending a readable run the raw way adds that one record to what is read. */
  lemma RawEndIsOneRecord(c: Codec, data: string, end: Record)
    requires Lawful(c) && ParseOf(c, data).Success?
    ensures ParseOf(c, data[..CompleteLength(data)] + c.encode(end) + [LF]).Success?
    ensures ParseOf(c, data[..CompleteLength(data)] + c.encode(end) + [LF]).value.records
         == ParseOf(c, data).value.records + [end]
  {
    hide ParseOf, Lawful;
    CutIsAfterLastNewline(c, data);
    CutIsIdempotent(c, data);
    AppendAddsOne(c, data[..CompleteLength(data)], end);
  }

  // ---- a torn run goes on -------------------------------------------------------------------

  lemma {:induction false} LegalKinds(w: Workflow, events: seq<Event>)
    requires Legal(w, events)
    ensures forall i :: 0 <= i < |events| ==> !events[i].UnknownKind?
    ensures |events| > 0 ==> events[0].RunStart? || events[0].Resume?
  {
    hide Legal, CanAppend, Fold;
    if |events| > 0 {
      LegalSplit(w, events);
      RuleOf(w, Front(events), Last(events));
      LegalKinds(w, Front(events));
      assert forall i :: 0 <= i < |events| - 1 ==> events[i] == Front(events)[i];
      if |events| == 1 {
        assert Front(events) == [];
      }
    }
  }

  /** From the bytes up: cut the file of a run at any byte. What is left parses, replays
      without error, and is the journal of a legal run, so every theorem about runs holds
      of what a crashed run continues from. */
  lemma TornRunIsLegal(c: Codec, w: Workflow, records: seq<Record>, n: nat)
    requires Lawful(c) && Consecutive(records) && Legal(w, EventsOf(records)) && n <= |Written(c, records)|
    requires forall r :: r in records && r.event.RunStart? ==> r.event.format == FORMAT
    ensures var parsed := ParseOf(c, Written(c, records)[..n]);
            && parsed.Success? && parsed.value.records <= records
            && Legal(w, EventsOf(parsed.value.records))
            && ReadableFormat(parsed.value.records) && WellFormed(parsed.value.records, |parsed.value.records|)
  {
    hide Legal;
    TruncationKeepsWholeRecords(c, records, n);
    var k := WholeRecords(c, records, n);
    assert EventsOf(records[..k]) == EventsOf(records)[..k];
    PrefixIsLegal(w, EventsOf(records), k);
    LegalKinds(w, EventsOf(records[..k]));
    forall i | 0 <= i < k
      ensures !GapAt(records[..k], i) && !records[..k][i].event.UnknownKind?
    {
      assert EventsOf(records[..k])[i] == records[..k][i].event;
    }
  }
}
