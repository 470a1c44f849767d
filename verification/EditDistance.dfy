/**
  The suggestion for a misspelled field (internal/spec/validate.go, closestField and
  levenshtein): a table of two rows against what an edit distance is, the cost of
  the cheapest script of single-character edits. Text is a sequence of runes.
 */
module EditDistance {

  /** One edit: a character kept, replaced, deleted or inserted. */
  datatype Edit = Keep(c: char) | Replace(old_: char, new_: char) | Delete(c: char) | Insert(c: char)

  /** What one edit takes away, and what it puts there. */
  function Taken(e: Edit): string {
    match e
    case Keep(c) => [c]
    case Replace(c, _) => [c]
    case Delete(c) => [c]
    case Insert(_) => ""
  }

  function Put(e: Edit): string {
    match e
    case Keep(c) => [c]
    case Replace(_, d) => [d]
    case Delete(_) => ""
    case Insert(d) => [d]
  }

  /** The text a script edits, and the text it makes of it. */
  function Source(script: seq<Edit>): string {
    if |script| == 0 then "" else Source(script[..|script| - 1]) + Taken(script[|script| - 1])
  }

  function Outcome(script: seq<Edit>): string {
    if |script| == 0 then "" else Outcome(script[..|script| - 1]) + Put(script[|script| - 1])
  }

  function Price(e: Edit): nat {
    if e.Keep? then 0 else 1
  }

  function Cost(script: seq<Edit>): nat {
    if |script| == 0 then 0 else Cost(script[..|script| - 1]) + Price(script[|script| - 1])
  }

  predicate Edits(script: seq<Edit>, a: string, b: string) {
    Source(script) == a && Outcome(script) == b
  }

  function Least(x: nat, y: nat): nat {
    if y < x then y else x
  }

  /** The recurrence the table is filled by. */
  function Distance(a: string, b: string): nat
    decreases |a| + |b|
  {
    if |a| == 0 then |b|
    else if |b| == 0 then |a|
    else
      var c, d := a[..|a| - 1], b[..|b| - 1];
      var cost := if a[|a| - 1] == b[|b| - 1] then 0 else 1;
      Least(Least(Distance(c, b) + 1, Distance(a, d) + 1), Distance(c, d) + cost)
  }

  // ---- the recurrence is the edit distance ------------------------------------------------

  /** One more edit costs no more than its price. */
  lemma OneMoreEdit(a: string, b: string, e: Edit)
    ensures Distance(a + Taken(e), b + Put(e)) <= Distance(a, b) + Price(e)
  {
    if |Taken(e)| > 0 {
      assert (a + Taken(e))[..|a|] == a;
    } else {
      assert a + Taken(e) == a;
    }
    if |Put(e)| > 0 {
      assert (b + Put(e))[..|b|] == b;
    } else {
      assert b + Put(e) == b;
    }
  }

  /** No script is cheaper than the distance of the texts it takes to one another. */
  lemma {:induction false} NoScriptIsCheaper(script: seq<Edit>, a: string, b: string)
    requires Edits(script, a, b)
    ensures Distance(a, b) <= Cost(script)
  {
    if |script| > 0 {
      var before := script[..|script| - 1];
      NoScriptIsCheaper(before, Source(before), Outcome(before));
      OneMoreEdit(Source(before), Outcome(before), script[|script| - 1]);
    }
  }

  /** The last edit of a cheapest script. */
  lemma LastEdit(a: string, b: string) returns (c: string, d: string, e: Edit)
    requires |a| + |b| > 0
    ensures a == c + Taken(e) && b == d + Put(e) && |c| + |d| < |a| + |b|
    ensures Distance(a, b) == Distance(c, d) + Price(e)
  {
    if |b| == 0 || (|a| > 0 && Distance(a, b) == Distance(a[..|a| - 1], b) + 1) {
      c, d, e := a[..|a| - 1], b, Delete(a[|a| - 1]);
    } else if |a| == 0 || Distance(a, b) == Distance(a, b[..|b| - 1]) + 1 {
      c, d, e := a, b[..|b| - 1], Insert(b[|b| - 1]);
    } else {
      c, d := a[..|a| - 1], b[..|b| - 1];
      e := if a[|a| - 1] == b[|b| - 1] then Keep(a[|a| - 1]) else Replace(a[|a| - 1], b[|b| - 1]);
    }
  }

  /** And one of them costs exactly that. */
  lemma {:induction false} SomeScriptCostsIt(a: string, b: string) returns (script: seq<Edit>)
    ensures Edits(script, a, b) && Cost(script) == Distance(a, b)
    decreases |a| + |b|
  {
    if |a| == 0 && |b| == 0 {
      script := [];
    } else {
      hide Distance, Taken, Put, Price;
      var c, d, e := LastEdit(a, b);
      var before := SomeScriptCostsIt(c, d);
      script := before + [e];
      assert script[..|script| - 1] == before;
    }
  }

  lemma {:induction false} AllKept(script: seq<Edit>)
    requires Cost(script) == 0
    ensures Source(script) == Outcome(script)
  {
    if |script| > 0 {
      AllKept(script[..|script| - 1]);
    }
  }

  lemma {:induction false} Same(a: string)
    ensures Distance(a, a) == 0
  {
    if |a| > 0 {
      Same(a[..|a| - 1]);
    }
  }

  /** Only a text itself is at distance zero. */
  lemma ZeroIffEqual(a: string, b: string)
    ensures Distance(a, b) == 0 <==> a == b
  {
    Same(a);
    var script := SomeScriptCostsIt(a, b);
    if Distance(a, b) == 0 {
      AllKept(script);
    }
  }

  // ---- the table ------------------------------------------------------------------------------

  /** A row of the table, filled up to a column. */
  ghost predicate Row(row: array<int>, a: string, b: string, i: nat, upTo: nat)
    requires i <= |a| && upTo <= |b| + 1 == row.Length
    reads row
  {
    forall j :: 0 <= j < upTo ==> row[j] == Distance(a[..i], b[..j])
  }

  /** Two rows of the table at a time, the finished one and the one being filled. */
  method Levenshtein(a: string, b: string) returns (d: nat)
    ensures d == Distance(a, b)
  {
    if a == b {
      Same(a);
      return 0;
    }
    var prev, curr := new int[|b| + 1], new int[|b| + 1];
    var j := 0;
    while j < prev.Length
      invariant 0 <= j <= prev.Length && Row(prev, a, b, 0, j)
    {
      prev[j] := j;
      j := j + 1;
    }
    var i := 1;
    while i <= |a|
      invariant 1 <= i <= |a| + 1 && prev != curr && prev.Length == curr.Length == |b| + 1
      invariant fresh(prev) && fresh(curr) && Row(prev, a, b, i - 1, |b| + 1)
    {
      FillRow(a, b, i, prev, curr);
      prev, curr := curr, prev;
      i := i + 1;
    }
    assert a[..|a|] == a && b[..|b|] == b;
    d := prev[|b|];
  }

  /** Fill the next row from the one before it. */
  method FillRow(a: string, b: string, i: nat, prev: array<int>, curr: array<int>)
    requires 1 <= i <= |a| && prev != curr && prev.Length == curr.Length == |b| + 1
    requires Row(prev, a, b, i - 1, |b| + 1)
    modifies curr
    ensures Row(curr, a, b, i, |b| + 1)
  {
    hide Distance;
    FirstCell(a, b, i);
    curr[0] := i;
    var j := 1;
    while j <= |b|
      invariant 1 <= j <= |b| + 1 && Row(curr, a, b, i, j) && Row(prev, a, b, i - 1, |b| + 1)
    {
      var cost := if a[i - 1] == b[j - 1] then 0 else 1;
      var del, ins, sub := prev[j] + 1, curr[j - 1] + 1, prev[j - 1] + cost;
      var m := del;
      if ins < m {
        m := ins;
      }
      if sub < m {
        m := sub;
      }
      Cell(a, b, i, j);
      curr[j] := m;
      j := j + 1;
    }
  }

  lemma FirstCell(a: string, b: string, i: nat)
    requires i <= |a|
    ensures Distance(a[..i], b[..0]) == i
  {}

  /** One cell, from its three neighbours. */
  lemma Cell(a: string, b: string, i: nat, j: nat)
    requires 1 <= i <= |a| && 1 <= j <= |b|
    ensures Distance(a[..i], b[..j])
         == Least(Least(Distance(a[..i - 1], b[..j]) + 1, Distance(a[..i], b[..j - 1]) + 1),
                  Distance(a[..i - 1], b[..j - 1]) + if a[i - 1] == b[j - 1] then 0 else 1)
  {
    assert a[..i][..i - 1] == a[..i - 1] && b[..j][..j - 1] == b[..j - 1];
  }

  // ---- the suggestion -----------------------------------------------------------------------

  /** Anything further is no useful suggestion. */
  const TOO_FAR := 3

  /** The candidate at k is the closest, the first of several, and near enough. */
  ghost predicate IsClosest(field: string, candidates: seq<string>, k: nat) {
    k < |candidates| && Distance(field, candidates[k]) < TOO_FAR
    && (forall j :: 0 <= j < |candidates| ==> Distance(field, candidates[k]) <= Distance(field, candidates[j]))
    && (forall j :: 0 <= j < k ==> Distance(field, candidates[k]) < Distance(field, candidates[j]))
  }

  /** The closest candidate, or nothing when all are too far. */
  method ClosestField(field: string, candidates: seq<string>) returns (best: string)
    ensures if exists c :: c in candidates && Distance(field, c) < TOO_FAR
            then exists k: nat :: IsClosest(field, candidates, k) && candidates[k] == best
            else best == ""
  {
    hide Distance;
    best := "";
    var bestDist := TOO_FAR;
    ghost var at := 0;
    var i := 0;
    while i < |candidates|
      invariant 0 <= i <= |candidates|
      invariant forall k :: 0 <= k < i ==> bestDist <= Distance(field, candidates[k])
      invariant if bestDist == TOO_FAR then best == ""
                else bestDist < TOO_FAR && 0 <= at < i && candidates[at] == best && Distance(field, best) == bestDist
                     && forall j :: 0 <= j < at ==> bestDist < Distance(field, candidates[j])
    {
      var d := Levenshtein(field, candidates[i]);
      if d < bestDist {
        bestDist, best, at := d, candidates[i], i;
      }
      i := i + 1;
    }
    if bestDist < TOO_FAR {
      assert IsClosest(field, candidates, at);
    }
  }
}
