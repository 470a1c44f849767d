/**
  The least width of a guard's pattern (internal/spec/validate.go, minMatchWidth)
  against what patterns match. A text is a sequence of runes; patterns are the
  syntax trees of the regexp library.
 */
module PatternWidth {

  type Rune = int

  const NEWLINE: Rune := 10

  /** The width reported for a pattern that can match nothing at all. */
  const IMPOSSIBLE := 0x4000_0000

  datatype Assertion = BeginLine | EndLine | BeginText | EndText | WordBoundary | NoWordBoundary

  datatype Pattern =
    | Literal(runes: seq<Rune>, foldCase: bool)
    | CharClass(ranges: seq<(Rune, Rune)>)
    | AnyCharNotNL
    | AnyChar
    | Assert(assertion: Assertion)
    | EmptyMatch
    | NoMatch
    | Capture(sub: Pattern)
    | Star(sub: Pattern)
    | Quest(sub: Pattern)
    | Plus(sub: Pattern)
    | Repeat(sub: Pattern, min: nat, max: int)
    | Concat(subs: seq<Pattern>)
    | Alternate(subs: seq<Pattern>)

  // ---- what a pattern matches ---------------------------------------------------------------

  /** Which runes are the same letter in another case is the library's; a rune is
      always its own. */
  type Folding = (Rune, Rune) -> bool

  predicate SameRune(fold: Folding, foldCase: bool, a: Rune, b: Rune) {
    a == b || (foldCase && fold(a, b))
  }

  predicate IsWord(r: Rune) {
    48 <= r <= 57 || 65 <= r <= 90 || 97 <= r <= 122 || r == 95
  }

  predicate AtBoundary(text: seq<Rune>, i: nat)
    requires i <= |text|
  {
    (i > 0 && IsWord(text[i - 1])) != (i < |text| && IsWord(text[i]))
  }

  predicate Holds(a: Assertion, text: seq<Rune>, i: nat)
    requires i <= |text|
  {
    match a
    case BeginLine => i == 0 || text[i - 1] == NEWLINE
    case EndLine => i == |text| || text[i] == NEWLINE
    case BeginText => i == 0
    case EndText => i == |text|
    case WordBoundary => AtBoundary(text, i)
    case NoWordBoundary => !AtBoundary(text, i)
  }

  predicate InRange(range: (Rune, Rune), r: Rune) {
    range.0 <= r <= range.1
  }

  /** The pattern matches the text from i up to j. */
  ghost predicate Matches(fold: Folding, p: Pattern, text: seq<Rune>, i: nat, j: nat)
    requires i <= j <= |text|
    decreases p, 0
  {
    match p
    case Literal(runes, foldCase) =>
      j - i == |runes| && forall k :: 0 <= k < |runes| ==> SameRune(fold, foldCase, runes[k], text[i + k])
    case CharClass(ranges) => j == i + 1 && exists k :: 0 <= k < |ranges| && InRange(ranges[k], text[i])
    case AnyCharNotNL => j == i + 1 && text[i] != NEWLINE
    case AnyChar => j == i + 1
    case Assert(a) => i == j && Holds(a, text, i)
    case EmptyMatch => i == j
    case NoMatch => false
    case Capture(sub) => Matches(fold, sub, text, i, j)
    case Star(sub) => exists n: nat :: MatchesTimes(fold, sub, text, i, j, n)
    case Quest(sub) => i == j || Matches(fold, sub, text, i, j)
    case Plus(sub) => exists n: nat :: n >= 1 && MatchesTimes(fold, sub, text, i, j, n)
    case Repeat(sub, min, max) =>
      exists n: nat :: min <= n && (max < 0 || n <= max) && MatchesTimes(fold, sub, text, i, j, n)
    case Concat(subs) => MatchesAll(fold, subs, text, i, j)
    case Alternate(subs) => exists k :: 0 <= k < |subs| && Matches(fold, subs[k], text, i, j)
  }

  /** n matches in a row. */
  ghost predicate MatchesTimes(fold: Folding, p: Pattern, text: seq<Rune>, i: nat, j: nat, n: nat)
    requires i <= j <= |text|
    decreases p, n + 1
  {
    if n == 0 then i == j
    else exists m: nat :: i <= m <= j && MatchesTimes(fold, p, text, i, m, n - 1) && Matches(fold, p, text, m, j)
  }

  /** One match of each in a row. */
  ghost predicate MatchesAll(fold: Folding, ps: seq<Pattern>, text: seq<Rune>, i: nat, j: nat)
    requires i <= j <= |text|
    decreases ps, 0
  {
    if |ps| == 0 then i == j
    else exists m: nat :: i <= m <= j && Matches(fold, ps[0], text, i, m) && MatchesAll(fold, ps[1..], text, m, j)
  }

  // ---- the width ------------------------------------------------------------------------------

  function Width(p: Pattern): nat
    decreases p
  {
    match p
    case Literal(runes, _) => |runes|
    case CharClass(ranges) => if |ranges| == 0 then IMPOSSIBLE else 1
    case AnyCharNotNL => 1
    case AnyChar => 1
    case Assert(_) => 0
    case EmptyMatch => 0
    case NoMatch => IMPOSSIBLE
    case Capture(sub) => Width(sub)
    case Star(_) => 0
    case Quest(_) => 0
    case Plus(sub) => Width(sub)
    case Repeat(sub, min, _) => min * Width(sub)
    case Concat(subs) => SumWidth(subs)
    case Alternate(subs) => LeastWidth(subs)
  }

  function SumWidth(ps: seq<Pattern>): nat
    decreases ps
  {
    if |ps| == 0 then 0 else Width(ps[0]) + SumWidth(ps[1..])
  }

  function LeastWidth(ps: seq<Pattern>): (n: nat)
    ensures n <= IMPOSSIBLE
    decreases ps
  {
    if |ps| == 0 then IMPOSSIBLE
    else
      var rest := LeastWidth(ps[1..]);
      if Width(ps[0]) < rest then Width(ps[0]) else rest
  }

  /** The walk over the syntax tree. */
  method MinMatchWidth(p: Pattern) returns (width: nat)
    ensures width == Width(p)
    decreases p
  {
    match p {
      case Literal(runes, _) => width := |runes|;
      case CharClass(ranges) => width := if |ranges| == 0 then IMPOSSIBLE else 1;
      case AnyCharNotNL => width := 1;
      case AnyChar => width := 1;
      case Assert(_) => width := 0;
      case EmptyMatch => width := 0;
      case NoMatch => width := IMPOSSIBLE;
      case Capture(sub) => width := MinMatchWidth(sub);
      case Star(_) => width := 0;
      case Quest(_) => width := 0;
      case Plus(sub) => width := MinMatchWidth(sub);
      case Repeat(sub, min, _) =>
        var one := MinMatchWidth(sub);
        width := min * one;
      case Concat(subs) =>
        width := 0;
        var i := 0;
        assert subs[0..] == subs;
        while i < |subs|
          invariant 0 <= i <= |subs| && SumWidth(subs) == width + SumWidth(subs[i..])
        {
          var one := MinMatchWidth(subs[i]);
          assert subs[i..][1..] == subs[i + 1..];
          width := width + one;
          i := i + 1;
        }
      case Alternate(subs) =>
        width := IMPOSSIBLE;
        var i := 0;
        assert subs[0..] == subs;
        while i < |subs|
          invariant 0 <= i <= |subs|
          invariant LeastWidth(subs) == Least(width, LeastWidth(subs[i..])) && width <= IMPOSSIBLE
        {
          var one := MinMatchWidth(subs[i]);
          assert subs[i..][1..] == subs[i + 1..];
          if one < width {
            width := one;
          }
          i := i + 1;
        }
    }
  }

  function Least(a: nat, b: nat): nat {
    if a < b then a else b
  }

  // ---- a lower bound on every match --------------------------------------------------------

  /** No match of a pattern is shorter than its width, whatever anchors and word
      boundaries it has and wherever in a text it matches. */
  lemma {:induction false} WidthIsLowerBound(fold: Folding, p: Pattern, text: seq<Rune>, i: nat, j: nat)
    requires i <= j <= |text| && Matches(fold, p, text, i, j)
    ensures j - i >= Width(p)
    decreases p, 0
  {
    match p
    case Literal(_, _) =>
    case CharClass(_) =>
    case AnyCharNotNL =>
    case AnyChar =>
    case Assert(_) =>
    case EmptyMatch =>
    case NoMatch =>
    case Capture(sub) => WidthIsLowerBound(fold, sub, text, i, j);
    case Star(_) =>
    case Quest(_) =>
    case Plus(sub) =>
      var n: nat :| n >= 1 && MatchesTimes(fold, sub, text, i, j, n);
      TimesBound(fold, sub, text, i, j, n);
      Grows(1, n, Width(sub));
    case Repeat(sub, min, max) =>
      var n: nat :| min <= n && (max < 0 || n <= max) && MatchesTimes(fold, sub, text, i, j, n);
      TimesBound(fold, sub, text, i, j, n);
      Grows(min, n, Width(sub));
    case Concat(subs) => AllBound(fold, subs, text, i, j);
    case Alternate(subs) =>
      var k :| 0 <= k < |subs| && Matches(fold, subs[k], text, i, j);
      WidthIsLowerBound(fold, subs[k], text, i, j);
      LeastIsLeast(subs, k);
  }

  lemma {:induction false} TimesBound(fold: Folding, p: Pattern, text: seq<Rune>, i: nat, j: nat, n: nat)
    requires i <= j <= |text| && MatchesTimes(fold, p, text, i, j, n)
    ensures j - i >= n * Width(p)
    decreases p, n + 1
  {
    if n > 0 {
      var m: nat :| i <= m <= j && MatchesTimes(fold, p, text, i, m, n - 1) && Matches(fold, p, text, m, j);
      TimesBound(fold, p, text, i, m, n - 1);
      WidthIsLowerBound(fold, p, text, m, j);
      OneMore(n, Width(p));
    }
  }

  lemma OneMore(n: nat, w: nat)
    requires n > 0
    ensures n * w == (n - 1) * w + w
  {}

  lemma Grows(a: nat, b: nat, w: nat)
    requires a <= b
    ensures a * w <= b * w
  {}

  lemma {:induction false} AllBound(fold: Folding, ps: seq<Pattern>, text: seq<Rune>, i: nat, j: nat)
    requires i <= j <= |text| && MatchesAll(fold, ps, text, i, j)
    ensures j - i >= SumWidth(ps)
    decreases ps, 0
  {
    if |ps| > 0 {
      var m: nat :| i <= m <= j && Matches(fold, ps[0], text, i, m) && MatchesAll(fold, ps[1..], text, m, j);
      WidthIsLowerBound(fold, ps[0], text, i, m);
      AllBound(fold, ps[1..], text, m, j);
    }
  }

  lemma {:induction false} LeastIsLeast(ps: seq<Pattern>, k: nat)
    requires k < |ps|
    ensures LeastWidth(ps) <= Width(ps[k])
  {
    if k > 0 {
      LeastIsLeast(ps[1..], k - 1);
    }
  }

  // ---- attained without assertions --------------------------------------------------------------

  predicate NoAssertions(p: Pattern)
    decreases p
  {
    match p
    case Assert(_) => false
    case Capture(sub) => NoAssertions(sub)
    case Star(sub) => NoAssertions(sub)
    case Quest(sub) => NoAssertions(sub)
    case Plus(sub) => NoAssertions(sub)
    case Repeat(sub, _, _) => NoAssertions(sub)
    case Concat(subs) => forall k :: 0 <= k < |subs| ==> NoAssertions(subs[k])
    case Alternate(subs) => forall k :: 0 <= k < |subs| ==> NoAssertions(subs[k])
    case _ => true
  }

  /** What the parser guarantees: class ranges are not empty and repeat bounds are in
      order. */
  predicate Parsed(p: Pattern)
    decreases p
  {
    match p
    case CharClass(ranges) => forall k :: 0 <= k < |ranges| ==> ranges[k].0 <= ranges[k].1
    case Capture(sub) => Parsed(sub)
    case Star(sub) => Parsed(sub)
    case Quest(sub) => Parsed(sub)
    case Plus(sub) => Parsed(sub)
    case Repeat(sub, min, max) => Parsed(sub) && (max < 0 || min <= max)
    case Concat(subs) => forall k :: 0 <= k < |subs| ==> Parsed(subs[k])
    case Alternate(subs) => forall k :: 0 <= k < |subs| ==> Parsed(subs[k])
    case _ => true
  }

  /** A text matched as a whole. */
  ghost predicate MatchesWhole(fold: Folding, p: Pattern, text: seq<Rune>) {
    Matches(fold, p, text, 0, |text|)
  }

  /** A match within a text is a match of the same runes anywhere, when no assertion
      looks around it. */
  lemma {:induction false} MatchMoves(fold: Folding, p: Pattern, a: seq<Rune>, i: nat, j: nat, b: seq<Rune>, d: int)
    requires NoAssertions(p) && i <= j <= |a| && 0 <= i + d && j + d <= |b| && a[i..j] == b[i + d..j + d]
    requires Matches(fold, p, a, i, j)
    ensures Matches(fold, p, b, i + d, j + d)
    decreases p, 0
  {
    assert forall k :: i <= k < j ==> a[k] == a[i..j][k - i] && b[k + d] == b[i + d..j + d][k - i];
    match p
    case Literal(runes, foldCase) =>
      forall k | 0 <= k < |runes|
        ensures SameRune(fold, foldCase, runes[k], b[i + d + k])
      {
        assert a[i + k] == b[i + k + d];
      }
    case CharClass(ranges) => assert a[i] == b[i + d];
    case AnyCharNotNL => assert a[i] == b[i + d];
    case AnyChar =>
    case EmptyMatch =>
    case NoMatch =>
    case Capture(sub) => MatchMoves(fold, sub, a, i, j, b, d);
    case Star(sub) =>
      var n: nat :| MatchesTimes(fold, sub, a, i, j, n);
      TimesMove(fold, sub, a, i, j, b, d, n);
    case Quest(sub) =>
      if i != j {
        MatchMoves(fold, sub, a, i, j, b, d);
      }
    case Plus(sub) =>
      var n: nat :| n >= 1 && MatchesTimes(fold, sub, a, i, j, n);
      TimesMove(fold, sub, a, i, j, b, d, n);
    case Repeat(sub, min, max) =>
      var n: nat :| min <= n && (max < 0 || n <= max) && MatchesTimes(fold, sub, a, i, j, n);
      TimesMove(fold, sub, a, i, j, b, d, n);
    case Concat(subs) => AllMove(fold, subs, a, i, j, b, d);
    case Alternate(subs) =>
      var k :| 0 <= k < |subs| && Matches(fold, subs[k], a, i, j);
      MatchMoves(fold, subs[k], a, i, j, b, d);
  }

  lemma SameParts(a: seq<Rune>, i: nat, m: nat, j: nat, b: seq<Rune>, d: int)
    requires i <= m <= j <= |a| && 0 <= i + d && j + d <= |b| && a[i..j] == b[i + d..j + d]
    ensures a[i..m] == b[i + d..m + d] && a[m..j] == b[m + d..j + d]
  {
    assert a[i..m] == a[i..j][..m - i] && b[i + d..m + d] == b[i + d..j + d][..m - i];
    assert a[m..j] == a[i..j][m - i..] && b[m + d..j + d] == b[i + d..j + d][m - i..];
  }

  lemma {:induction false} TimesMove(fold: Folding, p: Pattern, a: seq<Rune>, i: nat, j: nat, b: seq<Rune>, d: int, n: nat)
    requires NoAssertions(p) && i <= j <= |a| && 0 <= i + d && j + d <= |b| && a[i..j] == b[i + d..j + d]
    requires MatchesTimes(fold, p, a, i, j, n)
    ensures MatchesTimes(fold, p, b, i + d, j + d, n)
    decreases p, n + 1
  {
    if n > 0 {
      var m: nat :| i <= m <= j && MatchesTimes(fold, p, a, i, m, n - 1) && Matches(fold, p, a, m, j);
      SameParts(a, i, m, j, b, d);
      TimesMove(fold, p, a, i, m, b, d, n - 1);
      MatchMoves(fold, p, a, m, j, b, d);
      var there: nat := m + d;
      assert MatchesTimes(fold, p, b, i + d, there, n - 1) && Matches(fold, p, b, there, j + d);
    }
  }

  lemma {:induction false} AllMove(fold: Folding, ps: seq<Pattern>, a: seq<Rune>, i: nat, j: nat, b: seq<Rune>, d: int)
    requires (forall k :: 0 <= k < |ps| ==> NoAssertions(ps[k]))
    requires i <= j <= |a| && 0 <= i + d && j + d <= |b| && a[i..j] == b[i + d..j + d]
    requires MatchesAll(fold, ps, a, i, j)
    ensures MatchesAll(fold, ps, b, i + d, j + d)
    decreases ps, 0
  {
    if |ps| > 0 {
      var m: nat :| i <= m <= j && Matches(fold, ps[0], a, i, m) && MatchesAll(fold, ps[1..], a, m, j);
      SameParts(a, i, m, j, b, d);
      MatchMoves(fold, ps[0], a, i, m, b, d);
      AllMove(fold, ps[1..], a, m, j, b, d);
      var there: nat := m + d;
      assert Matches(fold, ps[0], b, i + d, there) && MatchesAll(fold, ps[1..], b, there, j + d);
    }
  }

  /** Without assertions, a width below the impossible one is the length of some text
      that the pattern matches. */
  lemma {:induction false} WidthIsAttained(fold: Folding, p: Pattern) returns (text: seq<Rune>)
    requires NoAssertions(p) && Parsed(p) && Width(p) < IMPOSSIBLE
    ensures |text| == Width(p) && MatchesWhole(fold, p, text)
    decreases p, 0
  {
    match p
    case Literal(runes, _) => text := runes;
    case CharClass(ranges) =>
      text := [ranges[0].0];
      assert InRange(ranges[0], text[0]);
    case AnyCharNotNL => text := [97];
    case AnyChar => text := [97];
    case EmptyMatch => text := [];
    case Capture(sub) => text := WidthIsAttained(fold, sub);
    case Star(sub) =>
      text := [];
      assert MatchesTimes(fold, sub, text, 0, 0, 0);
    case Quest(_) => text := [];
    case Plus(sub) =>
      text := TimesAttained(fold, sub, 1);
    case Repeat(sub, min, _) =>
      if min == 0 {
        text := [];
        assert MatchesTimes(fold, sub, text, 0, 0, 0);
      } else {
        Grows(1, min, Width(sub));
        text := TimesAttained(fold, sub, min);
      }
    case Concat(subs) => text := AllAttained(fold, subs);
    case Alternate(subs) =>
      var k := SomeIsLeast(subs);
      text := WidthIsAttained(fold, subs[k]);
  }

  lemma {:induction false} TimesAttained(fold: Folding, p: Pattern, n: nat) returns (text: seq<Rune>)
    requires NoAssertions(p) && Parsed(p) && Width(p) < IMPOSSIBLE
    ensures |text| == n * Width(p) && MatchesTimes(fold, p, text, 0, |text|, n)
    decreases p, n + 1
  {
    if n == 0 {
      text := [];
    } else {
      var front := TimesAttained(fold, p, n - 1);
      var last := WidthIsAttained(fold, p);
      text := front + last;
      OneMore(n, Width(p));
      TimesMove(fold, p, front, 0, |front|, text, 0, n - 1) by { assert front[..] == text[..|front|]; }
      MatchMoves(fold, p, last, 0, |last|, text, |front|) by { assert last[..] == text[|front|..]; }
      assert MatchesTimes(fold, p, text, 0, |front|, n - 1) && Matches(fold, p, text, |front|, |text|);
    }
  }

  lemma {:induction false} AllAttained(fold: Folding, ps: seq<Pattern>) returns (text: seq<Rune>)
    requires forall k :: 0 <= k < |ps| ==> NoAssertions(ps[k]) && Parsed(ps[k])
    requires SumWidth(ps) < IMPOSSIBLE
    ensures |text| == SumWidth(ps) && MatchesAll(fold, ps, text, 0, |text|)
    decreases ps, 0
  {
    if |ps| == 0 {
      text := [];
    } else {
      var first := WidthIsAttained(fold, ps[0]);
      var rest := AllAttained(fold, ps[1..]);
      text := first + rest;
      MatchMoves(fold, ps[0], first, 0, |first|, text, 0) by { assert first[..] == text[..|first|]; }
      AllMove(fold, ps[1..], rest, 0, |rest|, text, |first|) by { assert rest[..] == text[|first|..]; }
      assert Matches(fold, ps[0], text, 0, |first|) && MatchesAll(fold, ps[1..], text, |first|, |text|);
    }
  }

  lemma {:induction false} SomeIsLeast(ps: seq<Pattern>) returns (k: nat)
    requires LeastWidth(ps) < IMPOSSIBLE
    ensures k < |ps| && Width(ps[k]) == LeastWidth(ps)
  {
    if Width(ps[0]) == LeastWidth(ps) {
      k := 0;
    } else {
      k := SomeIsLeast(ps[1..]);
      k := k + 1;
    }
  }

  /** So without assertions a guard is refused for width zero exactly when its pattern
      matches the empty text. */
  lemma ZeroWidthIffMatchesEmpty(fold: Folding, p: Pattern)
    requires NoAssertions(p) && Parsed(p)
    ensures Width(p) == 0 <==> MatchesWhole(fold, p, [])
  {
    if Width(p) == 0 {
      var text := WidthIsAttained(fold, p);
      assert text == [];
    }
    if MatchesWhole(fold, p, []) {
      WidthIsLowerBound(fold, p, [], 0, 0);
    }
  }

  /** With an assertion, width zero says less: a word boundary consumes nothing, yet
      does not match the empty text. */
  lemma BoundaryNeverMatchesEmpty(fold: Folding)
    ensures Width(Assert(WordBoundary)) == 0 && !MatchesWhole(fold, Assert(WordBoundary), [])
    ensures MatchesWhole(fold, Concat([Assert(WordBoundary), Literal([97], false)]), [97])
  {
    var ps := [Assert(WordBoundary), Literal([97], false)];
    assert ps[1..] == [Literal([97], false)] && ps[1..][1..] == [];
    assert Matches(fold, ps[1], [97], 0, 1);
    assert MatchesAll(fold, ps[1..], [97], 0, 1) by {
      assert MatchesAll(fold, [], [97], 1, 1);
    }
    assert Matches(fold, ps[0], [97], 0, 0);
  }
}
