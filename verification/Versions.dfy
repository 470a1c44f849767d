/**
  The order of release versions (internal/selfupdate/version.go), after section 11
  of Semantic Versioning 2.0.0.
 */
module Versions {
  import opened Wrappers

  /** A parsed version; an empty pre-release is none. */
  datatype Version = Version(major: nat, minor: nat, patch: nat, preRelease: string)

  function Cmp(a: int, b: int): int {
    if a < b then -1 else if a > b then 1 else 0
  }

  /** Byte order. */
  function Lex(a: string, b: string): int {
    if |a| == 0 then Cmp(0, |b|)
    else if |b| == 0 then 1
    else if a[0] != b[0] then Cmp(a[0] as int, b[0] as int)
    else Lex(a[1..], b[1..])
  }

  predicate IsDigit(c: char) {
    '0' <= c <= '9'
  }

  predicate IsNumeric(s: string) {
    s != "" && forall i :: 0 <= i < |s| ==> IsDigit(s[i])
  }

  function TrimZeros(s: string): string {
    if |s| > 0 && s[0] == '0' then TrimZeros(s[1..]) else s
  }

  function CompareIdent(a: string, b: string): int {
    if IsNumeric(a) && IsNumeric(b) then
      var x, y := TrimZeros(a), TrimZeros(b);
      if |x| != |y| then Cmp(|x|, |y|) else Lex(x, y)
    else if IsNumeric(a) then -1
    else if IsNumeric(b) then 1
    else Lex(a, b)
  }

  /** The identifiers between dots. */
  function Split(s: string): (parts: seq<string>)
    ensures |parts| > 0
  {
    if |s| == 0 then [""]
    else
      var rest := Split(s[1..]);
      if s[0] == '.' then [""] + rest else [[s[0]] + rest[0]] + rest[1..]
  }

  function CompareLists(a: seq<string>, b: seq<string>): int {
    if |a| == 0 || |b| == 0 then Cmp(|a|, |b|)
    else if CompareIdent(a[0], b[0]) != 0 then CompareIdent(a[0], b[0])
    else CompareLists(a[1..], b[1..])
  }

  function ComparePreRelease(a: string, b: string): int {
    if a == b then 0
    else if a == "" then 1
    else if b == "" then -1
    else CompareLists(Split(a), Split(b))
  }

  function Compare(a: Version, b: Version): int {
    if a.major != b.major then Cmp(a.major, b.major)
    else if a.minor != b.minor then Cmp(a.minor, b.minor)
    else if a.patch != b.patch then Cmp(a.patch, b.patch)
    else ComparePreRelease(a.preRelease, b.preRelease)
  }

  // ---- numeric identifiers --------------------------------------------------------------------

  function Pow10(n: nat): (p: nat)
    ensures p >= 1
  {
    if n == 0 then 1 else 10 * Pow10(n - 1)
  }

  predicate Digits(s: string) {
    forall i :: 0 <= i < |s| ==> IsDigit(s[i])
  }

  function DigitValue(c: char): (d: nat)
    requires IsDigit(c)
    ensures d <= 9
  {
    c as int - '0' as int
  }

  /** The number a digit string stands for. */
  function Value(s: string): nat
    requires Digits(s)
  {
    if |s| == 0 then 0 else DigitValue(s[0]) * Pow10(|s| - 1) + Value(s[1..])
  }

  lemma {:induction false} ValueBound(s: string)
    requires Digits(s)
    ensures Value(s) < Pow10(|s|)
  {
    if |s| > 0 {
      ValueBound(s[1..]);
      Scale(DigitValue(s[0]), 9, Pow10(|s| - 1));
    }
  }

  lemma Scale(a: nat, b: nat, p: nat)
    requires a <= b
    ensures a * p <= b * p
  {}

  lemma {:induction false} TrimKeepsValue(s: string)
    requires Digits(s)
    ensures Digits(TrimZeros(s)) && Value(TrimZeros(s)) == Value(s)
    ensures TrimZeros(s) == "" || TrimZeros(s)[0] != '0'
  {
    if |s| > 0 && s[0] == '0' {
      TrimKeepsValue(s[1..]);
    }
  }

  lemma {:induction false} Pow10Grows(m: nat, n: nat)
    requires m <= n
    ensures Pow10(m) <= Pow10(n)
  {
    if m < n {
      Pow10Grows(m, n - 1);
    }
  }

  /** Without leading zeros, more digits mean a larger number. */
  lemma LongerIsLarger(x: string, y: string)
    requires Digits(x) && Digits(y) && |x| < |y| && y[0] != '0'
    ensures Value(x) < Value(y)
  {
    ValueBound(x);
    Pow10Grows(|x|, |y| - 1);
    Scale(1, DigitValue(y[0]), Pow10(|y| - 1));
  }

  lemma FirstDigitDecides(x: string, y: string)
    requires Digits(x) && Digits(y) && |x| == |y| > 0 && x[0] < y[0]
    ensures Value(x) < Value(y)
  {
    var p := Pow10(|x| - 1);
    var d, e := DigitValue(x[0]), DigitValue(y[0]);
    ValueBound(x[1..]);
    Scale(d + 1, e, p);
    Distribute(d, p);
    assert Value(x) == d * p + Value(x[1..]) && Value(y) == e * p + Value(y[1..]);
  }

  lemma Distribute(d: nat, p: nat)
    ensures (d + 1) * p == d * p + p
  {}

  /** Of equally many digits, byte order is the order of the numbers. */
  lemma {:induction false} SameLengthByValue(x: string, y: string)
    requires Digits(x) && Digits(y) && |x| == |y|
    ensures Lex(x, y) == Cmp(Value(x), Value(y))
  {
    if |x| > 0 {
      hide Pow10;
      if x[0] < y[0] {
        hide Value;
        FirstDigitDecides(x, y);
      } else if y[0] < x[0] {
        hide Value;
        FirstDigitDecides(y, x);
      } else {
        SameLengthByValue(x[1..], y[1..]);
      }
    }
  }

  /** Numeric identifiers of any length, leading zeros or not, compare as integers. */
  lemma NumericByValue(a: string, b: string)
    requires IsNumeric(a) && IsNumeric(b)
    ensures CompareIdent(a, b) == Cmp(Value(a), Value(b))
  {
    TrimKeepsValue(a);
    TrimKeepsValue(b);
    var x, y := TrimZeros(a), TrimZeros(b);
    if |x| < |y| {
      LongerIsLarger(x, y);
    } else if |y| < |x| {
      LongerIsLarger(y, x);
    } else {
      SameLengthByValue(x, y);
    }
  }

  // ---- the order ------------------------------------------------------------------------------

  /** What comparing x with z must be, given x with y and y with z. */
  predicate Chains(xy: int, yz: int, xz: int) {
    && (xy <= 0 && yz <= 0 ==> xz <= 0)
    && (xy >= 0 && yz >= 0 ==> xz >= 0)
    && (xy == 0 && yz == 0 ==> xz == 0)
    && (xy < 0 && yz <= 0 ==> xz < 0)
    && (xy <= 0 && yz < 0 ==> xz < 0)
    && (xy > 0 && yz >= 0 ==> xz > 0)
    && (xy >= 0 && yz > 0 ==> xz > 0)
  }

  lemma {:induction false} LexSign(a: string, b: string)
    ensures Lex(a, b) == -Lex(b, a) && -1 <= Lex(a, b) <= 1
    ensures Lex(a, b) == 0 <==> a == b
  {
    if |a| > 0 && |b| > 0 && a[0] == b[0] {
      LexSign(a[1..], b[1..]);
      assert a == [a[0]] + a[1..] && b == [b[0]] + b[1..];
    }
  }

  lemma {:induction false} LexChains(a: string, b: string, c: string)
    ensures Chains(Lex(a, b), Lex(b, c), Lex(a, c))
  {
    if |a| > 0 && |b| > 0 && |c| > 0 {
      LexChains(a[1..], b[1..], c[1..]);
    }
  }

  lemma IdentSign(a: string, b: string)
    ensures CompareIdent(a, b) == -CompareIdent(b, a) && -1 <= CompareIdent(a, b) <= 1
  {
    LexSign(a, b);
    LexSign(TrimZeros(a), TrimZeros(b));
  }

  lemma IdentChains(a: string, b: string, c: string)
    ensures Chains(CompareIdent(a, b), CompareIdent(b, c), CompareIdent(a, c))
  {
    hide Lex, TrimZeros;
    if IsNumeric(a) && IsNumeric(b) && IsNumeric(c) {
      NumericByValue(a, b);
      NumericByValue(b, c);
      NumericByValue(a, c);
    } else {
      if IsNumeric(a) && IsNumeric(b) {
        IdentSign(a, b);
      }
      if IsNumeric(b) && IsNumeric(c) {
        IdentSign(b, c);
      }
      if IsNumeric(a) && IsNumeric(c) {
        IdentSign(a, c);
      }
      LexChains(a, b, c);
    }
  }

  lemma {:induction false} ListSign(a: seq<string>, b: seq<string>)
    ensures CompareLists(a, b) == -CompareLists(b, a) && -1 <= CompareLists(a, b) <= 1
  {
    hide CompareIdent;
    if |a| > 0 && |b| > 0 {
      IdentSign(a[0], b[0]);
      ListSign(a[1..], b[1..]);
    }
  }

  lemma {:induction false} ListChains(a: seq<string>, b: seq<string>, c: seq<string>)
    ensures Chains(CompareLists(a, b), CompareLists(b, c), CompareLists(a, c))
  {
    hide CompareIdent;
    if |a| > 0 && |b| > 0 && |c| > 0 {
      IdentChains(a[0], b[0], c[0]);
      ListChains(a[1..], b[1..], c[1..]);
    }
  }

  lemma {:induction false} ListSelf(a: seq<string>)
    ensures CompareLists(a, a) == 0
  {
    hide CompareIdent;
    if |a| > 0 {
      IdentSign(a[0], a[0]);
      ListSelf(a[1..]);
    }
  }

  lemma PreReleaseSign(a: string, b: string)
    ensures ComparePreRelease(a, b) == -ComparePreRelease(b, a) && -1 <= ComparePreRelease(a, b) <= 1
  {
    hide CompareLists;
    ListSign(Split(a), Split(b));
  }

  lemma PreReleaseChains(a: string, b: string, c: string)
    ensures Chains(ComparePreRelease(a, b), ComparePreRelease(b, c), ComparePreRelease(a, c))
  {
    hide CompareLists, Split;
    var x, y, z := Split(a), Split(b), Split(c);
    ListChains(x, y, z);
    ListSelf(x);
    ListSelf(y);
    ListSelf(z);
    PreReleaseSign(a, b);
    PreReleaseSign(b, c);
    PreReleaseSign(a, c);
  }

  /** Swapping the versions flips the sign, and only that. */
  lemma CompareSign(a: Version, b: Version)
    ensures Compare(a, b) == -Compare(b, a) && -1 <= Compare(a, b) <= 1
  {
    hide ComparePreRelease;
    PreReleaseSign(a.preRelease, b.preRelease);
  }

  /** The comparison is transitive, strictly so when either step is strict; with
      CompareSign it is a total preorder. */
  lemma CompareChains(a: Version, b: Version, c: Version)
    ensures Chains(Compare(a, b), Compare(b, c), Compare(a, c))
  {
    hide ComparePreRelease;
    PreReleaseChains(a.preRelease, b.preRelease, c.preRelease);
  }

  // ---- precedence ---------------------------------------------------------------------------

  /** The first place where two lists differ decides: the one that ends there comes before
      the one that goes on. */
  ghost predicate LexBefore(a: string, b: string) {
    exists k :: 0 <= k <= |a| && k <= |b| && FirstDifference(a, b, k)
  }

  predicate FirstDifference(a: string, b: string, k: nat)
    requires k <= |a| && k <= |b|
  {
    a[..k] == b[..k] && ((k == |a| && k < |b|) || (k < |a| && k < |b| && a[k] < b[k]))
  }

  lemma CommonHead(a: string, b: string, k: nat)
    requires k <= |a| && k <= |b| && a[..k] == b[..k]
    ensures k > 0 ==> a[0] == b[0]
  {
    if k > 0 {
      assert a[..k][0] == b[..k][0];
    }
  }

  lemma {:induction false} LexIsOrder(a: string, b: string)
    ensures Lex(a, b) < 0 <==> LexBefore(a, b)
  {
    if |a| == 0 || |b| == 0 || a[0] != b[0] {
      if Lex(a, b) < 0 {
        assert FirstDifference(a, b, 0);
      }
      if LexBefore(a, b) {
        var k :| 0 <= k <= |a| && k <= |b| && FirstDifference(a, b, k);
        CommonHead(a, b, k);
      }
    } else {
      LexIsOrder(a[1..], b[1..]);
      if LexBefore(a[1..], b[1..]) {
        var k :| 0 <= k <= |a[1..]| && k <= |b[1..]| && FirstDifference(a[1..], b[1..], k);
        assert a[..k + 1] == [a[0]] + a[1..][..k] && b[..k + 1] == [b[0]] + b[1..][..k];
        assert FirstDifference(a, b, k + 1);
      }
      if LexBefore(a, b) {
        var k :| 0 <= k <= |a| && k <= |b| && FirstDifference(a, b, k);
        assert k > 0;
        assert a[1..][..k - 1] == a[..k][1..] && b[1..][..k - 1] == b[..k][1..];
        assert FirstDifference(a[1..], b[1..], k - 1);
      }
    }
  }

  /** Section 11.4 of Semantic Versioning 2.0.0: identifiers of digits only compare as
      numbers, others in ASCII order, and the former come before the latter. */
  ghost predicate IdentBefore(a: string, b: string) {
    if IsNumeric(a) && IsNumeric(b) then Value(a) < Value(b)
    else if IsNumeric(a) || IsNumeric(b) then IsNumeric(a)
    else LexBefore(a, b)
  }

  predicate SameRank(a: string, b: string) {
    if IsNumeric(a) && IsNumeric(b) then Value(a) == Value(b) else a == b
  }

  lemma IdentIsOrder(a: string, b: string)
    ensures CompareIdent(a, b) < 0 <==> IdentBefore(a, b)
    ensures CompareIdent(a, b) == 0 <==> SameRank(a, b)
  {
    hide Lex, TrimZeros, LexBefore;
    if IsNumeric(a) && IsNumeric(b) {
      NumericByValue(a, b);
    } else {
      LexIsOrder(a, b);
      LexSign(a, b);
    }
  }

  /** The first identifiers that differ decide; where all that both have are equal, the
      longer list comes later. */
  ghost predicate ListBefore(a: seq<string>, b: seq<string>) {
    exists k :: 0 <= k <= |a| && k <= |b| && DecidedAt(a, b, k)
  }

  ghost predicate DecidedAt(a: seq<string>, b: seq<string>, k: nat)
    requires k <= |a| && k <= |b|
  {
    (forall i :: 0 <= i < k ==> SameRank(a[i], b[i]))
    && ((k == |a| && k < |b|) || (k < |a| && k < |b| && IdentBefore(a[k], b[k])))
  }

  lemma {:induction false} ListIsOrder(a: seq<string>, b: seq<string>)
    ensures CompareLists(a, b) < 0 <==> ListBefore(a, b)
  {
    hide CompareIdent, IdentBefore, SameRank;
    if |a| > 0 && |b| > 0 {
      IdentIsOrder(a[0], b[0]);
    }
    if |a| == 0 || |b| == 0 || CompareIdent(a[0], b[0]) != 0 {
      if CompareLists(a, b) < 0 {
        assert DecidedAt(a, b, 0);
      }
      if ListBefore(a, b) {
        var k :| 0 <= k <= |a| && k <= |b| && DecidedAt(a, b, k);
        assert k == 0;
      }
    } else {
      ListIsOrder(a[1..], b[1..]);
      if ListBefore(a[1..], b[1..]) {
        var k :| 0 <= k <= |a[1..]| && k <= |b[1..]| && DecidedAt(a[1..], b[1..], k);
        forall i | 0 <= i < k + 1 ensures SameRank(a[i], b[i]) {
          assert i > 0 ==> a[i] == a[1..][i - 1] && b[i] == b[1..][i - 1];
        }
        assert DecidedAt(a, b, k + 1);
      }
      if ListBefore(a, b) {
        var k :| 0 <= k <= |a| && k <= |b| && DecidedAt(a, b, k);
        assert k > 0;
        assert DecidedAt(a[1..], b[1..], k - 1);
      }
    }
  }

  /** The parts, written with a dot between each two. */
  function Joined(parts: seq<string>): string {
    if |parts| == 0 then "" else if |parts| == 1 then parts[0] else parts[0] + "." + Joined(parts[1..])
  }

  /** A pre-release is split at its dots, and at nothing else. */
  lemma {:induction false} SplitIsExact(s: string)
    ensures Joined(Split(s)) == s && forall i :: 0 <= i < |Split(s)| ==> '.' !in Split(s)[i]
  {
    if |s| > 0 {
      SplitIsExact(s[1..]);
      var rest := Split(s[1..]);
      assert s == [s[0]] + s[1..];
      if s[0] == '.' {
        assert Split(s)[1..] == rest;
      } else if |rest| > 1 {
        assert Split(s)[1..] == rest[1..];
        assert Joined(Split(s)) == [s[0]] + Joined(rest);
      }
    }
  }

  /** Section 11: major, minor and patch decide in this order, as numbers. With all three
      equal a pre-release comes before the release, and two pre-releases are decided by
      their identifiers. */
  ghost predicate Precedes(a: Version, b: Version) {
    || a.major < b.major
    || (a.major == b.major && a.minor < b.minor)
    || (a.major == b.major && a.minor == b.minor && a.patch < b.patch)
    || ((a.major, a.minor, a.patch) == (b.major, b.minor, b.patch)
        && a.preRelease != "" && (b.preRelease == "" || ListBefore(Split(a.preRelease), Split(b.preRelease))))
  }

  /** The comparison is that precedence, for all versions. */
  lemma CompareIsPrecedence(a: Version, b: Version)
    ensures Compare(a, b) < 0 <==> Precedes(a, b)
  {
    hide CompareLists, Split, ListBefore;
    ListIsOrder(Split(a.preRelease), Split(b.preRelease));
    ListSelf(Split(a.preRelease));
  }

  /** It is no order on the texts: versions that differ only in the leading zeros of
      an identifier compare equal. */
  lemma LeadingZerosCompareEqual()
    ensures Compare(Version(1, 0, 0, "01"), Version(1, 0, 0, "1")) == 0
  {
    DotlessSplit("01");
    DotlessSplit("1");
    assert "01"[1..] == "1" && "1"[1..] == "";
    assert TrimZeros("01") == "1" && TrimZeros("1") == "1";
    LexSign("1", "1");
    assert CompareIdent("01", "1") == 0;
    assert ["01"][1..] == [] && ["1"][1..] == [];
  }

  lemma {:induction false} DotlessSplit(s: string)
    requires '.' !in s
    ensures Split(s) == [s]
  {
    if |s| > 0 {
      DotlessSplit(s[1..]);
      assert s == [s[0]] + s[1..];
    }
  }
}
