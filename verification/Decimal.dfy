/**
 Decimal rendering of naturals (`%d`, `strconv.Itoa`) and how names with a decimal tail come apart.
 A name ending in "-" and a decimal can be split again at its last dash, so candidates with
 different counters are different names whatever precedes the dash.
 */
module Decimal {

  function Digit(d: nat): (c: char)
    requires d < 10
    ensures '0' <= c <= '9' && c as int - '0' as int == d
  {
    '0' + d as char
  }

  /** `%d` of a natural number. */
  function Dec(n: nat): (s: string)
    ensures s != "" && AllDigits(s)
  {
    if n < 10 then [Digit(n)] else Dec(n / 10) + [Digit(n % 10)]
  }

  predicate AllDigits(s: string) {
    forall i :: 0 <= i < |s| ==> '0' <= s[i] <= '9'
  }

  /** The value of a digit string, as `strconv.ParseUint` accumulates it. */
  function Value(s: string): nat
    requires AllDigits(s)
  {
    if s == "" then 0 else 10 * Value(s[..|s| - 1]) + (s[|s| - 1] as int - '0' as int)
  }

  lemma {:induction false} ValueOfDec(n: nat)
    ensures Value(Dec(n)) == n
  {
    if n >= 10 {
      ValueOfDec(n / 10);
      assert Dec(n)[..|Dec(n)| - 1] == Dec(n / 10);
    } else {
      assert Dec(n)[..0] == "";
    }
  }

  lemma DecInjective(m: nat, n: nat)
    requires Dec(m) == Dec(n)
    ensures m == n
  {
    ValueOfDec(m);
    ValueOfDec(n);
  }

  /** `%03d`. */
  function Padded(n: nat): string {
    if n < 10 then "00" + Dec(n) else if n < 100 then "0" + Dec(n) else Dec(n)
  }

  lemma {:induction false} LeadingZero(s: string)
    requires AllDigits(s)
    ensures AllDigits("0" + s) && Value("0" + s) == Value(s)
  {
    assert |s| > 0 ==> ("0" + s)[..|s|] == "0" + s[..|s| - 1];
    if s != "" {
      LeadingZero(s[..|s| - 1]);
    } else {
      assert "0"[..0] == "";
    }
  }

  lemma ValueOfPadded(n: nat)
    ensures AllDigits(Padded(n)) && Value(Padded(n)) == n
  {
    ValueOfDec(n);
    LeadingZero(Dec(n));
    LeadingZero("0" + Dec(n));
    assert "00" + Dec(n) == "0" + ("0" + Dec(n));
  }

  /** Three digits up to 999, and no padding beyond. */
  lemma PaddedWidth(n: nat)
    ensures if n < 1000 then |Padded(n)| == 3 else Padded(n) == Dec(n) && |Padded(n)| > 3
  {
    assert n >= 10 ==> Dec(n) == Dec(n / 10) + [Digit(n % 10)];
    assert n >= 100 ==> Dec(n / 10) == Dec(n / 10 / 10) + [Digit(n / 10 % 10)];
    assert n >= 1000 ==> Dec(n / 10 / 10) == Dec(n / 10 / 10 / 10) + [Digit(n / 10 / 10 % 10)];
  }

  lemma PaddedInjective(m: nat, n: nat)
    requires Padded(m) == Padded(n)
    ensures m == n
  {
    ValueOfPadded(m);
    ValueOfPadded(n);
  }

  /** Where the last dash of `p-<decimal>` is. */
  ghost predicate LastDashAt(s: string, k: nat) {
    k < |s| && s[k] == '-' && forall i :: k < i < |s| ==> s[i] != '-'
  }

  lemma LastDash(p: string, m: nat)
    ensures LastDashAt(p + "-" + Dec(m), |p|)
  {
    var s := p + "-" + Dec(m);
    forall i | |p| < i < |s| ensures s[i] != '-' {
      assert s[i] == Dec(m)[i - |p| - 1];
    }
  }

  /** A name splits off uniquely from a decimal tail behind a dash. */
  lemma DashSplit(p: string, m: nat, q: string, n: nat)
    requires p + "-" + Dec(m) == q + "-" + Dec(n)
    ensures p == q && m == n
  {
    LastDash(p, m);
    LastDash(q, n);
    var a, b := p + "-" + Dec(m), q + "-" + Dec(n);
    assert |p| == |q|;
    assert p == a[..|p|] && q == b[..|q|];
    assert Dec(m) == a[|p| + 1..] && Dec(n) == b[|q| + 1..];
    DecInjective(m, n);
  }

  predicate NoDash(s: string) {
    forall i :: 0 <= i < |s| ==> s[i] != '-'
  }

  /** ... and splits at its first dash when what precedes it has none. */
  lemma FirstDashSplit(p: string, x: string, q: string, y: string)
    requires NoDash(p) && NoDash(q) && p + "-" + x == q + "-" + y
    ensures p == q && x == y
  {
    var a, b := p + "-" + x, q + "-" + y;
    assert a[|p|] == '-' && b[|q|] == '-';
    assert forall i :: 0 <= i < |p| ==> a[i] == p[i];
    assert forall i :: 0 <= i < |q| ==> b[i] == q[i];
    assert |p| == |q|;
    assert p == a[..|p|] && q == b[..|q|];
    assert x == a[|p| + 1..] && y == b[|q| + 1..];
  }

  lemma DecHasNoDash(n: nat)
    ensures NoDash(Dec(n))
  {
    assert AllDigits(Dec(n));
  }
}
