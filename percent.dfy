/** Integer share arithmetic used by the three beneficiary editors and the game scores. */
module Percent {

  /** `Math.round(n / d)` on the exact rational n/d: the nearest integer, ties rounded up. */
  function RoundDiv(n: int, d: int): (r: int)
    requires d != 0
    ensures d > 0 ==> 2 * d * r - d <= 2 * n < 2 * d * r + d
    ensures d < 0 ==> 2 * (-d) * r + d <= -2 * n < 2 * (-d) * r - d
  {
    if d > 0 then RoundPos(n, d) else RoundPos(-n, -d)
  }

  function RoundPos(n: int, d: int): (r: int)
    requires d > 0
    ensures 2 * d * r - d <= 2 * n < 2 * d * r + d
  {
    var q := (2 * n + d) / (2 * d);
    DivBounds(2 * n + d, 2 * d);
    q
  }

  lemma DivBounds(a: int, b: int)
    requires b > 0
    ensures b * (a / b) <= a < b * (a / b) + b
  {
  }

  /** A whole number divided exactly rounds to itself. */
  lemma {:induction false} RoundDivExact(k: int, d: int)
    requires d > 0
    ensures RoundDiv(k * d, d) == k
  {
    var r := RoundDiv(k * d, d);
    assert 2 * d * r - d <= 2 * (k * d) < 2 * d * r + d;
    assert 2 * d * r - 2 * (k * d) == 2 * d * (r - k);
    OnlyZeroInHalfWindow(r - k, d);
  }

  /** Rounding is monotone in the numerator. */
  lemma {:induction false} RoundDivMono(a: int, b: int, d: int)
    requires d > 0 && a <= b
    ensures RoundDiv(a, d) <= RoundDiv(b, d)
  {
    var ra, rb := RoundDiv(a, d), RoundDiv(b, d);
    assert 2 * d * ra - d <= 2 * a && 2 * b < 2 * d * rb + d;
    assert 2 * d * ra - 2 * d * rb == 2 * d * (ra - rb);
    if ra - rb >= 1 {
      MulAtLeast(ra - rb, d);
    }
  }

  lemma MulAtLeast(x: int, d: int)
    requires x >= 1 && d > 0
    ensures d * x >= d
  {
    assert d * x == d + d * (x - 1);
  }

  /** The only multiple x of 2d with -d < 2dx <= d is zero. */
  lemma OnlyZeroInHalfWindow(x: int, d: int)
    requires d > 0 && -d < 2 * d * x <= d
    ensures x == 0
  {
    if x >= 1 {
      MulAtLeast(x, d);
    } else if x <= -1 {
      MulAtLeast(-x, d);
    }
  }

  /** `Math.max(0, Math.min(100, x))` on a whole number. */
  function Clamp(x: int): (r: int)
    ensures 0 <= r <= 100
    ensures 0 <= x <= 100 ==> r == x
    ensures x < 0 ==> r == 0
    ensures x > 100 ==> r == 100
  {
    if x < 0 then 0 else if x > 100 then 100 else x
  }

  /** The total of a list of integers (`reduce((s, x) => s + x, 0)`). */
  function Sum(s: seq<int>): int
  {
    if s == [] then 0 else s[0] + Sum(s[1..])
  }

  lemma {:induction false} SumAppend(a: seq<int>, b: seq<int>)
    ensures Sum(a + b) == Sum(a) + Sum(b)
  {
    if a == [] {
      assert a + b == b;
    } else {
      assert (a + b)[1..] == a[1..] + b;
      SumAppend(a[1..], b);
    }
  }

  lemma {:induction false} SumUpdate(s: seq<int>, i: int, x: int)
    requires 0 <= i < |s|
    ensures Sum(s[i := x]) == Sum(s) - s[i] + x
  {
    if i == 0 {
      assert s[i := x][1..] == s[1..];
    } else {
      assert s[i := x][1..] == s[1..][i - 1 := x];
      SumUpdate(s[1..], i - 1, x);
    }
  }

  lemma {:induction false} SumInsert(s: seq<int>, i: int, x: int)
    requires 0 <= i <= |s|
    ensures Sum(s[..i] + [x] + s[i..]) == Sum(s) + x
  {
    SumAppend(s[..i] + [x], s[i..]);
    SumAppend(s[..i], [x]);
    SumAppend(s[..i], s[i..]);
    assert s[..i] + s[i..] == s;
    assert Sum([x]) == x + Sum([]);
  }

  /** A list of zeros sums to zero. */
  lemma {:induction false} SumZeros(s: seq<int>)
    requires forall k :: 0 <= k < |s| ==> s[k] == 0
    ensures Sum(s) == 0
  {
    if s != [] {
      SumZeros(s[1..]);
    }
  }

  /** A list of non-negative numbers that sums to zero is all zeros. */
  lemma {:induction false} SumNonNegZero(s: seq<int>)
    requires forall k :: 0 <= k < |s| ==> s[k] >= 0
    ensures Sum(s) >= 0
    ensures Sum(s) == 0 ==> forall k :: 0 <= k < |s| ==> s[k] == 0
  {
    if s != [] {
      SumNonNegZero(s[1..]);
      assert forall k :: 1 <= k < |s| ==> s[k] == s[1..][k - 1];
    }
  }
}
