/**
 * Column statistics that pandas supplies to the analysis: sum, mean, and the
 * first-occurrence idxmax/idxmin (stock_stat.py:92-123).
 */
module Stats {

  function Abs(x: real): (r: real)
    ensures r >= 0.0 && (r == x || r == -x)
  {
    if x < 0.0 then -x else x
  }

  /** `Series.sum()`: 0 for an empty column. */
  function Sum(xs: seq<real>): real {
    if xs == [] then 0.0 else xs[0] + Sum(xs[1..])
  }

  /** `Series.mean()` of a non-empty column. */
  function Mean(xs: seq<real>): real
    requires |xs| > 0
  {
    Sum(xs) / |xs| as real
  }

  /** Index i holds the largest value, and every earlier value is strictly smaller. */
  predicate IsFirstMax(xs: seq<real>, i: int) {
    && 0 <= i < |xs|
    && (forall j :: 0 <= j < |xs| ==> xs[j] <= xs[i])
    && (forall j :: 0 <= j < i ==> xs[j] < xs[i])
  }

  /** Index i holds the smallest value, and every earlier value is strictly larger. */
  predicate IsFirstMin(xs: seq<real>, i: int) {
    && 0 <= i < |xs|
    && (forall j :: 0 <= j < |xs| ==> xs[i] <= xs[j])
    && (forall j :: 0 <= j < i ==> xs[i] < xs[j])
  }

  /** `Series.idxmax()` on a default integer index: the first position of the maximum. */
  function FirstArgMax(xs: seq<real>): (i: nat)
    requires |xs| > 0
    ensures IsFirstMax(xs, i)
  {
    if |xs| == 1 then 0
    else
      var k := FirstArgMax(xs[..|xs| - 1]);
      if xs[|xs| - 1] > xs[k] then |xs| - 1 else k
  }

  /** `Series.idxmin()` on a default integer index: the first position of the minimum. */
  function FirstArgMin(xs: seq<real>): (i: nat)
    requires |xs| > 0
    ensures IsFirstMin(xs, i)
  {
    if |xs| == 1 then 0
    else
      var k := FirstArgMin(xs[..|xs| - 1]);
      if xs[|xs| - 1] < xs[k] then |xs| - 1 else k
  }

  /** `Series.min()` of a non-empty column. */
  function MinOf(xs: seq<real>): (m: real)
    requires |xs| > 0
    ensures m in xs
    ensures forall j :: 0 <= j < |xs| ==> m <= xs[j]
  {
    if |xs| == 1 then xs[0]
    else
      var m := MinOf(xs[1..]);
      if xs[0] <= m then xs[0] else m
  }

  /** `Series.max()` of a non-empty column. */
  function MaxOf(xs: seq<real>): (m: real)
    requires |xs| > 0
    ensures m in xs
    ensures forall j :: 0 <= j < |xs| ==> xs[j] <= m
  {
    if |xs| == 1 then xs[0]
    else
      var m := MaxOf(xs[1..]);
      if xs[0] >= m then xs[0] else m
  }

  lemma {:induction false} SumNonNegative(xs: seq<real>)
    requires forall j :: 0 <= j < |xs| ==> xs[j] >= 0.0
    ensures Sum(xs) >= 0.0
  {
    if xs != [] {
      SumNonNegative(xs[1..]);
    }
  }

  /** A column of non-negative values sums to 0 only when every value is 0. */
  lemma {:induction false} ZeroSumOfNonNegative(xs: seq<real>)
    requires forall j :: 0 <= j < |xs| ==> xs[j] >= 0.0
    requires Sum(xs) == 0.0
    ensures forall j :: 0 <= j < |xs| ==> xs[j] == 0.0
  {
    if xs != [] {
      SumNonNegative(xs[1..]);
      ZeroSumOfNonNegative(xs[1..]);
      assert forall j :: 1 <= j < |xs| ==> xs[j] == xs[1..][j - 1];
    }
  }

  /** The mean lies between the smallest and the largest value. */
  lemma {:induction false} MeanBetweenBounds(xs: seq<real>)
    requires |xs| > 0
    ensures MinOf(xs) <= Mean(xs) <= MaxOf(xs)
  {
    var n := |xs| as real;
    SumBounds(xs, MinOf(xs), MaxOf(xs));
    QuotientBounds(Sum(xs), n, MinOf(xs), MaxOf(xs));
  }

  lemma QuotientBounds(s: real, n: real, lo: real, hi: real)
    requires n > 0.0 && n * lo <= s <= n * hi
    ensures lo <= s / n <= hi
  {
    assert s / n * n == s;
    assert (s / n - lo) * n >= 0.0;
    assert (hi - s / n) * n >= 0.0;
  }

  lemma {:induction false} SumBounds(xs: seq<real>, lo: real, hi: real)
    requires forall j :: 0 <= j < |xs| ==> lo <= xs[j] <= hi
    ensures |xs| as real * lo <= Sum(xs) <= |xs| as real * hi
  {
    if xs != [] {
      SumBounds(xs[1..], lo, hi);
    }
  }
}
