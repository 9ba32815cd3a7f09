/**
 * `get_oi_range` (stock_stat.py:53-65): sort the rows by strike, take the
 * running total of open interest, keep the rows whose running total is at most
 * `threshold` times the total, and return the smallest and largest kept strike.
 * When no row is kept pandas returns NaN for both; here that is None.
 */
module OiRange {
  import opened Wrappers
  import opened Stats
  import opened Table

  datatype StrikeRange = StrikeRange(low: real, high: real)

  /** `Series.cumsum()` added to a starting total `acc`. */
  function RunningSums(acc: real, xs: seq<real>): (r: seq<real>)
    ensures |r| == |xs|
    ensures forall i :: 0 <= i < |xs| ==> r[i] == acc + Sum(xs[..i + 1])
    decreases xs
  {
    if xs == [] then []
    else
      assert forall i :: 0 < i < |xs| ==> xs[..i + 1][1..] == xs[1..][..i];
      [acc + xs[0]] + RunningSums(acc + xs[0], xs[1..])
  }

  predicate NonDecreasing(xs: seq<real>) {
    forall i, j :: 0 <= i < j < |xs| ==> xs[i] <= xs[j]
  }

  predicate NoNegativeOpenInterest(rows: seq<Quote>) {
    forall q | q in rows :: q.openInterest >= 0.0
  }

  /** `df_sorted[df_sorted["OI_Cumsum"] <= bound]`, in order. */
  function Kept(rows: seq<Quote>, sums: seq<real>, bound: real): (k: seq<Quote>)
    requires |rows| == |sums|
    ensures |k| <= |rows|
    ensures forall q | q in k :: q in rows
  {
    if rows == [] then []
    else (if sums[0] <= bound then [rows[0]] else []) + Kept(rows[1..], sums[1..], bound)
  }

  /** `total_oi * threshold` (lines 59 and 62). */
  function Cutoff(totalOi: real, threshold: real): real {
    totalOi * threshold
  }

  lemma CutoffBelowTotal(totalOi: real, threshold: real)
    requires totalOi > 0.0 && threshold < 1.0
    ensures Cutoff(totalOi, threshold) < totalOi
  {
    assert totalOi - totalOi * threshold == totalOi * (1.0 - threshold);
  }

  /** The rows of the strike-sorted table that pass the cumulative filter (lines 58-62). */
  function KeptRows(sorted: seq<Quote>, threshold: real): (k: seq<Quote>)
    ensures forall q | q in k :: q in sorted
  {
    var oi := OpenInterests(sorted);
    Kept(sorted, RunningSums(0.0, oi), Cutoff(Sum(oi), threshold))
  }

  /** Lines 57-65 for one given ascending order of the rows. */
  function OiRangeOf(sorted: seq<Quote>, threshold: real): Option<StrikeRange> {
    var kept := KeptRows(sorted, threshold);
    if kept == [] then None
    else Some(StrikeRange(MinOf(Strikes(kept)), MaxOf(Strikes(kept))))
  }

  /**
   * `get_oi_range(df, threshold)`. The sort of the source is not stable; this
   * function fixes one order among equal strikes, and the lemmas below hold for
   * every ascending order.
   */
  function GetOiRange(rows: seq<Quote>, threshold: real): Option<StrikeRange> {
    OiRangeOf(SortByStrike(rows), threshold)
  }

  /**
   * What `get_oi_range` returns: with no negative open interest, a range that
   * starts at the chain's smallest strike and ends at a strike of the chain;
   * with no open interest at all, the chain's whole strike range.
   */
  lemma GetOiRangeBounds(rows: seq<Quote>, threshold: real)
    ensures NoNegativeOpenInterest(rows) && GetOiRange(rows, threshold).Some? ==>
      var r := GetOiRange(rows, threshold).value;
      && r.low <= r.high
      && (forall i :: 0 <= i < |rows| ==> r.low <= rows[i].strike)
      && (exists i :: 0 <= i < |rows| && rows[i].strike == r.low)
      && (exists j :: 0 <= j < |rows| && rows[j].strike == r.high)
    ensures |rows| > 0 && (forall i :: 0 <= i < |rows| ==> rows[i].openInterest == 0.0) ==>
      GetOiRange(rows, threshold) == Some(StrikeRange(MinOf(Strikes(rows)), MaxOf(Strikes(rows))))
  {
    var sorted := SortByStrike(rows);
    if NoNegativeOpenInterest(rows) {
      OiRangeOfAnyOrder(rows, sorted, threshold);
    }
    if |rows| > 0 && (forall i :: 0 <= i < |rows| ==> rows[i].openInterest == 0.0) {
      assert forall q | q in sorted :: q.openInterest == 0.0 by {
        forall q | q in sorted ensures q.openInterest == 0.0 {
          assert q in multiset(rows);
        }
      }
      ZeroOpenInterestKeepsAll(sorted, threshold);
      SameStrikeBounds(rows, sorted);
    }
  }

  /** With no negative open interest the running totals never decrease. */
  lemma {:induction false} RunningSumsMonotone(acc: real, xs: seq<real>)
    requires forall i :: 0 <= i < |xs| ==> xs[i] >= 0.0
    ensures NonDecreasing(RunningSums(acc, xs))
    ensures forall i :: 0 <= i < |xs| ==> acc <= RunningSums(acc, xs)[i]
    decreases xs
  {
    if xs != [] {
      RunningSumsMonotone(acc + xs[0], xs[1..]);
      var r := RunningSums(acc, xs);
      assert r[1..] == RunningSums(acc + xs[0], xs[1..]);
    }
  }

  /** A filter by `sums[i] <= bound` over non-decreasing sums keeps a prefix. */
  lemma {:induction false} KeptIsPrefix(rows: seq<Quote>, sums: seq<real>, bound: real)
    requires |rows| == |sums| && NonDecreasing(sums)
    ensures Kept(rows, sums, bound) == rows[..|Kept(rows, sums, bound)|]
    ensures forall i :: 0 <= i < |rows| ==> (i < |Kept(rows, sums, bound)| <==> sums[i] <= bound)
  {
    if rows != [] {
      KeptIsPrefix(rows[1..], sums[1..], bound);
      var rest := Kept(rows[1..], sums[1..], bound);
      if sums[0] <= bound {
        assert [rows[0]] + rows[1..][..|rest|] == rows[..|rest| + 1];
      } else if |rows| > 1 {
        assert sums[1..][0] > bound;
      }
    }
  }

  /**
   * The kept rows are a prefix of the strike-sorted table: exactly the rows
   * whose running total of open interest is within `threshold` of the total.
   */
  lemma KeptRowsArePrefix(sorted: seq<Quote>, threshold: real)
    requires NoNegativeOpenInterest(sorted)
    ensures KeptRows(sorted, threshold) == sorted[..|KeptRows(sorted, threshold)|]
    ensures forall i :: 0 <= i < |sorted| ==>
      (i < |KeptRows(sorted, threshold)| <==>
       RunningSums(0.0, OpenInterests(sorted))[i] <= Cutoff(Sum(OpenInterests(sorted)), threshold))
  {
    var oi := OpenInterests(sorted);
    assert forall i :: 0 <= i < |oi| ==> oi[i] >= 0.0 by {
      forall i | 0 <= i < |oi| ensures oi[i] >= 0.0 {
        assert sorted[i] in sorted;
      }
    }
    RunningSumsMonotone(0.0, oi);
    KeptIsPrefix(sorted, RunningSums(0.0, oi), Cutoff(Sum(oi), threshold));
  }

  /**
   * For ANY ascending order of the rows by strike: when a row is kept, the
   * range starts at the chain's smallest strike, low <= high, and both ends
   * are strikes of the chain.
   */
  lemma OiRangeOfAnyOrder(rows: seq<Quote>, sorted: seq<Quote>, threshold: real)
    requires SortedByStrike(sorted) && multiset(sorted) == multiset(rows)
    requires NoNegativeOpenInterest(rows)
    ensures OiRangeOf(sorted, threshold).Some? ==>
      var r := OiRangeOf(sorted, threshold).value;
      && r.low == sorted[0].strike
      && r.low <= r.high
      && (forall i :: 0 <= i < |rows| ==> r.low <= rows[i].strike)
      && (exists i :: 0 <= i < |rows| && rows[i].strike == r.low)
      && (exists j :: 0 <= j < |rows| && rows[j].strike == r.high)
  {
    SameRows(rows, sorted);
    assert NoNegativeOpenInterest(sorted);
    KeptRowsArePrefix(sorted, threshold);
    var kept := KeptRows(sorted, threshold);
    if kept != [] {
      PrefixRange(sorted, kept);
      var lo := sorted[0].strike;
      forall i | 0 <= i < |rows| ensures lo <= rows[i].strike {
        assert rows[i] in sorted;
        var j :| 0 <= j < |sorted| && sorted[j] == rows[i];
        assert j == 0 || sorted[0].strike <= sorted[j].strike;
      }
      assert sorted[0] in rows;
      var a :| 0 <= a < |rows| && rows[a] == sorted[0];
      var k :| 0 <= k < |sorted| && sorted[k].strike == MaxOf(Strikes(kept));
      assert sorted[k] in rows;
      var b :| 0 <= b < |rows| && rows[b] == sorted[k];
    }
  }

  /** Two orders of the same rows hold the same rows. */
  lemma SameRows(rows: seq<Quote>, sorted: seq<Quote>)
    requires multiset(sorted) == multiset(rows)
    ensures forall q | q in sorted :: q in rows
    ensures forall q | q in rows :: q in sorted
  {
    forall q | q in sorted ensures q in rows {
      assert q in multiset(sorted);
    }
    forall q | q in rows ensures q in sorted {
      assert q in multiset(rows);
    }
  }

  /** A non-empty prefix of an ascending chain starts at its first strike and ends at one of its strikes. */
  lemma PrefixRange(sorted: seq<Quote>, kept: seq<Quote>)
    requires SortedByStrike(sorted)
    requires 0 < |kept| <= |sorted| && kept == sorted[..|kept|]
    ensures MinOf(Strikes(kept)) == sorted[0].strike
    ensures MinOf(Strikes(kept)) <= MaxOf(Strikes(kept))
    ensures exists k :: 0 <= k < |sorted| && sorted[k].strike == MaxOf(Strikes(kept))
  {
    var s := Strikes(kept);
    var i :| 0 <= i < |s| && s[i] == MinOf(s);
    assert kept[i] == sorted[i];
    assert s[0] <= MaxOf(s);
    var h :| 0 <= h < |s| && s[h] == MaxOf(s);
    assert kept[h] == sorted[h];
  }

  /**
   * A table whose open interest adds up to zero, with no negative entry, keeps
   * every row: the range is the full strike range.
   */
  lemma TotalZeroKeepsAll(rows: seq<Quote>, threshold: real)
    requires |rows| > 0
    requires NoNegativeOpenInterest(rows)
    requires Sum(OpenInterests(rows)) == 0.0
    ensures KeptRows(SortByStrike(rows), threshold) == SortByStrike(rows)
    ensures GetOiRange(rows, threshold) == Some(StrikeRange(MinOf(Strikes(rows)), MaxOf(Strikes(rows))))
  {
    TotalZeroKeepsEveryRow(rows, SortByStrike(rows), threshold);
    var oi := OpenInterests(rows);
    ZeroSumOfNonNegative(oi);
    assert forall i :: 0 <= i < |rows| ==> rows[i].openInterest == 0.0 by {
      forall i | 0 <= i < |rows| ensures rows[i].openInterest == 0.0 {
        assert oi[i] == rows[i].openInterest;
      }
    }
    GetOiRangeBounds(rows, threshold);
  }

  /**
   * With no negative open interest and a zero total, every row of any order of
   * the table passes the cumulative filter.
   */
  lemma TotalZeroKeepsEveryRow(rows: seq<Quote>, sorted: seq<Quote>, threshold: real)
    requires NoNegativeOpenInterest(rows)
    requires Sum(OpenInterests(rows)) == 0.0
    requires multiset(sorted) == multiset(rows)
    ensures KeptRows(sorted, threshold) == sorted
  {
    var oi := OpenInterests(rows);
    ZeroSumOfNonNegative(oi);
    SameRows(rows, sorted);
    forall q | q in sorted ensures q.openInterest == 0.0 {
      var i :| 0 <= i < |rows| && rows[i] == q;
      assert oi[i] == q.openInterest;
    }
    ZeroOpenInterestKeepsAll(sorted, threshold);
  }

  /** When every open interest is 0 every row passes the filter. */
  lemma ZeroOpenInterestKeepsAll(sorted: seq<Quote>, threshold: real)
    requires forall q | q in sorted :: q.openInterest == 0.0
    ensures KeptRows(sorted, threshold) == sorted
    ensures OiRangeOf(sorted, threshold) ==
      if sorted == [] then None else Some(StrikeRange(MinOf(Strikes(sorted)), MaxOf(Strikes(sorted))))
  {
    var oi := OpenInterests(sorted);
    assert forall i :: 0 <= i < |oi| ==> oi[i] == 0.0 by {
      forall i | 0 <= i < |oi| ensures oi[i] == 0.0 {
        assert sorted[i] in sorted;
      }
    }
    ZeroSum(oi);
    KeptRowsArePrefix(sorted, threshold);
    forall i | 0 <= i < |sorted| ensures RunningSums(0.0, oi)[i] <= Cutoff(Sum(oi), threshold) {
      ZeroSum(oi[..i + 1]);
    }
    if |sorted| > 0 {
      var n := |sorted|;
      assert RunningSums(0.0, oi)[n - 1] <= Cutoff(Sum(oi), threshold);
      assert n - 1 < |KeptRows(sorted, threshold)|;
    }
  }

  lemma {:induction false} ZeroSum(xs: seq<real>)
    requires forall i :: 0 <= i < |xs| ==> xs[i] == 0.0
    ensures Sum(xs) == 0.0
  {
    if xs != [] {
      ZeroSum(xs[1..]);
    }
  }

  /**
   * With a threshold below 1 and some open interest, the row that completes
   * the total is never kept.
   */
  lemma ThresholdBelowOneDropsLast(sorted: seq<Quote>, threshold: real)
    requires NoNegativeOpenInterest(sorted)
    requires threshold < 1.0 && Sum(OpenInterests(sorted)) > 0.0
    ensures |KeptRows(sorted, threshold)| < |sorted|
  {
    var oi := OpenInterests(sorted);
    LastRunningSumAboveCutoff(oi, threshold);
    KeptRowsArePrefix(sorted, threshold);
  }

  lemma LastRunningSumAboveCutoff(oi: seq<real>, threshold: real)
    requires threshold < 1.0 && Sum(oi) > 0.0
    ensures |oi| > 0 && RunningSums(0.0, oi)[|oi| - 1] > Cutoff(Sum(oi), threshold)
  {
    var n := |oi|;
    assert oi[..n] == oi;
    CutoffBelowTotal(Sum(oi), threshold);
  }

  /** Two orderings of the same rows have the same smallest and largest strike. */
  lemma SameStrikeBounds(rows: seq<Quote>, other: seq<Quote>)
    requires |rows| > 0 && multiset(rows) == multiset(other)
    ensures MinOf(Strikes(other)) == MinOf(Strikes(rows))
    ensures MaxOf(Strikes(other)) == MaxOf(Strikes(rows))
  {
    var a, b := Strikes(rows), Strikes(other);
    assert forall x | x in a :: x in b by {
      forall x | x in a ensures x in b {
        var i :| 0 <= i < |a| && a[i] == x;
        assert rows[i] in multiset(other);
        var j :| 0 <= j < |other| && other[j] == rows[i];
        assert b[j] == x;
      }
    }
    assert forall x | x in b :: x in a by {
      forall x | x in b ensures x in a {
        var i :| 0 <= i < |b| && b[i] == x;
        assert other[i] in multiset(rows);
        var j :| 0 <= j < |rows| && rows[j] == other[i];
        assert a[j] == x;
      }
    }
  }
}
