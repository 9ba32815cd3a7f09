/**
 * One side of an options chain (the call table or the put table) and the
 * in-place normalization loop of stock_stat.py:74-82.
 */
module Table {
  import opened Cells
  import opened Stats

  /** A raw table row: the columns the analysis reads, as the table reader left them. */
  datatype Row = Row(
    contractName: string,
    strike: real,
    lastPrice: Cell,
    bid: Cell,
    ask: Cell,
    change: Cell,
    volume: Cell,
    openInterest: Cell,
    impliedVolatility: Cell,
    bidAskSpread: Cell)

  /** Every column that the normalization rewrites holds a number. */
  predicate IsNormalized(r: Row) {
    && r.lastPrice.Num? && r.bid.Num? && r.ask.Num? && r.change.Num?
    && r.volume.Num? && r.openInterest.Num? && r.impliedVolatility.Num?
    && r.bidAskSpread.Num?
  }

  /** The body of the normalization loop applied to one row (lines 75-82). */
  function NormalizeRow(r: Row): (n: Row)
    ensures IsNormalized(n)
    ensures n.contractName == r.contractName && n.strike == r.strike
    ensures n.volume == Num(CoerceCount(r.volume)) && n.openInterest == Num(CoerceCount(r.openInterest))
    ensures n.impliedVolatility == Num(CoerceIv(r.impliedVolatility))
    ensures n.lastPrice == Num(CoerceNumber(r.lastPrice)) && n.change == Num(CoerceNumber(r.change))
    ensures n.bid == Num(CoerceNumber(r.bid)) && n.ask == Num(CoerceNumber(r.ask))
    ensures n.bidAskSpread.value >= 0.0
    ensures n.bidAskSpread.value == n.ask.value - n.bid.value || n.bidAskSpread.value == n.bid.value - n.ask.value
  {
    var bid := CoerceNumber(r.bid);
    var ask := CoerceNumber(r.ask);
    r.(volume := Num(CoerceCount(r.volume)),
       impliedVolatility := Num(CoerceIv(r.impliedVolatility)),
       lastPrice := Num(CoerceNumber(r.lastPrice)),
       openInterest := Num(CoerceCount(r.openInterest)),
       bid := Num(bid),
       ask := Num(ask),
       bidAskSpread := Num(Abs(ask - bid)),
       change := Num(CoerceNumber(r.change)))
  }

  /** Normalizing a row that is already normalized changes nothing. */
  lemma NormalizeRowIdempotent(r: Row)
    ensures NormalizeRow(NormalizeRow(r)) == NormalizeRow(r)
  {
  }

  /** A row that is normalized and whose spread is |Ask - Bid| is left as it is. */
  lemma NormalizedRowIsFixed(r: Row)
    requires IsNormalized(r) && r.bidAskSpread.value == Abs(r.ask.value - r.bid.value)
    ensures NormalizeRow(r) == r
  {
  }

  function NormalizeRows(rows: seq<Row>): (n: seq<Row>)
    ensures |n| == |rows|
    ensures forall i :: 0 <= i < |rows| ==> n[i] == NormalizeRow(rows[i])
  {
    seq(|rows|, i requires 0 <= i < |rows| => NormalizeRow(rows[i]))
  }

  lemma NormalizeRowsIdempotent(rows: seq<Row>)
    ensures NormalizeRows(NormalizeRows(rows)) == NormalizeRows(rows)
  {
    forall i | 0 <= i < |rows|
      ensures NormalizeRows(NormalizeRows(rows))[i] == NormalizeRows(rows)[i]
    {
      NormalizeRowIdempotent(rows[i]);
    }
  }

  /**
   * The loop body of lines 74-82 on one table, rewriting its columns in place.
   * The source rewrites column by column; every cell is coerced on its own, so
   * doing it row by row gives the same table.
   */
  method NormalizeTable(t: array<Row>)
    modifies t
    ensures forall i :: 0 <= i < t.Length ==> t[i] == NormalizeRow(old(t[i]))
    ensures t[..] == NormalizeRows(old(t[..]))
  {
    ghost var orig := t[..];
    var i := 0;
    while i < t.Length
      invariant 0 <= i <= t.Length
      invariant forall k :: 0 <= k < i ==> t[k] == NormalizeRow(orig[k])
      invariant forall k :: i <= k < t.Length ==> t[k] == orig[k]
    {
      NormalizeAt(t, i);
      i := i + 1;
    }
    assert t[..] == NormalizeRows(orig);
  }

  /** One pass of the loop body: row i is normalized, every other row is left alone. */
  method NormalizeAt(t: array<Row>, i: nat)
    requires i < t.Length
    modifies t
    ensures t[i] == NormalizeRow(old(t[i]))
    ensures forall k :: 0 <= k < t.Length && k != i ==> t[k] == old(t[k])
  {
    t[i] := NormalizeRow(t[i]);
  }

  /** A normalized row, read as numbers. */
  datatype Quote = Quote(
    contractName: string,
    strike: real,
    lastPrice: real,
    bid: real,
    ask: real,
    change: real,
    volume: real,
    openInterest: real,
    impliedVolatility: real,
    bidAskSpread: real)

  function ToQuote(r: Row): Quote
    requires IsNormalized(r)
  {
    Quote(r.contractName, r.strike, r.lastPrice.value, r.bid.value, r.ask.value,
          r.change.value, r.volume.value, r.openInterest.value,
          r.impliedVolatility.value, r.bidAskSpread.value)
  }

  function Quotes(rows: seq<Row>): (q: seq<Quote>)
    requires forall i :: 0 <= i < |rows| ==> IsNormalized(rows[i])
    ensures |q| == |rows|
    ensures forall i :: 0 <= i < |rows| ==> q[i] == ToQuote(rows[i])
  {
    seq(|rows|, i requires 0 <= i < |rows| => ToQuote(rows[i]))
  }

  function Strikes(q: seq<Quote>): (s: seq<real>)
    ensures |s| == |q| && forall i :: 0 <= i < |q| ==> s[i] == q[i].strike
  {
    seq(|q|, i requires 0 <= i < |q| => q[i].strike)
  }

  function Volumes(q: seq<Quote>): (s: seq<real>)
    ensures |s| == |q| && forall i :: 0 <= i < |q| ==> s[i] == q[i].volume
  {
    seq(|q|, i requires 0 <= i < |q| => q[i].volume)
  }

  function OpenInterests(q: seq<Quote>): (s: seq<real>)
    ensures |s| == |q| && forall i :: 0 <= i < |q| ==> s[i] == q[i].openInterest
  {
    seq(|q|, i requires 0 <= i < |q| => q[i].openInterest)
  }

  function Changes(q: seq<Quote>): (s: seq<real>)
    ensures |s| == |q| && forall i :: 0 <= i < |q| ==> s[i] == q[i].change
  {
    seq(|q|, i requires 0 <= i < |q| => q[i].change)
  }

  function Ivs(q: seq<Quote>): (s: seq<real>)
    ensures |s| == |q| && forall i :: 0 <= i < |q| ==> s[i] == q[i].impliedVolatility
  {
    seq(|q|, i requires 0 <= i < |q| => q[i].impliedVolatility)
  }

  /** `(df["Strike"] - price).abs()` */
  function Distances(q: seq<Quote>, price: real): (s: seq<real>)
    ensures |s| == |q| && forall i :: 0 <= i < |q| ==> s[i] == Abs(q[i].strike - price)
  {
    seq(|q|, i requires 0 <= i < |q| => Abs(q[i].strike - price))
  }

  predicate SortedByStrike(q: seq<Quote>) {
    forall i, j :: 0 <= i < j < |q| ==> q[i].strike <= q[j].strike
  }

  function InsertByStrike(x: Quote, q: seq<Quote>): (r: seq<Quote>)
    requires SortedByStrike(q)
    ensures SortedByStrike(r)
    ensures multiset(r) == multiset(q) + multiset{x}
  {
    if q == [] then [x]
    else if x.strike <= q[0].strike then [x] + q
    else
      var rest := InsertByStrike(x, q[1..]);
      assert q == [q[0]] + q[1..];
      LowestStaysFirst(q[0], x, q[1..], rest);
      [q[0]] + rest
  }

  lemma LowestStaysFirst(first: Quote, x: Quote, tail: seq<Quote>, rest: seq<Quote>)
    requires first.strike <= x.strike
    requires forall k :: 0 <= k < |tail| ==> first.strike <= tail[k].strike
    requires multiset(rest) == multiset(tail) + multiset{x}
    ensures forall k :: 0 <= k < |rest| ==> first.strike <= rest[k].strike
  {
    forall k | 0 <= k < |rest| ensures first.strike <= rest[k].strike {
      assert rest[k] in multiset(rest);
      if rest[k] != x {
        assert rest[k] in multiset(tail);
        var j :| 0 <= j < |tail| && tail[j] == rest[k];
      }
    }
  }

  /** `df.sort_values("Strike")`: a permutation of the rows in ascending strike order. */
  function SortByStrike(q: seq<Quote>): (r: seq<Quote>)
    ensures SortedByStrike(r)
    ensures multiset(r) == multiset(q)
  {
    if q == [] then []
    else
      assert q == [q[0]] + q[1..];
      InsertByStrike(q[0], SortByStrike(q[1..]))
  }

  /**
   * `df["Strike"].median()` (line 88): the middle strike in ascending order, or
   * the mean of the two middle strikes when the count is even.
   */
  function MedianStrike(q: seq<Quote>): (m: real)
    requires |q| > 0
    ensures MinOf(Strikes(q)) <= m <= MaxOf(Strikes(q))
  {
    var s := SortByStrike(q);
    var n := |s|;
    assert multiset(s) == multiset(q);
    assert s[0] in multiset(q) && s[n - 1] in multiset(q);
    StrikeBounds(q, s[0]);
    StrikeBounds(q, s[n - 1]);
    if n % 2 == 1 then s[n / 2].strike
    else (s[n / 2 - 1].strike + s[n / 2].strike) / 2.0
  }

  lemma StrikeBounds(q: seq<Quote>, x: Quote)
    requires x in q
    ensures MinOf(Strikes(q)) <= x.strike <= MaxOf(Strikes(q))
  {
    var i :| 0 <= i < |q| && q[i] == x;
    assert Strikes(q)[i] == x.strike;
  }

  /** With the call strikes 90, 100 and 110, in any table order, the substituted price is 100. */
  lemma MedianOfThreeStrikes(q: seq<Quote>, a: Quote, b: Quote, c: Quote)
    requires a.strike == 90.0 && b.strike == 100.0 && c.strike == 110.0
    requires multiset(q) == multiset{a, b, c}
    ensures MedianStrike(q) == 100.0
  {
    assert |q| == |multiset(q)| == 3;
    var s := SortByStrike(q);
    MiddleOfThree(s, a, b, c);
  }

  /** Sorted by strike, the row in the middle of the three is the 100 strike. */
  lemma MiddleOfThree(s: seq<Quote>, a: Quote, b: Quote, c: Quote)
    requires a.strike == 90.0 && b.strike == 100.0 && c.strike == 110.0
    requires SortedByStrike(s) && multiset(s) == multiset{a, b, c}
    ensures |s| == 3 && s[1].strike == 100.0
  {
    assert |s| == |multiset(s)| == 3;
    assert s == [s[0], s[1], s[2]];
    assert s[0] in multiset{a, b, c} && s[1] in multiset{a, b, c} && s[2] in multiset{a, b, c};
  }
}
