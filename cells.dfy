/**
 * Coercion of one raw option-table cell to a number (stock_stat.py:75-82).
 * A cell is what the HTML table reader left in the column: text, a number,
 * or a missing value (NaN). Every coercion ends in `fillna(0)`, so the result
 * is always a number and an unparsable or missing cell becomes 0.
 */
module Cells {
  import opened Wrappers
  import opened Decimal

  datatype Cell = Text(text: string) | Num(value: real) | Missing

  /** `pd.to_numeric(..., errors='coerce').fillna(0)` on one parse result. */
  function OrZero(p: Option<real>): real {
    match p
    case Some(v) => v
    case None => 0.0
  }

  /**
   * Volume and Open Interest (lines 75 and 78): a cell that is exactly "-" is
   * replaced by "0", the cell is turned into text, every ',' is removed, and the
   * text is parsed. A number is turned into text and read back unchanged.
   */
  function CoerceCount(c: Cell): (r: real)
    ensures c == Text("-") ==> r == 0.0
    ensures c == Missing ==> r == 0.0
    ensures c.Num? ==> r == c.value
  {
    match c
    case Num(x) => x
    case Missing => 0.0
    case Text(s) =>
      var t := if s == "-" then "0" else s;
      OrZero(ParseDecimal(RemoveAll(t, ',')))
  }

  /** Implied Volatility (line 76): every '%' is removed, then the text is parsed. */
  function CoerceIv(c: Cell): (r: real)
    ensures c == Missing ==> r == 0.0
    ensures c.Text? && ParseDecimal(RemoveAll(c.text, '%')) == None ==> r == 0.0
    ensures c.Num? ==> r == c.value
  {
    match c
    case Num(x) => x
    case Missing => 0.0
    case Text(s) => OrZero(ParseDecimal(RemoveAll(s, '%')))
  }

  /** Last Price, Bid, Ask and Change (lines 77, 79, 80, 82): parsed as they are. */
  function CoerceNumber(c: Cell): (r: real)
    ensures c == Missing ==> r == 0.0
    ensures c.Text? && ParseDecimal(c.text) == None ==> r == 0.0
    ensures c.Num? ==> r == c.value
  {
    match c
    case Num(x) => x
    case Missing => 0.0
    case Text(s) => OrZero(ParseDecimal(s))
  }

  /** Thousands separators make no difference to Volume and Open Interest. */
  lemma CountIgnoresCommas(s: string)
    ensures CoerceCount(Text(s)) == CoerceCount(Text(RemoveAll(s, ',')))
  {
    var t := RemoveAll(s, ',');
    if s != "-" && t == "-" {
      assert ParseDecimal(t) == None by {
        assert t[1..] == [];
      }
    }
  }

  /** A plain count, with or without a minus sign, reads as its value. */
  lemma CountOfRenderedNumber(n: nat)
    ensures CoerceCount(Text(NatString(n))) == n as real
    ensures CoerceCount(Text(['-'] + NatString(n))) == -(n as real)
  {
    NatStringRoundTrip(n);
    var s := NatString(n);
    assert ',' !in s;
    assert ',' !in ['-'] + s;
  }

  /** An unparsable count becomes 0 rather than a missing value. */
  lemma UnparsableCountIsZero(s: string)
    requires ParseDecimal(RemoveAll(s, ',')) == None
    ensures CoerceCount(Text(s)) == 0.0
  {
  }

  /** A lone "-" in Last Price, Bid, Ask or Change is not a number, so it becomes 0. */
  lemma DashNumberIsZero()
    ensures CoerceNumber(Text("-")) == 0.0
  {
    assert "-" == ['-'];
    assert ParseDecimal("-") == None;
  }

  /** Every '%' is ignored in Implied Volatility. */
  lemma IvIgnoresPercent(s: string)
    ensures CoerceIv(Text(s)) == CoerceIv(Text(RemoveAll(s, '%')))
  {
  }

  /** A percentage reads as its number: "25%" is 25. */
  lemma IvOfPercentage(n: nat)
    ensures CoerceIv(Text(NatString(n) + "%")) == n as real
  {
    var s := NatString(n);
    assert (s + "%")[..|s|] == s;
    RemoveTrailing(s, '%');
    NatStringRoundTrip(n);
    assert '%' !in s;
  }

  /** A fractional percentage reads as its number: "25.43%" is 25 + 43 / 100. */
  lemma IvOfDecimalPercentage(w: nat, f: nat, k: nat)
    requires f < Pow10(k)
    ensures CoerceIv(Text(NatString(w) + "." + PaddedDigits(f, k) + "%")) == w as real + Fraction(f, k)
  {
    var s := NatString(w) + "." + PaddedDigits(f, k);
    DecimalRoundTrip(w, f, k);
    NoPercentInDecimal(NatString(w), PaddedDigits(f, k));
    RemoveTrailing(s, '%');
  }

  lemma NoPercentInDecimal(a: string, b: string)
    requires AllDigits(a) && AllDigits(b)
    ensures '%' !in a + "." + b
  {
    var s := a + "." + b;
    forall i | 0 <= i < |s| ensures s[i] != '%' {
      if i < |a| {
        assert s[i] == a[i];
      } else if i > |a| {
        assert s[i] == b[i - |a| - 1];
      }
    }
  }

  /** Last Price, Bid, Ask and Change written as decimals read as their values. */
  lemma PriceOfRenderedDecimal(w: nat, f: nat, k: nat)
    requires f < Pow10(k)
    ensures CoerceNumber(Text(NatString(w) + "." + PaddedDigits(f, k))) == w as real + Fraction(f, k)
    ensures CoerceNumber(Text(['-'] + (NatString(w) + "." + PaddedDigits(f, k)))) == -(w as real + Fraction(f, k))
  {
    DecimalRoundTrip(w, f, k);
  }

  lemma {:induction false} RemoveTrailing(s: string, c: char)
    ensures RemoveAll(s + [c], c) == RemoveAll(s, c)
  {
    if s != [] {
      assert (s + [c])[1..] == s[1..] + [c];
      RemoveTrailing(s[1..], c);
    } else {
      assert [c][1..] == [];
    }
  }

  /**
   * Last Price, Bid, Ask and Change are parsed without removing thousands
   * separators, so a value written with a comma becomes 0.
   */
  lemma CommaPriceIsZero(s: string)
    requires ',' in s
    ensures CoerceNumber(Text(s)) == 0.0
  {
    CommaIsNotNumber(s);
  }
}
