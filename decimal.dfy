/**
 * The numeric text grammar that cell coercion accepts: an optional sign, decimal
 * digits, an optional '.' and more digits, with at least one digit in all.
 * Anything else is unparsable.
 */
module Decimal {
  import opened Wrappers

  predicate IsDigit(c: char) {
    '0' <= c <= '9'
  }

  predicate AllDigits(s: string) {
    forall i :: 0 <= i < |s| ==> IsDigit(s[i])
  }

  function DigitValue(c: char): (d: nat)
    requires IsDigit(c)
    ensures d < 10
  {
    c as int - '0' as int
  }

  /** The value of a string of digits, most significant digit first. */
  function DigitsValue(s: string): nat
    requires AllDigits(s)
  {
    if s == [] then 0 else 10 * DigitsValue(s[..|s| - 1]) + DigitValue(s[|s| - 1])
  }

  function Pow10(n: nat): (p: nat)
    ensures p >= 1
  {
    if n == 0 then 1 else 10 * Pow10(n - 1)
  }

  /** Index of the first '.' in s, or |s| when there is none. */
  function DotIndex(s: string): (k: nat)
    ensures k <= |s|
    ensures forall i :: 0 <= i < k ==> s[i] != '.'
    ensures k < |s| ==> s[k] == '.'
  {
    if s == [] then 0 else if s[0] == '.' then 0 else 1 + DotIndex(s[1..])
  }

  /** num / 10^places: the value of `places` fraction digits reading num. */
  function Fraction(num: nat, places: nat): real {
    num as real / Pow10(places) as real
  }

  /** Digits, optionally followed by '.' and digits; at least one digit. */
  function ParseUnsigned(s: string): Option<real> {
    var k := DotIndex(s);
    var whole := s[..k];
    var frac := if k < |s| then s[k + 1..] else [];
    if AllDigits(whole) && AllDigits(frac) && |whole| + |frac| > 0 then
      Some(DigitsValue(whole) as real + Fraction(DigitsValue(frac), |frac|))
    else
      None
  }

  /** A signed decimal number, or None when s is not one. */
  function ParseDecimal(s: string): Option<real> {
    if |s| > 0 && (s[0] == '-' || s[0] == '+') then
      match ParseUnsigned(s[1..])
      case None => None
      case Some(v) => Some(if s[0] == '-' then -v else v)
    else
      ParseUnsigned(s)
  }

  /** s with every occurrence of c deleted (Python's s.replace(c, "")). */
  function RemoveAll(s: string, c: char): (r: string)
    ensures c !in r
    ensures c !in s ==> r == s
  {
    if s == [] then []
    else
      if s[0] == c then RemoveAll(s[1..], c) else [s[0]] + RemoveAll(s[1..], c)
  }

  /** Deleting from a concatenation deletes from each part, keeping their order. */
  lemma {:induction false} RemoveAllConcat(s: string, t: string, c: char)
    ensures RemoveAll(s + t, c) == RemoveAll(s, c) + RemoveAll(t, c)
  {
    if s == [] {
      assert s + t == t;
    } else {
      var x, rest := s[0], s[1..];
      var kept := if x == c then [] else [x];
      assert s == [x] + rest;
      calc {
        RemoveAll(s + t, c);
        { assert s + t == [x] + (rest + t); }
        RemoveAll([x] + (rest + t), c);
        { RemoveAllCons(x, rest + t, c); }
        kept + RemoveAll(rest + t, c);
        { RemoveAllConcat(rest, t, c); }
        kept + (RemoveAll(rest, c) + RemoveAll(t, c));
        (kept + RemoveAll(rest, c)) + RemoveAll(t, c);
        { RemoveAllCons(x, rest, c); }
        RemoveAll(s, c) + RemoveAll(t, c);
      }
    }
  }

  /** The first character is dropped when it is c and kept otherwise. */
  lemma RemoveAllCons(x: char, rest: string, c: char)
    ensures RemoveAll([x] + rest, c) == (if x == c then [] else [x]) + RemoveAll(rest, c)
  {
    assert ([x] + rest)[1..] == rest;
  }

  /** Every character other than c keeps its count; c is gone. */
  lemma {:induction false} RemoveAllCounts(s: string, c: char)
    ensures multiset(RemoveAll(s, c)) == multiset(s)[c := 0]
  {
    if s != [] {
      assert s == [s[0]] + s[1..];
      RemoveAllCounts(s[1..], c);
    }
  }

  /** Thousands separators vanish and the digits stay in order: "1,234" gives "1234". */
  lemma RemoveCommasExample()
    ensures RemoveAll("1,234", ',') == "1234"
  {
    var s := "1,234";
    var head, comma, tail := "1", ",", "234";
    assert s == head + comma + tail;
    RemoveAllConcat(head, comma, ',');
    RemoveAllCons(',', [], ',');
    assert comma == [','] + [];
    assert RemoveAll(head + comma, ',') == head;
    RemoveAllConcat(head + comma, tail, ',');
    assert RemoveAll(s, ',') == head + tail;
  }

  /** The decimal rendering of a natural number, without leading zeros. */
  function NatString(n: nat): (s: string)
    ensures |s| > 0 && AllDigits(s)
  {
    if n < 10 then [('0' as int + n) as char]
    else NatString(n / 10) + [('0' as int + n % 10) as char]
  }

  lemma {:induction false} NatStringValue(n: nat)
    ensures DigitsValue(NatString(n)) == n
  {
    var s := NatString(n);
    if n >= 10 {
      NatStringValue(n / 10);
      assert s[..|s| - 1] == NatString(n / 10);
    }
  }

  /** Parsing a rendered natural number gives it back, with either sign. */
  lemma NatStringRoundTrip(n: nat)
    ensures ParseDecimal(NatString(n)) == Some(n as real)
    ensures ParseDecimal(['-'] + NatString(n)) == Some(-(n as real))
  {
    var s := NatString(n);
    NatStringValue(n);
    NoDotInDigits(s);
    assert s[..|s|] == s;
    assert (['-'] + s)[1..] == s;
  }

  lemma NoDotInDigits(s: string)
    requires AllDigits(s)
    ensures DotIndex(s) == |s|
  {
  }

  /** A string holding a comma is never a number. */
  lemma CommaIsNotNumber(s: string)
    requires ',' in s
    ensures ParseDecimal(s) == None
  {
    var i :| 0 <= i < |s| && s[i] == ',';
    CommaIsNotUnsigned(s, i);
    if |s| > 0 && (s[0] == '-' || s[0] == '+') {
      assert i > 0;
      CommaIsNotUnsigned(s[1..], i - 1);
    }
  }

  lemma CommaIsNotUnsigned(s: string, i: nat)
    requires i < |s| && s[i] == ','
    ensures ParseUnsigned(s) == None
  {
    var k := DotIndex(s);
    if i < k {
      assert s[..k][i] == ',';
    } else {
      assert i != k;
      assert s[k + 1..][i - k - 1] == ',';
    }
  }

  /** f written with exactly k digits, padded with leading zeros. */
  function PaddedDigits(f: nat, k: nat): (s: string)
    ensures |s| == k && AllDigits(s)
  {
    if k == 0 then [] else PaddedDigits(f / 10, k - 1) + [('0' as int + f % 10) as char]
  }

  lemma {:induction false} PaddedDigitsValue(f: nat, k: nat)
    requires f < Pow10(k)
    ensures DigitsValue(PaddedDigits(f, k)) == f
  {
    if k > 0 {
      var s := PaddedDigits(f, k);
      assert f / 10 < Pow10(k - 1);
      PaddedDigitsValue(f / 10, k - 1);
      assert s[..|s| - 1] == PaddedDigits(f / 10, k - 1);
    }
  }

  /** The first '.' after a run of digits is right after that run. */
  lemma {:induction false} DotAfterDigits(a: string, b: string)
    requires AllDigits(a)
    ensures DotIndex(a + ['.'] + b) == |a|
  {
    if a != [] {
      assert (a + ['.'] + b)[1..] == a[1..] + ['.'] + b;
      DotAfterDigits(a[1..], b);
    }
  }

  /**
   * Parsing a rendered decimal w.f (the fraction written with k digits) gives
   * w + f / 10^k back, with either sign: "25.43" reads as 25 + 43 / 100.
   */
  lemma DecimalRoundTrip(w: nat, f: nat, k: nat)
    requires f < Pow10(k)
    ensures ParseDecimal(NatString(w) + "." + PaddedDigits(f, k)) == Some(w as real + Fraction(f, k))
    ensures ParseDecimal(['-'] + (NatString(w) + "." + PaddedDigits(f, k))) == Some(-(w as real + Fraction(f, k)))
  {
    NatStringValue(w);
    PaddedDigitsValue(f, k);
    SignedParts(NatString(w), PaddedDigits(f, k), w, f, k);
  }

  /** Digits, '.', digits parse to whole part plus fraction, with either sign. */
  lemma SignedParts(a: string, b: string, w: nat, f: nat, k: nat)
    requires |a| > 0 && AllDigits(a) && AllDigits(b)
    requires DigitsValue(a) == w && DigitsValue(b) == f && |b| == k
    ensures ParseDecimal(a + "." + b) == Some(w as real + Fraction(f, k))
    ensures ParseDecimal(['-'] + (a + "." + b)) == Some(-(w as real + Fraction(f, k)))
  {
    var s := a + "." + b;
    UnsignedParts(a, b);
    assert s[0] == a[0];
    UnsignedIsDecimal(s);
    NegatedDecimal(s);
    var v := w as real + Fraction(f, k);
    assert ParseUnsigned(s).value == v;
    assert ParseDecimal(['-'] + s) == Some(-v);
  }

  /** Text starting with a digit has no sign to read. */
  lemma UnsignedIsDecimal(s: string)
    requires |s| > 0 && IsDigit(s[0])
    ensures ParseDecimal(s) == ParseUnsigned(s)
  {
  }

  /** A leading '-' negates what the rest reads as. */
  lemma NegatedDecimal(s: string)
    requires ParseUnsigned(s).Some?
    ensures ParseDecimal(['-'] + s) == Some(-ParseUnsigned(s).value)
  {
    assert (['-'] + s)[1..] == s;
  }

  lemma UnsignedParts(a: string, b: string)
    requires |a| > 0 && AllDigits(a) && AllDigits(b)
    ensures ParseUnsigned(a + "." + b) == Some(DigitsValue(a) as real + Fraction(DigitsValue(b), |b|))
  {
    DotBetweenParts(a, b);
    PartsOfDecimal(a, b);
  }

  lemma DotBetweenParts(a: string, b: string)
    requires AllDigits(a)
    ensures DotIndex(a + "." + b) == |a|
  {
    assert a + "." + b == a + ['.'] + b;
    DotAfterDigits(a, b);
  }

  lemma PartsOfDecimal(a: string, b: string)
    ensures (a + "." + b)[..|a|] == a && (a + "." + b)[|a| + 1..] == b
  {
  }
}
