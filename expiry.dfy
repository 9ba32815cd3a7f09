/**
 * `extract_expiry_date` (stock_stat.py:32-40): the leftmost run of six digits
 * in a contract name, YYMMDD, rendered as 20YY-MM-DD, or "N/A".
 */
module Expiry {
  import opened Wrappers
  import opened Decimal

  /** Six digits start at index i of s. */
  predicate SixDigitsAt(s: string, i: int) {
    0 <= i && i + 6 <= |s| && forall k :: i <= k < i + 6 ==> IsDigit(s[k])
  }

  /** The leftmost index at or after `from` where six digits start (`re.search`). */
  function FirstSixDigitsFrom(s: string, from: nat): (r: Option<nat>)
    ensures r.Some? ==> from <= r.value && SixDigitsAt(s, r.value)
    ensures r.Some? ==> forall k :: from <= k < r.value ==> !SixDigitsAt(s, k)
    ensures r.None? ==> forall k :: from <= k ==> !SixDigitsAt(s, k)
    decreases |s| - from
  {
    if from + 6 > |s| then None
    else if SixDigitsAt(s, from) then Some(from)
    else FirstSixDigitsFrom(s, from + 1)
  }

  /** `f"20{raw[:2]}-{raw[2:4]}-{raw[4:]}"` for a six-character YYMMDD. */
  function FormatDate(raw: string): (r: string)
    requires |raw| == 6
    ensures |r| == 10
    ensures r[0] == '2' && r[1] == '0' && r[4] == '-' && r[7] == '-'
    ensures r[2] == raw[0] && r[3] == raw[1] && r[5] == raw[2]
    ensures r[6] == raw[3] && r[8] == raw[4] && r[9] == raw[5]
  {
    "20" + raw[..2] + "-" + raw[2..4] + "-" + raw[4..]
  }

  function ExtractExpiryDate(contractName: string): (r: string)
    ensures (forall k :: !SixDigitsAt(contractName, k)) ==> r == "N/A"
    ensures forall i :: SixDigitsAt(contractName, i) && (forall k :: 0 <= k < i ==> !SixDigitsAt(contractName, k)) ==>
      r == FormatDate(contractName[i..i + 6])
    ensures r != "N/A" ==> |r| == 10 && r[4] == '-' && r[7] == '-'
    ensures r != "N/A" ==> forall k :: 0 <= k < 10 && k != 4 && k != 7 ==> IsDigit(r[k])
  {
    match FirstSixDigitsFrom(contractName, 0)
    case None => "N/A"
    case Some(i) =>
      LeftmostIsUnique(contractName, i);
      DateOfDigits(contractName[i..i + 6]);
      FormatDate(contractName[i..i + 6])
  }

  /** Only one index starts a run of six digits with none before it. */
  lemma LeftmostIsUnique(s: string, i: nat)
    requires FirstSixDigitsFrom(s, 0) == Some(i)
    ensures forall j :: SixDigitsAt(s, j) && (forall k :: 0 <= k < j ==> !SixDigitsAt(s, k)) ==> j == i
  {
  }

  /** The date formatted from six digits is digits around two dashes. */
  lemma DateOfDigits(raw: string)
    requires |raw| == 6 && forall k :: 0 <= k < 6 ==> IsDigit(raw[k])
    ensures FormatDate(raw) != "N/A"
    ensures forall k :: 0 <= k < 10 && k != 4 && k != 7 ==> IsDigit(FormatDate(raw)[k])
  {
    assert FormatDate(raw)[0] != 'N';
  }

  /** A run of six digits somewhere in the name always yields a date. */
  lemma DigitsGiveDate(contractName: string, i: int)
    requires SixDigitsAt(contractName, i)
    ensures ExtractExpiryDate(contractName) != "N/A"
    ensures |ExtractExpiryDate(contractName)| == 10
  {
    var r := FirstSixDigitsFrom(contractName, 0);
    assert r.Some?;
    var d := ExtractExpiryDate(contractName);
    assert d[0] == '2';
  }

  /** A Yahoo-style contract name: AAPL, then 250117 (YYMMDD), then C and the strike. */
  lemma AppleCallExample()
    ensures ExtractExpiryDate("AAPL250117C00150000") == "2025-01-17"
  {
    var s := "AAPL250117C00150000";
    AppleRunStartsAtFour(s);
    assert s[4..10] == "250117";
    assert FormatDate("250117") == "2025-01-17";
  }

  /** In that name the leftmost run of six digits starts after the four letters. */
  lemma AppleRunStartsAtFour(s: string)
    requires s == "AAPL250117C00150000"
    ensures FirstSixDigitsFrom(s, 0) == Some(4)
  {
    assert !IsDigit(s[3]);
    assert !SixDigitsAt(s, 0) && !SixDigitsAt(s, 1) && !SixDigitsAt(s, 2) && !SixDigitsAt(s, 3);
    assert SixDigitsAt(s, 4);
  }
}
