/**
 * The put/call ratio, the sentiment flags and the strategy decision chain of
 * `parse_options_data` (stock_stat.py:94, 125-128, 140-159).
 */
module Sentiment {

  /** A put/call ratio: a quotient, or `float('inf')`. */
  datatype Ratio = Finite(value: real) | Infinite

  /**
   * Line 94: total put volume over total call volume when the call volume is
   * positive, and infinity otherwise.
   */
  function PutCallRatio(totalPutVolume: real, totalCallVolume: real): (r: Ratio)
    ensures r.Infinite? <==> totalCallVolume <= 0.0
    ensures r.Finite? ==> r.value * totalCallVolume == totalPutVolume
    ensures r.Finite? && totalPutVolume >= 0.0 ==> r.value >= 0.0
  {
    if totalCallVolume > 0.0 then Finite(totalPutVolume / totalCallVolume) else Infinite
  }

  /** `ratio < bound`; infinity is below no bound. */
  predicate Below(r: Ratio, bound: real) {
    r.Finite? && r.value < bound
  }

  /**
   * Line 125: mean call volume above mean put volume, a ratio below 1, and a
   * largest call Change above the largest put Change.
   */
  predicate Bullish(meanCallVolume: real, meanPutVolume: real, ratio: Ratio,
                    topCallChange: real, topPutChange: real) {
    meanCallVolume > meanPutVolume && Below(ratio, 1.0) && topCallChange > topPutChange
  }

  /** Line 126: mean call IV above mean put IV. */
  predicate HighIv(meanCallIv: real, meanPutIv: real) {
    meanCallIv > meanPutIv
  }

  /** Line 127: the most-traded call strike lies below the most-traded put strike. */
  predicate Bearish(mostTradedCallStrike: real, mostTradedPutStrike: real) {
    mostTradedCallStrike < mostTradedPutStrike
  }

  /** Line 143. */
  const SkewThreshold: real := 2.0

  predicate SignificantPositiveSkew(ivSkew: real) { ivSkew > SkewThreshold }

  predicate SignificantNegativeSkew(ivSkew: real) { ivSkew < -SkewThreshold }

  /** The seven labels of lines 140-159, in the order they are written. */
  datatype Strategy =
    | Neutral          // line 140, the default
    | VeryStrongBuy    // line 149
    | VeryStrongSell   // line 151
    | Buy              // line 153
    | CautiousBuy      // line 155
    | CautiousSell     // line 157
    | GeneralSell      // line 159
  {
    predicate IsBuyFamily() { VeryStrongBuy? || Buy? || CautiousBuy? }
    predicate IsSellFamily() { VeryStrongSell? || CautiousSell? || GeneralSell? }
  }

  /** The report text of each label. */
  function Message(s: Strategy): string {
    match s
    case Neutral => "🔍 중립: 시장 방향성이 뚜렷하지 않음."
    case VeryStrongBuy => "🚀 매우 강한 매수 신호: 주식 매수 또는 레버리지 매수 + 저변동성 혜택 가능."
    case VeryStrongSell => "⚠️ 매우 강한 매도 신호: 현물 매도 추천 및 숏 포지션 매수 추천"
    case Buy => "🚀 매수 신호: 주식 매수 또는 레버리지 매수 + 저변동성 혜택 가능."
    case CautiousBuy => "📈 조심스러운 매수 신호: 현물 및 롱 포지션 매수 추천하지만 변동성 주의."
    case CautiousSell => "📉 조심스러운 매도 신호: 현물 매도 또는 숏 포지션 고려 (변동성 ↑ + 하락 대비 심리)"
    case GeneralSell => "⚠️ 일반 매도 신호: 시장 약세 가능성 → 현물 매도/방어적 포지션 검토"
  }

  /**
   * Lines 140-159: the if/elif chain, first match wins, neutral by default.
   * Every label other than the default needs a significant skew; buy labels
   * need bullish sentiment and a negative skew, sell labels the opposite.
   */
  function Decide(bullish: bool, bearish: bool, highIv: bool, ivSkew: real): (s: Strategy)
    ensures -SkewThreshold <= ivSkew <= SkewThreshold ==> s == Neutral
    ensures s.IsBuyFamily() ==> bullish && SignificantNegativeSkew(ivSkew)
    ensures s.IsSellFamily() ==> !bullish && SignificantPositiveSkew(ivSkew)
    ensures s == Buy ==> bullish && bearish && !highIv
    ensures s == GeneralSell ==> !bearish && !highIv
    ensures s == VeryStrongBuy ==> !bearish && !highIv
    ensures s == VeryStrongSell ==> bearish && !highIv
    ensures s == CautiousBuy || s == CautiousSell ==> highIv
  {
    var positive := SignificantPositiveSkew(ivSkew);
    var negative := SignificantNegativeSkew(ivSkew);
    if bullish && !bearish && !highIv && negative then VeryStrongBuy
    else if !bullish && bearish && !highIv && positive then VeryStrongSell
    else if bullish && !highIv && negative then Buy
    else if bullish && highIv && negative then CautiousBuy
    else if !bullish && highIv && positive then CautiousSell
    else if !bullish && !highIv && positive then GeneralSell
    else Neutral
  }

  /**
   * An independent statement of when each label is chosen: the seven guards
   * do not overlap and together cover every input.
   */
  predicate Chosen(s: Strategy, bullish: bool, bearish: bool, highIv: bool, ivSkew: real) {
    var positive := SignificantPositiveSkew(ivSkew);
    var negative := SignificantNegativeSkew(ivSkew);
    match s
    case VeryStrongBuy => bullish && negative && !highIv && !bearish
    case Buy => bullish && negative && !highIv && bearish
    case CautiousBuy => bullish && negative && highIv
    case VeryStrongSell => !bullish && positive && !highIv && bearish
    case GeneralSell => !bullish && positive && !highIv && !bearish
    case CautiousSell => !bullish && positive && highIv
    case Neutral => !(bullish && negative) && !(!bullish && positive)
  }

  /** The chain picks a label exactly when that label's guard holds. */
  lemma DecideMatchesGuards(bullish: bool, bearish: bool, highIv: bool, ivSkew: real, s: Strategy)
    ensures Decide(bullish, bearish, highIv, ivSkew) == s <==> Chosen(s, bullish, bearish, highIv, ivSkew)
  {
  }

  /** When total call volume is not positive the ratio is infinite, so sentiment is never bullish. */
  lemma NoCallVolumeIsNotBullish(meanCallVolume: real, meanPutVolume: real, totalPutVolume: real,
                                 totalCallVolume: real, topCallChange: real, topPutChange: real)
    requires totalCallVolume <= 0.0
    ensures !Bullish(meanCallVolume, meanPutVolume, PutCallRatio(totalPutVolume, totalCallVolume),
                     topCallChange, topPutChange)
  {
  }

  /** Bullish sentiment implies strictly more call volume than put volume in total. */
  lemma BullishMeansMoreCallVolume(meanCallVolume: real, meanPutVolume: real, totalPutVolume: real,
                                   totalCallVolume: real, topCallChange: real, topPutChange: real)
    requires Bullish(meanCallVolume, meanPutVolume, PutCallRatio(totalPutVolume, totalCallVolume),
                     topCallChange, topPutChange)
    ensures totalCallVolume > 0.0 && totalPutVolume < totalCallVolume
  {
    var r := PutCallRatio(totalPutVolume, totalCallVolume).value;
    assert totalPutVolume == r * totalCallVolume;
    assert (1.0 - r) * totalCallVolume > 0.0;
  }
}
