/**
 * The computational body of `parse_options_data` (stock_stat.py:67-159):
 * normalize both tables in place, then derive the aggregates, the sentiment
 * flags and the strategy label that the report prints.
 */
module Analysis {
  import opened Wrappers
  import opened Stats
  import opened Table
  import opened Expiry
  import opened OiRange
  import opened Sentiment

  /** What `get_current_price` gave: a price, or "N/A". */
  datatype PriceLookup = Unavailable | Quoted(price: real)

  /**
   * Ways the source stops without a report: a table that was not fetched
   * (lines 71-72), or an empty call or put table, on which `iloc[0]` (line 84)
   * or `idxmax` (line 97) raises.
   */
  datatype AnalysisError = NoOptionData | EmptyCallTable | EmptyPutTable

  /** The values that lines 84-159 compute, named as in the source. */
  datatype Report = Report(
    expiryDate: string,
    currentPrice: real,
    totalCallVolume: real,
    totalPutVolume: real,
    putCallRatio: Ratio,
    mostTradedCall: Quote,
    mostTradedPut: Quote,
    highestChangeCall: Quote,
    highestChangePut: Quote,
    avgStrike: real,
    atmCall: Quote,
    atmPut: Quote,
    targetPrice: real,
    ivSkew: real,
    volatility: real,
    minTargetPrice: real,
    maxTargetPrice: real,
    bullish: bool,
    highIv: bool,
    bearish: bool,
    meanVix: real,
    boxLow: Option<real>,
    boxHigh: Option<real>,
    strategy: Strategy,
    strategyText: string)

  /** Lines 87-90: the quoted price, or the median call strike when there is none. */
  function CurrentPrice(price: PriceLookup, calls: seq<Quote>): (p: real)
    requires |calls| > 0
    ensures price.Quoted? ==> p == price.price
    ensures price.Unavailable? ==> MinOf(Strikes(calls)) <= p <= MaxOf(Strikes(calls))
  {
    match price
    case Quoted(p) => p
    case Unavailable => MedianStrike(calls)
  }

  /** `1 - volatility * 0.2` and `1 + volatility * 0.2` (lines 118-121). */
  function Discount(volatility: real): real { 1.0 - volatility * 0.2 }

  function Premium(volatility: real): real { 1.0 + volatility * 0.2 }

  /**
   * Lines 118-120: the target price discounted by the volatility, clamped to
   * the discounted current price when it would lie above the current price.
   */
  function MinTargetPrice(target: real, currentPrice: real, volatility: real): (m: real)
    ensures volatility >= 0.0 && currentPrice >= 0.0 ==> m <= currentPrice
    ensures volatility >= 0.0 && currentPrice >= 0.0 ==> m <= target * Discount(volatility)
  {
    var m := target * Discount(volatility);
    if m > currentPrice then
      assert volatility >= 0.0 && currentPrice >= 0.0 ==> currentPrice * (volatility * 0.2) >= 0.0;
      currentPrice * Discount(volatility)
    else m
  }

  /** Line 121. */
  function MaxTargetPrice(target: real, volatility: real): (m: real)
    ensures target >= 0.0 && volatility >= 0.0 ==> m >= target
  {
    assert target >= 0.0 && volatility >= 0.0 ==> target * (volatility * 0.2) >= 0.0;
    target * Premium(volatility)
  }

  /** With a non-negative target, price and volatility the two targets are ordered. */
  lemma TargetsOrdered(target: real, currentPrice: real, volatility: real)
    requires target >= 0.0 && currentPrice >= 0.0 && volatility >= 0.0
    ensures MinTargetPrice(target, currentPrice, volatility) <= MaxTargetPrice(target, volatility)
  {
    assert target * Discount(volatility) <= target * Premium(volatility) by {
      assert target * (volatility * 0.4) >= 0.0;
    }
  }

  /**
   * Line 135: `max(filtered_put_min, most_traded_put_strike)`. A NaN first
   * argument survives Python's `max`, so no range stays no value.
   */
  function BoxLow(putRange: Option<StrikeRange>, mostTradedPutStrike: real): (b: Option<real>)
    ensures b.Some? <==> putRange.Some?
    ensures b.Some? ==> b.value >= mostTradedPutStrike && b.value >= putRange.value.low
    ensures b.Some? ==> b.value == mostTradedPutStrike || b.value == putRange.value.low
  {
    match putRange
    case None => None
    case Some(r) => Some(if mostTradedPutStrike > r.low then mostTradedPutStrike else r.low)
  }

  /** Line 136: `min(filtered_call_max, most_traded_call_strike)`, NaN surviving likewise. */
  function BoxHigh(callRange: Option<StrikeRange>, mostTradedCallStrike: real): (b: Option<real>)
    ensures b.Some? <==> callRange.Some?
    ensures b.Some? ==> b.value <= mostTradedCallStrike && b.value <= callRange.value.high
    ensures b.Some? ==> b.value == mostTradedCallStrike || b.value == callRange.value.high
  {
    match callRange
    case None => None
    case Some(r) => Some(if mostTradedCallStrike < r.high then mostTradedCallStrike else r.high)
  }

  /** Lines 84-159 on two non-empty normalized tables. */
  function BuildReport(calls: seq<Quote>, puts: seq<Quote>, price: PriceLookup): (r: Report)
    requires |calls| > 0 && |puts| > 0
    ensures exists i :: IsFirstMax(Volumes(calls), i) && r.mostTradedCall == calls[i]
    ensures exists i :: IsFirstMax(Volumes(puts), i) && r.mostTradedPut == puts[i]
    ensures exists i :: IsFirstMax(Changes(calls), i) && r.highestChangeCall == calls[i]
    ensures exists i :: IsFirstMax(Changes(puts), i) && r.highestChangePut == puts[i]
    ensures exists i :: IsFirstMin(Distances(calls, r.currentPrice), i) && r.atmCall == calls[i]
    ensures exists i :: IsFirstMin(Distances(puts, r.currentPrice), i) && r.atmPut == puts[i]
    ensures r.ivSkew == r.atmPut.impliedVolatility - r.atmCall.impliedVolatility
    ensures r.expiryDate == ExtractExpiryDate(calls[0].contractName)
    ensures r.currentPrice == CurrentPrice(price, calls)
    ensures r.totalCallVolume == Sum(Volumes(calls)) && r.totalPutVolume == Sum(Volumes(puts))
    ensures r.putCallRatio == PutCallRatio(r.totalPutVolume, r.totalCallVolume)
    ensures r.avgStrike == (Mean(Strikes(calls)) + Mean(Strikes(puts))) / 2.0
    ensures r.targetPrice == r.avgStrike * 0.2 + r.atmCall.strike * 0.8
    ensures r.volatility == Mean(Ivs(calls)) / 100.0
    ensures r.minTargetPrice == MinTargetPrice(r.targetPrice, r.currentPrice, r.volatility)
    ensures r.maxTargetPrice == MaxTargetPrice(r.targetPrice, r.volatility)
    ensures r.bullish == Bullish(Mean(Volumes(calls)), Mean(Volumes(puts)), r.putCallRatio,
                                 r.highestChangeCall.change, r.highestChangePut.change)
    ensures r.highIv == HighIv(Mean(Ivs(calls)), Mean(Ivs(puts)))
    ensures r.bearish == Bearish(r.mostTradedCall.strike, r.mostTradedPut.strike)
    ensures r.meanVix == (Mean(Ivs(calls)) + Mean(Ivs(puts))) / 2.0
    ensures r.boxLow == BoxLow(GetOiRange(puts, 0.85), r.mostTradedPut.strike)
    ensures r.boxHigh == BoxHigh(GetOiRange(calls, 0.85), r.mostTradedCall.strike)
    ensures r.strategy == Decide(r.bullish, r.bearish, r.highIv, r.ivSkew)
    ensures r.strategyText == Message(r.strategy)
  {
    var expiryDate := ExtractExpiryDate(calls[0].contractName);
    var currentPrice := CurrentPrice(price, calls);
    var totalCallVolume := Sum(Volumes(calls));
    var totalPutVolume := Sum(Volumes(puts));
    var ratio := PutCallRatio(totalPutVolume, totalCallVolume);
    var mostTradedCall := calls[FirstArgMax(Volumes(calls))];
    var mostTradedPut := puts[FirstArgMax(Volumes(puts))];
    var highestChangeCall := calls[FirstArgMax(Changes(calls))];
    var highestChangePut := puts[FirstArgMax(Changes(puts))];
    var avgStrike := (Mean(Strikes(calls)) + Mean(Strikes(puts))) / 2.0;
    var atmCall := calls[FirstArgMin(Distances(calls, currentPrice))];
    var atmPut := puts[FirstArgMin(Distances(puts, currentPrice))];
    var targetPrice := avgStrike * 0.2 + atmCall.strike * 0.8;
    var ivSkew := atmPut.impliedVolatility - atmCall.impliedVolatility;
    var volatility := Mean(Ivs(calls)) / 100.0;
    var bullish := Bullish(Mean(Volumes(calls)), Mean(Volumes(puts)), ratio,
                           highestChangeCall.change, highestChangePut.change);
    var highIv := HighIv(Mean(Ivs(calls)), Mean(Ivs(puts)));
    var bearish := Bearish(mostTradedCall.strike, mostTradedPut.strike);
    var strategy := Decide(bullish, bearish, highIv, ivSkew);
    Report(
      expiryDate := expiryDate,
      currentPrice := currentPrice,
      totalCallVolume := totalCallVolume,
      totalPutVolume := totalPutVolume,
      putCallRatio := ratio,
      mostTradedCall := mostTradedCall,
      mostTradedPut := mostTradedPut,
      highestChangeCall := highestChangeCall,
      highestChangePut := highestChangePut,
      avgStrike := avgStrike,
      atmCall := atmCall,
      atmPut := atmPut,
      targetPrice := targetPrice,
      ivSkew := ivSkew,
      volatility := volatility,
      minTargetPrice := MinTargetPrice(targetPrice, currentPrice, volatility),
      maxTargetPrice := MaxTargetPrice(targetPrice, volatility),
      bullish := bullish,
      highIv := highIv,
      bearish := bearish,
      meanVix := (Mean(Ivs(calls)) + Mean(Ivs(puts))) / 2.0,
      boxLow := BoxLow(GetOiRange(puts, 0.85), mostTradedPut.strike),
      boxHigh := BoxHigh(GetOiRange(calls, 0.85), mostTradedCall.strike),
      strategy := strategy,
      strategyText := Message(strategy))
  }

  /**
   * What the report promises whatever the tables hold: the price fallback stays
   * within the call strikes, an infinite ratio means no call volume and then no
   * bullish sentiment, every label but neutral needs a significant skew, the
   * minimum target never exceeds the price, and the box ends are clamped by the
   * most-traded strikes.
   */
  lemma ReportInvariants(calls: seq<Quote>, puts: seq<Quote>, price: PriceLookup)
    requires |calls| > 0 && |puts| > 0
    ensures var r := BuildReport(calls, puts, price);
      && (price.Quoted? ==> r.currentPrice == price.price)
      && (price.Unavailable? ==> MinOf(Strikes(calls)) <= r.currentPrice <= MaxOf(Strikes(calls)))
      && (r.putCallRatio.Infinite? <==> r.totalCallVolume <= 0.0)
      && (r.totalCallVolume <= 0.0 ==> !r.bullish)
      && (r.strategy != Neutral ==> r.ivSkew > 2.0 || r.ivSkew < -2.0)
      && (r.strategy.IsBuyFamily() ==> r.bullish && r.ivSkew < -2.0)
      && (r.strategy.IsSellFamily() ==> !r.bullish && r.ivSkew > 2.0)
      && (r.volatility >= 0.0 && r.currentPrice >= 0.0 ==> r.minTargetPrice <= r.currentPrice)
      && (r.boxLow.Some? ==> r.boxLow.value >= r.mostTradedPut.strike)
      && (r.boxHigh.Some? ==> r.boxHigh.value <= r.mostTradedCall.strike)
  {
  }

  /** The average strike lies between the averages of the two tables' lowest and highest strikes. */
  lemma AvgStrikeWithinStrikes(calls: seq<Quote>, puts: seq<Quote>, price: PriceLookup)
    requires |calls| > 0 && |puts| > 0
    ensures var r := BuildReport(calls, puts, price);
      (MinOf(Strikes(calls)) + MinOf(Strikes(puts))) / 2.0 <= r.avgStrike
      <= (MaxOf(Strikes(calls)) + MaxOf(Strikes(puts))) / 2.0
  {
    MeanBetweenBounds(Strikes(calls));
    MeanBetweenBounds(Strikes(puts));
  }

  /** Lines 84-159 once both tables are normalized, with the crash cases as errors. */
  function Analyze(calls: seq<Quote>, puts: seq<Quote>, price: PriceLookup): (r: Result<Report, AnalysisError>)
    ensures r.Failure? <==> |calls| == 0 || |puts| == 0
    ensures |calls| == 0 ==> r == Failure(EmptyCallTable)
    ensures |calls| > 0 && |puts| == 0 ==> r == Failure(EmptyPutTable)
    ensures |calls| > 0 && |puts| > 0 ==> r == Success(BuildReport(calls, puts, price))
  {
    if |calls| == 0 then Failure(EmptyCallTable)
    else if |puts| == 0 then Failure(EmptyPutTable)
    else Success(BuildReport(calls, puts, price))
  }

  /**
   * `parse_options_data(call_df, put_df, ticker)` with the price lookup as a
   * parameter: a missing table yields an error and changes nothing; otherwise
   * both tables are normalized in place (the same table twice when both names
   * refer to it) and the analysis runs on the normalized rows.
   */
  method ParseOptionsData(calls: array?<Row>, puts: array?<Row>, price: PriceLookup)
    returns (r: Result<Report, AnalysisError>)
    modifies calls, puts
    ensures calls == null || puts == null ==> r == Failure(NoOptionData)
    ensures calls != null && puts == null ==> unchanged(calls)
    ensures puts != null && calls == null ==> unchanged(puts)
    ensures calls != null && puts != null ==>
      && calls[..] == NormalizeRows(old(calls[..]))
      && puts[..] == NormalizeRows(old(puts[..]))
      && (forall i :: 0 <= i < calls.Length ==> IsNormalized(calls[i]))
      && (forall i :: 0 <= i < puts.Length ==> IsNormalized(puts[i]))
      && r == Analyze(Quotes(calls[..]), Quotes(puts[..]), price)
  {
    if calls == null || puts == null {
      return Failure(NoOptionData);
    }
    ghost var callsBefore, putsBefore := calls[..], puts[..];
    NormalizeTable(calls);
    NormalizeTable(puts);
    if calls == puts {
      NormalizeRowsIdempotent(callsBefore);
    }
    assert calls[..] == NormalizeRows(callsBefore);
    assert puts[..] == NormalizeRows(putsBefore);
    r := Analyze(Quotes(calls[..]), Quotes(puts[..]), price);
  }
}
