/**
 * The portfolio comparison panel: the two guards that decide whether the
 * ticker's prices are requested, and calculateMetrics, which reduces the
 * sentiment portfolio's daily returns to their mean and annualised
 * volatility (population standard deviation times sqrt(252)) in percent and
 * copies the ticker's summary with missing fields read as 0.
 */
module PortfolioComparison {
  import opened Wrappers
  import opened JsValue
  import opened Stats

  // ---------------------------------------------------------------------------
  // handleComparePortfolio's guards

  const TickerMissing: string := "Por favor ingresa un símbolo de ticker"
  const SentimentMissing: string := "No hay datos de sentimiento para comparar"

  /** What pressing "Comparar" does: show an error, or request the prices of the trimmed symbol. */
  datatype CompareAction = ShowError(message: string) | FetchPrices(ticker: string)

  /** `records` is `sentimentData.returns`; None is a missing sentimentData or a falsy returns field. */
  function HandleCompare(tickerSymbol: string, records: Option<seq<Record>>): (a: CompareAction)
    ensures a == ShowError(TickerMissing) <==> forall i :: 0 <= i < |tickerSymbol| ==> IsWhitespace(tickerSymbol[i])
    ensures a == ShowError(SentimentMissing) <==>
      (exists i :: 0 <= i < |tickerSymbol| && !IsWhitespace(tickerSymbol[i])) && (records.None? || |records.value| == 0)
    ensures a.FetchPrices? <==>
      (exists i :: 0 <= i < |tickerSymbol| && !IsWhitespace(tickerSymbol[i])) && records.Some? && |records.value| > 0
    ensures a.FetchPrices? ==> a.ticker == Trim(tickerSymbol)
  {
    TrimEmptyIff(tickerSymbol);
    if Trim(tickerSymbol) == "" then ShowError(TickerMissing)
    else if records.None? || |records.value| == 0 then ShowError(SentimentMissing)
    else FetchPrices(Trim(tickerSymbol))
  }

  /** A requested symbol is never empty and neither starts nor ends with whitespace. */
  lemma FetchedTickerTrimmed(tickerSymbol: string, records: Option<seq<Record>>)
    requires HandleCompare(tickerSymbol, records).FetchPrices?
    ensures var t := HandleCompare(tickerSymbol, records).ticker;
      |t| > 0 && !IsWhitespace(t[0]) && !IsWhitespace(t[|t| - 1])
  {
    TrimShape(tickerSymbol);
  }

  // ---------------------------------------------------------------------------
  // calculateMetrics

  /** The part of the ticker response calculateMetrics reads: its summary object, None when falsy. */
  datatype TickerResponse = TickerResponse(summary: Option<Record>)

  /** The sentiment figures; None is the NaN that an empty series gives. The toFixed texts are left abstract. */
  datatype SentimentMetrics = SentimentMetrics(avgReturn: Option<real>, volatility: Option<real>, observations: nat)

  datatype TickerMetrics = TickerMetrics(avgReturn: real, volatility: real, totalReturn: real, observations: real)

  datatype Metrics = Metrics(sentiment: SentimentMetrics, ticker: TickerMetrics)

  /** `returns.map(r => Number(r.portfolio_return) || 0)`: every record is kept. */
  function Coerced(records: seq<Record>): (xs: seq<real>)
    ensures |xs| == |records|
    ensures forall i :: 0 <= i < |records| ==> xs[i] == NumberOrZero(Get(records[i], "portfolio_return"))
  {
    seq(|records|, i requires 0 <= i < |records| => NumberOrZero(Get(records[i], "portfolio_return")))
  }

  /** `Math.sqrt(variance) * Math.sqrt(252)`. */
  function Volatility(xs: seq<real>, sqrt: real -> real): (v: Option<real>)
    requires IsSqrt(sqrt)
    ensures v.Some? <==> |xs| > 0
    ensures v.Some? ==> v.value >= 0.0
    ensures v.Some? ==> v.value * v.value == 252.0 * PopulationVariance(xs).value
  {
    match PopulationVariance(xs)
    case None => None
    case Some(variance) =>
      var a, b := sqrt(variance), sqrt(252.0);
      assert a * a == variance && b * b == 252.0;
      assert (a * b) * (a * b) == (a * a) * (b * b);
      SignedProduct(a, b);
      Some(a * b)
  }

  lemma SignedProduct(a: real, b: real)
    requires a >= 0.0 && b >= 0.0
    ensures a * b >= 0.0
  {
    if a > 0.0 && b > 0.0 {
      ProductOfSigns(a, b);
    }
  }

  /** Percent of a number that may be NaN. */
  function Percent(x: Option<real>): (p: Option<real>)
    ensures p.Some? <==> x.Some?
    ensures p.Some? ==> p.value == x.value * 100.0
  {
    match x
    case None => None
    case Some(v) => Some(v * 100.0)
  }

  /** calculateMetrics: None without ticker data, without returns or without a ticker summary. */
  function CalculateMetrics(tickerData: Option<TickerResponse>, records: Option<seq<Record>>, sqrt: real -> real): (r: Option<Metrics>)
    requires IsSqrt(sqrt)
    ensures r.None? <==> tickerData.None? || records.None? || tickerData.value.summary.None?
    ensures r.Some? ==> r.value.sentiment.observations == |records.value|
    ensures r.Some? ==> r.value.sentiment.avgReturn == Percent(Mean(Coerced(records.value)))
    ensures r.Some? ==> r.value.sentiment.volatility == Percent(Volatility(Coerced(records.value), sqrt))
    ensures r.Some? ==>
      var summary := tickerData.value.summary.value;
      r.value.ticker == TickerMetrics(NumberOrZero(Get(summary, "avg_daily_return")),
                                      NumberOrZero(Get(summary, "volatility")),
                                      NumberOrZero(Get(summary, "total_return")),
                                      NumberOrZero(Get(summary, "num_observations")))
  {
    if tickerData.None? || records.None? then None
    else
      var xs := Coerced(records.value);
      var avg := Mean(xs);
      var vol := Volatility(xs, sqrt);
      match tickerData.value.summary
      case None => None
      case Some(summary) =>
        Some(Metrics(SentimentMetrics(Percent(avg), Percent(vol), |xs|),
                     TickerMetrics(NumberOrZero(Get(summary, "avg_daily_return")),
                                   NumberOrZero(Get(summary, "volatility")),
                                   NumberOrZero(Get(summary, "total_return")),
                                   NumberOrZero(Get(summary, "num_observations")))))
  }

  /** With returns present the mean is the sum over n, in percent. */
  lemma MeanIsSumOverCount(tickerData: TickerResponse, records: seq<Record>, sqrt: real -> real)
    requires IsSqrt(sqrt) && tickerData.summary.Some? && |records| > 0
    ensures var m := CalculateMetrics(Some(tickerData), Some(records), sqrt).value.sentiment;
      m.avgReturn == Some(100.0 * (Sum(Coerced(records)) / |records| as real))
  {
    var xs := Coerced(records);
    var m := Mean(xs).value;
    assert m == Sum(xs) / |xs| as real;
    assert Percent(Mean(xs)) == Some(m * 100.0);
  }

  /** The displayed mean lies between the smallest and the largest coerced return, in percent. */
  lemma MeanWithinReturns(tickerData: TickerResponse, records: seq<Record>, sqrt: real -> real, lo: real, hi: real)
    requires IsSqrt(sqrt) && tickerData.summary.Some? && |records| > 0
    requires forall i :: 0 <= i < |records| ==> lo <= NumberOrZero(Get(records[i], "portfolio_return")) <= hi
    ensures var m := CalculateMetrics(Some(tickerData), Some(records), sqrt).value.sentiment;
      m.avgReturn.Some? && 100.0 * lo <= m.avgReturn.value <= 100.0 * hi
  {
    MeanBounds(Coerced(records), lo, hi);
  }

  /** The volatility shown is never negative, and its square is 252 · 100² times the population variance. */
  lemma VolatilityNonNegative(tickerData: TickerResponse, records: seq<Record>, sqrt: real -> real)
    requires IsSqrt(sqrt) && tickerData.summary.Some? && |records| > 0
    ensures var m := CalculateMetrics(Some(tickerData), Some(records), sqrt).value.sentiment;
      m.volatility.Some? && m.volatility.value >= 0.0 &&
      m.volatility.value * m.volatility.value == 2520000.0 * PopulationVariance(Coerced(records)).value
  {
    var v := Volatility(Coerced(records), sqrt).value;
    assert (v * 100.0) * (v * 100.0) == 10000.0 * (v * v);
  }

  /** Returns that all coerce to the same number have volatility 0. */
  lemma ConstantSeriesHasNoVolatility(tickerData: TickerResponse, records: seq<Record>, sqrt: real -> real, c: real)
    requires IsSqrt(sqrt) && tickerData.summary.Some? && |records| > 0
    requires forall i :: 0 <= i < |records| ==> NumberOrZero(Get(records[i], "portfolio_return")) == c
    ensures CalculateMetrics(Some(tickerData), Some(records), sqrt).value.sentiment.volatility == Some(0.0)
  {
    ConstantVarianceZero(Coerced(records), c);
  }

  /** Empty returns give NaN figures, with 0 observations. */
  lemma EmptyReturnsGiveNaN(tickerData: TickerResponse, sqrt: real -> real)
    requires IsSqrt(sqrt) && tickerData.summary.Some?
    ensures CalculateMetrics(Some(tickerData), Some([]), sqrt) == Some(Metrics(SentimentMetrics(None, None, 0),
      CalculateMetrics(Some(tickerData), Some([]), sqrt).value.ticker))
  {
  }

  /** Fields missing from the summary read as 0. */
  lemma MissingSummaryFieldsAreZero(tickerData: TickerResponse, records: seq<Record>, sqrt: real -> real)
    requires IsSqrt(sqrt) && tickerData.summary.Some? && tickerData.summary.value == map[]
    ensures CalculateMetrics(Some(tickerData), Some(records), sqrt).value.ticker == TickerMetrics(0.0, 0.0, 0.0, 0.0)
  {
  }
}
