/**
 * The intraday GARCH strategy. A volatility forecast is made for every
 * daily row from the 180 log returns before it; the premium of the forecast
 * over the rolling variance, compared with its own rolling deviation, gives
 * a daily signal that is applied the next day; RSI and Bollinger bands on
 * five-minute bars give an intraday signal; where both agree the strategy
 * takes the opposite position, holds it for the rest of that calendar day,
 * and earns the next bar's return; the per-bar returns are summed per day.
 *
 * Library numerics (the GARCH fit, rolling standard deviation, RSI,
 * Bollinger bands, log returns and the compounded cumulative return) are
 * given as the functions of a `Numerics` value. Daily rows are dated by
 * their day number counted from 1970-01-01 and bars by their minute counted
 * from 1970-01-01 00:00.
 */
module IntradayGarch {
  import opened Wrappers
  import opened Floats
  import opened Calendar

  /** The length of a GARCH estimation window. */
  const WindowLength: nat := 180

  const MinutesPerDay: int := 1440

  /** The `length=20` of `ta.rsi` and `ta.bbands`: on a shorter series both return None. */
  const IndicatorLength: nat := 20

  /** load_data keeps the daily rows from 2020-01-01 on. */
  const FirstDailyDate: int := DayNumber(Day(2020, 1, 1))

  /** The value of a signal column: 1, -1 or NaN. */
  datatype Signal = Up | Down | Undefined

  function SignalValue(s: Signal): (x: Float)
    ensures x.NaN? <==> s == Undefined
  {
    match s
    case Up => Finite(1.0)
    case Down => Finite(-1.0)
    case Undefined => NaN
  }

  /** A row of the daily CSV with the columns load_data derives: the day, `log_ret` and the rolling `variance`. */
  datatype DailyRow = DailyRow(date: int, logRet: Float, variance: Float)

  /** A five-minute bar: its minute and its close. */
  datatype Bar = Bar(time: int, close: Float)

  /** A bar of the merged frame, with the daily signal of its day. */
  datatype MergedBar = MergedBar(time: int, close: Float, signalDaily: Signal)

  /** The calendar day a minute falls in (`index.date`, and the bins of `pd.Grouper(freq='D')`). */
  function DayOf(t: int): (d: int)
    ensures d * MinutesPerDay <= t < d * MinutesPerDay + MinutesPerDay
  {
    t / MinutesPerDay
  }

  /**
   * The library computations, as functions of the columns they read:
   * `garch_forecast` of a window (NaN when the fit fails), `rolling(180).std()`,
   * `ta.rsi(close, length=20)`, the lower and upper `ta.bbands(close, length=20)`,
   * `np.log(close).diff()` and `np.exp(np.log1p(r).cumsum()).sub(1)`.
   */
  datatype Numerics = Numerics(
    forecast: seq<Float> -> Float,
    rollingStd: seq<Float> -> seq<Float>,
    rsi: seq<Float> -> seq<Float>,
    lowerBand: seq<Float> -> seq<Float>,
    upperBand: seq<Float> -> seq<Float>,
    logDiff: seq<Float> -> seq<Float>,
    cumulative: seq<Float> -> seq<Float>)

  /**
   * Every column computation gives one value per row of its input, as a
   * pandas Series does; RSI and the bands only on a series of at least
   * `IndicatorLength` closes, where they return a Series at all.
   */
  ghost predicate Aligned(lib: Numerics) {
    (forall s :: |lib.rollingStd(s)| == |s|) &&
    (forall s :: |s| >= IndicatorLength ==> |lib.rsi(s)| == |s|) &&
    (forall s :: |s| >= IndicatorLength ==> |lib.lowerBand(s)| == |s|) &&
    (forall s :: |s| >= IndicatorLength ==> |lib.upperBand(s)| == |s|) &&
    (forall s :: |lib.logDiff(s)| == |s|) &&
    (forall s :: |lib.cumulative(s)| == |s|)
  }

  // ---------------------------------------------------------------------------
  // Date filters of load_data and run_strategy

  function Since2020(rows: seq<DailyRow>): (r: seq<DailyRow>)
    ensures forall x :: x in r <==> x in rows && x.date >= FirstDailyDate
    ensures |r| <= |rows|
  {
    if |rows| == 0 then []
    else
      var rest := Since2020(rows[..|rows| - 1]);
      var last := rows[|rows| - 1];
      assert rows == rows[..|rows| - 1] + [last];
      if last.date >= FirstDailyDate then rest + [last] else rest
  }

  /** `daily_df.loc[start_date:end_date]`: the days from start to end, both included. */
  function DailyInPeriod(rows: seq<DailyRow>, start: int, end: int): (r: seq<DailyRow>)
    ensures forall x :: x in r <==> x in rows && start <= x.date <= end
    ensures |r| <= |rows|
  {
    if |rows| == 0 then []
    else
      var rest := DailyInPeriod(rows[..|rows| - 1], start, end);
      var last := rows[|rows| - 1];
      assert rows == rows[..|rows| - 1] + [last];
      if start <= last.date <= end then rest + [last] else rest
  }

  /**
   * `(index >= to_datetime(start)) & (index <= to_datetime(end))`: the bounds
   * are midnights, so of the last day only a bar at 00:00 is kept.
   */
  function BarsInPeriod(bars: seq<Bar>, start: int, end: int): (r: seq<Bar>)
    ensures forall b :: b in r <==> b in bars && start * MinutesPerDay <= b.time <= end * MinutesPerDay
    ensures |r| <= |bars|
  {
    if |bars| == 0 then []
    else
      var rest := BarsInPeriod(bars[..|bars| - 1], start, end);
      var last := bars[|bars| - 1];
      assert bars == bars[..|bars| - 1] + [last];
      if start * MinutesPerDay <= last.time <= end * MinutesPerDay then rest + [last] else rest
  }

  /** With one bar per minute, a period that starts and ends on the same day keeps at most its 00:00 bar. */
  lemma {:induction false} OneDayPeriodBars(bars: seq<Bar>, d: int)
    requires forall i, j :: 0 <= i < j < |bars| ==> bars[i].time != bars[j].time
    ensures |BarsInPeriod(bars, d, d)| <= 1
  {
    if |bars| > 0 {
      var n := |bars| - 1;
      OneDayPeriodBars(bars[..n], d);
      var rest := BarsInPeriod(bars[..n], d, d);
      if |rest| == 1 {
        assert rest[0] in rest;
        var k :| 0 <= k < n && bars[..n][k] == rest[0];
        assert bars[k].time != bars[n].time;
      }
    }
  }

  /** A bar after 00:00 on the end date is not part of the period. */
  lemma LastDayExcluded(bars: seq<Bar>, start: int, end: int, b: Bar)
    requires b in bars && DayOf(b.time) == end && b.time != end * MinutesPerDay
    ensures b !in BarsInPeriod(bars, start, end)
  {
  }

  // ---------------------------------------------------------------------------
  // parallel_predict_volatility

  function LogReturns(rows: seq<DailyRow>): (r: seq<Float>)
    ensures |r| == |rows|
    ensures forall i :: 0 <= i < |rows| ==> r[i] == rows[i].logRet
  {
    seq(|rows|, i requires 0 <= i < |rows| => rows[i].logRet)
  }

  /**
   * `[returns.iloc[i-180:i] for i in range(180, len(returns))]`: window j is
   * the one of position i = j + 180 and holds positions i - 180 .. i - 1.
   */
  function Windows(series: seq<Float>): (w: seq<seq<Float>>)
    ensures |w| == if |series| > WindowLength then |series| - WindowLength else 0
    ensures forall j :: 0 <= j < |w| ==> |w[j]| == WindowLength
    ensures forall j, k :: 0 <= j < |w| && 0 <= k < WindowLength ==> w[j][k] == series[j + k]
  {
    var n := if |series| > WindowLength then |series| - WindowLength else 0;
    seq(n, j requires 0 <= j < n => series[j .. j + WindowLength])
  }

  /** One forecast per window, in window order. */
  function Forecasts(lib: Numerics, series: seq<Float>): (f: seq<Float>)
    ensures |f| == |Windows(series)|
    ensures forall j :: 0 <= j < |f| ==> f[j] == lib.forecast(Windows(series)[j])
  {
    var w := Windows(series);
    seq(|w|, j requires 0 <= j < |w| => lib.forecast(w[j]))
  }

  /** `iloc[180:]`: nothing is left of a series of at most 180 rows. */
  function Trimmed<T>(s: seq<T>): (r: seq<T>)
    ensures |r| == if |s| > WindowLength then |s| - WindowLength else 0
    ensures forall k :: 0 <= k < |r| ==> r[k] == s[k + WindowLength]
  {
    if |s| > WindowLength then s[WindowLength..] else []
  }

  /** The trimmed frame has exactly one row per forecast, so `predictions` can be assigned. */
  lemma TrimMatchesForecasts(lib: Numerics, rows: seq<DailyRow>)
    ensures |Trimmed(rows)| == |Forecasts(lib, LogReturns(rows))|
  {
  }

  /**
   * No look-ahead: the forecast of trimmed row k depends only on the log
   * returns of the 180 rows before that row.
   */
  lemma ForecastUsesPastReturns(lib: Numerics, a: seq<DailyRow>, b: seq<DailyRow>, k: nat)
    requires |a| == |b| && k < |Trimmed(a)|
    requires forall i :: k <= i < k + WindowLength ==> a[i].logRet == b[i].logRet
    ensures Forecasts(lib, LogReturns(a))[k] == Forecasts(lib, LogReturns(b))[k]
  {
    var wa, wb := Windows(LogReturns(a)), Windows(LogReturns(b));
    assert wa[k] == wb[k] by {
      forall j | 0 <= j < WindowLength ensures wa[k][j] == wb[k][j] {
        assert wa[k][j] == a[k + j].logRet;
        assert wb[k][j] == b[k + j].logRet;
      }
    }
  }

  // ---------------------------------------------------------------------------
  // compute_signals

  /** `(predictions - variance) / variance`. */
  function Premium(prediction: Float, variance: Float): (p: Float)
    ensures prediction.Finite? && variance.Finite? && variance.value != 0.0 ==>
      p == Finite(prediction.value / variance.value - 1.0)
    ensures prediction.NaN? || variance.NaN? ==> p.NaN?
  {
    var p := Div(Sub(prediction, variance), variance);
    if prediction.Finite? && variance.Finite? && variance.value != 0.0 then
      PremiumRatio(prediction.value, variance.value);
      p
    else p
  }

  lemma PremiumRatio(x: real, v: real)
    requires v != 0.0
    ensures (x - v) / v == x / v - 1.0
  {
    assert (x - v) / v == x / v - v / v;
  }

  /** A zero variance gives an infinite premium, or NaN when the forecast is zero too. */
  lemma ZeroVariancePremium(prediction: Float)
    requires prediction.Finite?
    ensures prediction.value == 0.0 ==> Premium(prediction, Finite(0.0)).NaN?
    ensures prediction.value != 0.0 ==> Premium(prediction, Finite(0.0)) == Infinity(prediction.value > 0.0)
  {
  }

  function Premiums(rows: seq<DailyRow>, predictions: seq<Float>): (p: seq<Float>)
    requires |predictions| == |rows|
    ensures |p| == |rows|
    ensures forall i :: 0 <= i < |rows| ==> p[i] == Premium(predictions[i], rows[i].variance)
  {
    seq(|rows|, i requires 0 <= i < |rows| => Premium(predictions[i], rows[i].variance))
  }

  /** The daily rule: 1 above the band of one deviation, -1 below it, NaN otherwise. */
  function DailyRule(premium: Float, std: Float): (s: Signal)
    ensures s == Up <==> Greater(premium, std)
    ensures s == Down <==> !Greater(premium, std) && Less(premium, Neg(std))
    ensures premium.NaN? || std.NaN? ==> s == Undefined
  {
    if Greater(premium, std) then Up
    else if Less(premium, Neg(std)) then Down
    else Undefined
  }

  /** With a finite non-negative deviation the premium's position relative to ±std decides the signal. */
  lemma DailyRuleBands(premium: real, std: real)
    requires std >= 0.0
    ensures DailyRule(Finite(premium), Finite(std)) == Up <==> premium > std
    ensures DailyRule(Finite(premium), Finite(std)) == Down <==> premium < -std
    ensures DailyRule(Finite(premium), Finite(std)) == Undefined <==> -std <= premium <= std
  {
  }

  /** `shift()`: every value moves one row later and the first row is NaN. */
  function Shifted(s: seq<Signal>): (r: seq<Signal>)
    ensures |r| == |s|
    ensures |r| > 0 ==> r[0] == Undefined
    ensures forall i :: 1 <= i < |r| ==> r[i] == s[i - 1]
  {
    if |s| == 0 then [] else [Undefined] + s[..|s| - 1]
  }

  /** `signal_daily`: the rule on each row, shifted one row later. */
  function DailySignals(premium: seq<Float>, std: seq<Float>): (r: seq<Signal>)
    requires |std| == |premium|
    ensures |r| == |premium|
  {
    Shifted(seq(|premium|, i requires 0 <= i < |premium| => DailyRule(premium[i], std[i])))
  }

  /** Each day trades on the previous day's premium and deviation, never on its own. */
  lemma DailySignalFromPreviousRow(premium: seq<Float>, std: seq<Float>, i: nat)
    requires |std| == |premium| && i < |premium|
    ensures i == 0 ==> DailySignals(premium, std)[i] == Undefined
    ensures i > 0 ==> DailySignals(premium, std)[i] == DailyRule(premium[i - 1], std[i - 1])
  {
  }

  // ---------------------------------------------------------------------------
  // merge_intraday

  function Dates(rows: seq<DailyRow>): (r: seq<int>)
    ensures |r| == |rows|
    ensures forall i :: 0 <= i < |rows| ==> r[i] == rows[i].date
  {
    seq(|rows|, i requires 0 <= i < |rows| => rows[i].date)
  }

  /** The daily signals dated d, in daily order. */
  function SignalsOn(dates: seq<int>, signals: seq<Signal>, d: int): (r: seq<Signal>)
    requires |signals| == |dates|
    ensures |r| <= |dates|
    ensures forall s :: s in r ==> exists i :: 0 <= i < |dates| && dates[i] == d && signals[i] == s
  {
    if |dates| == 0 then []
    else
      var n := |dates| - 1;
      var rest := SignalsOn(dates[..n], signals[..n], d);
      if dates[n] == d then rest + [signals[n]] else rest
  }

  /** Every daily row dated d is matched: there are as many matches as rows of that date. */
  lemma {:induction false} SignalsOnCount(dates: seq<int>, signals: seq<Signal>, d: int)
    requires |signals| == |dates|
    ensures |SignalsOn(dates, signals, d)| == multiset(dates)[d]
  {
    if |dates| > 0 {
      var n := |dates| - 1;
      assert dates == dates[..n] + [dates[n]];
      SignalsOnCount(dates[..n], signals[..n], d);
    }
  }

  /** The matches of two blocks of daily rows are those of the first block followed by those of the second. */
  lemma {:induction false} SignalsOnAppend(dates1: seq<int>, signals1: seq<Signal>, dates2: seq<int>, signals2: seq<Signal>, d: int)
    requires |signals1| == |dates1| && |signals2| == |dates2|
    ensures SignalsOn(dates1 + dates2, signals1 + signals2, d) == SignalsOn(dates1, signals1, d) + SignalsOn(dates2, signals2, d)
    decreases |dates2|
  {
    if |dates2| == 0 {
      assert dates1 + dates2 == dates1 && signals1 + signals2 == signals1;
    } else {
      var n := |dates2| - 1;
      SignalsOnAppend(dates1, signals1, dates2[..n], signals2[..n], d);
      assert (dates1 + dates2)[..|dates1| + n] == dates1 + dates2[..n];
      assert (signals1 + signals2)[..|dates1| + n] == signals1 + signals2[..n];
    }
  }

  /** One daily row matches exactly when it is dated d. */
  lemma SignalsOnSingle(date: int, signal: Signal, d: int)
    ensures SignalsOn([date], [signal], d) == if date == d then [signal] else []
  {
    assert [date][..0] == [];
  }

  /** A left merge of one bar: one row per matching daily row, in daily order, or one row with NaN when none match. */
  function MergeBar(b: Bar, dates: seq<int>, signals: seq<Signal>): (r: seq<MergedBar>)
    requires |signals| == |dates|
    ensures |r| >= 1
    ensures forall m :: m in r ==> m.time == b.time && m.close == b.close
  {
    var on := SignalsOn(dates, signals, DayOf(b.time));
    if |on| == 0 then [MergedBar(b.time, b.close, Undefined)]
    else seq(|on|, k requires 0 <= k < |on| => MergedBar(b.time, b.close, on[k]))
  }

  /** A bar is repeated once per daily row of its day, carrying those rows' signals in daily order, or kept once with NaN. */
  lemma MergeBarRows(b: Bar, dates: seq<int>, signals: seq<Signal>)
    requires |signals| == |dates|
    ensures |SignalsOn(dates, signals, DayOf(b.time))| == multiset(dates)[DayOf(b.time)]
    ensures var n := multiset(dates)[DayOf(b.time)];
      |MergeBar(b, dates, signals)| == if n == 0 then 1 else n
    ensures multiset(dates)[DayOf(b.time)] == 0 ==> MergeBar(b, dates, signals) == [MergedBar(b.time, b.close, Undefined)]
    ensures multiset(dates)[DayOf(b.time)] > 0 ==>
      forall k :: 0 <= k < |MergeBar(b, dates, signals)| ==>
        MergeBar(b, dates, signals)[k] == MergedBar(b.time, b.close, SignalsOn(dates, signals, DayOf(b.time))[k])
  {
    SignalsOnCount(dates, signals, DayOf(b.time));
  }

  /** `intraday_df.merge(daily_signals, left_on='date', right_on='Date', how='left')`, in bar order. */
  function Merge(bars: seq<Bar>, dates: seq<int>, signals: seq<Signal>): (r: seq<MergedBar>)
    requires |signals| == |dates|
    ensures |r| >= |bars|
  {
    if |bars| == 0 then []
    else Merge(bars[..|bars| - 1], dates, signals) + MergeBar(bars[|bars| - 1], dates, signals)
  }

  /** The signal of the daily row dated d, NaN when there is none. */
  function SignalOf(dates: seq<int>, signals: seq<Signal>, d: int): Signal
    requires |signals| == |dates|
  {
    var on := SignalsOn(dates, signals, d);
    if |on| == 0 then Undefined else on[0]
  }

  /** At most one daily row per date: then SignalsOn has at most one element, the signal at that date's row. */
  lemma {:induction false} SignalsOnDistinct(dates: seq<int>, signals: seq<Signal>, d: int)
    requires |signals| == |dates|
    requires forall i, j :: 0 <= i < j < |dates| ==> dates[i] != dates[j]
    ensures |SignalsOn(dates, signals, d)| <= 1
    ensures forall i :: 0 <= i < |dates| && dates[i] == d ==> SignalsOn(dates, signals, d) == [signals[i]]
  {
    if |dates| > 0 {
      var n := |dates| - 1;
      SignalsOnDistinct(dates[..n], signals[..n], d);
      if dates[n] == d {
        assert forall i :: 0 <= i < n ==> dates[..n][i] != d;
        SignalsOnNone(dates[..n], signals[..n], d);
      }
    }
  }

  lemma {:induction false} SignalsOnNone(dates: seq<int>, signals: seq<Signal>, d: int)
    requires |signals| == |dates|
    requires forall i :: 0 <= i < |dates| ==> dates[i] != d
    ensures SignalsOn(dates, signals, d) == []
  {
    if |dates| > 0 {
      var n := |dates| - 1;
      SignalsOnNone(dates[..n], signals[..n], d);
    }
  }

  /**
   * With one daily row per date the merge keeps the bars one to one, each with
   * the signal of its own calendar day, or NaN for a day without a daily row.
   */
  lemma {:induction false} MergeOneToOne(bars: seq<Bar>, dates: seq<int>, signals: seq<Signal>)
    requires |signals| == |dates|
    requires forall i, j :: 0 <= i < j < |dates| ==> dates[i] != dates[j]
    ensures |Merge(bars, dates, signals)| == |bars|
    ensures forall i :: 0 <= i < |bars| ==>
      Merge(bars, dates, signals)[i] == MergedBar(bars[i].time, bars[i].close, SignalOf(dates, signals, DayOf(bars[i].time)))
  {
    if |bars| > 0 {
      var n := |bars| - 1;
      MergeOneToOne(bars[..n], dates, signals);
      MergeBarOneToOne(bars[n], dates, signals);
      var whole, prefix := Merge(bars, dates, signals), Merge(bars[..n], dates, signals);
      assert whole == prefix + MergeBar(bars[n], dates, signals);
      forall i | 0 <= i < |bars|
        ensures whole[i] == MergedBar(bars[i].time, bars[i].close, SignalOf(dates, signals, DayOf(bars[i].time)))
      {
        if i < n {
          assert whole[i] == prefix[i] && bars[..n][i] == bars[i];
        } else {
          assert whole[i] == MergeBar(bars[n], dates, signals)[0];
        }
      }
    }
  }

  /** With one daily row per date a single bar merges into a single row. */
  lemma MergeBarOneToOne(b: Bar, dates: seq<int>, signals: seq<Signal>)
    requires |signals| == |dates|
    requires forall i, j :: 0 <= i < j < |dates| ==> dates[i] != dates[j]
    ensures MergeBar(b, dates, signals) == [MergedBar(b.time, b.close, SignalOf(dates, signals, DayOf(b.time)))]
  {
    SignalsOnDistinct(dates, signals, DayOf(b.time));
  }

  /** A bar whose day has a daily row gets that row's signal. */
  lemma MergedSignalOfDay(dates: seq<int>, signals: seq<Signal>, i: nat, t: int)
    requires |signals| == |dates| && i < |dates| && dates[i] == DayOf(t)
    requires forall j, k :: 0 <= j < k < |dates| ==> dates[j] != dates[k]
    ensures SignalOf(dates, signals, DayOf(t)) == signals[i]
  {
    SignalsOnDistinct(dates, signals, DayOf(t));
  }

  /**
   * With one bar per minute and one daily row per date, the merged frame of a
   * one-day period is shorter than the indicators' length, so
   * compute_intraday_signals fails on it.
   */
  lemma OneDayPeriodTooShort(bars: seq<Bar>, d: int, dates: seq<int>, signals: seq<Signal>)
    requires |signals| == |dates|
    requires forall i, j :: 0 <= i < j < |bars| ==> bars[i].time != bars[j].time
    requires forall i, j :: 0 <= i < j < |dates| ==> dates[i] != dates[j]
    ensures |Merge(BarsInPeriod(bars, d, d), dates, signals)| < IndicatorLength
  {
    OneDayPeriodBars(bars, d);
    MergeOneToOne(BarsInPeriod(bars, d, d), dates, signals);
  }

  // ---------------------------------------------------------------------------
  // compute_intraday_signals

  function Closes(bars: seq<MergedBar>): (r: seq<Float>)
    ensures |r| == |bars|
    ensures forall i :: 0 <= i < |bars| ==> r[i] == bars[i].close
  {
    seq(|bars|, i requires 0 <= i < |bars| => bars[i].close)
  }

  /** Overbought (RSI above 70, close above the upper band) is 1; oversold (below 30, below the lower band) is -1. */
  function IntradayRule(rsi: Float, close: Float, lower: Float, upper: Float): (s: Signal)
    ensures s == Up <==> Greater(rsi, Finite(70.0)) && Greater(close, upper)
    ensures s == Down <==> !(Greater(rsi, Finite(70.0)) && Greater(close, upper)) && Less(rsi, Finite(30.0)) && Less(close, lower)
  {
    if Greater(rsi, Finite(70.0)) && Greater(close, upper) then Up
    else if Less(rsi, Finite(30.0)) && Less(close, lower) then Down
    else Undefined
  }

  /** The two cases cannot both hold, so -1 is exactly the oversold case, and NaN inputs give NaN. */
  lemma IntradayRuleExclusive(rsi: Float, close: Float, lower: Float, upper: Float)
    ensures IntradayRule(rsi, close, lower, upper) == Down <==> Less(rsi, Finite(30.0)) && Less(close, lower)
    ensures rsi.NaN? || close.NaN? ==> IntradayRule(rsi, close, lower, upper) == Undefined
  {
    LessOrder(Finite(70.0), rsi, Finite(30.0));
  }

  function IntradaySignals(bars: seq<MergedBar>, rsi: seq<Float>, lower: seq<Float>, upper: seq<Float>): (r: seq<Signal>)
    requires |rsi| == |bars| && |lower| == |bars| && |upper| == |bars|
    ensures |r| == |bars|
    ensures forall i :: 0 <= i < |bars| ==> r[i] == IntradayRule(rsi[i], bars[i].close, lower[i], upper[i])
  {
    seq(|bars|, i requires 0 <= i < |bars| => IntradayRule(rsi[i], bars[i].close, lower[i], upper[i]))
  }

  // ---------------------------------------------------------------------------
  // compute_strategy_returns

  /** The contrarian combination: against both signals when they agree, NaN otherwise. */
  function ReturnSign(daily: Signal, intraday: Signal): (s: Signal)
    ensures s == Down <==> daily == Up && intraday == Up
    ensures s == Up <==> daily == Down && intraday == Down
  {
    if daily == Up && intraday == Up then Down
    else if daily == Down && intraday == Down then Up
    else Undefined
  }

  function Opposite(s: Signal): Signal {
    match s
    case Up => Down
    case Down => Up
    case Undefined => Undefined
  }

  /** A defined sign means the two signals agree, and the position is against them. */
  lemma ReturnSignContrarian(daily: Signal, intraday: Signal)
    requires ReturnSign(daily, intraday) != Undefined
    ensures daily == intraday && ReturnSign(daily, intraday) == Opposite(daily)
  {
  }

  function ReturnSigns(bars: seq<MergedBar>, intraday: seq<Signal>): (r: seq<Signal>)
    requires |intraday| == |bars|
    ensures |r| == |bars|
    ensures forall i :: 0 <= i < |bars| ==> r[i] == ReturnSign(bars[i].signalDaily, intraday[i])
  {
    seq(|bars|, i requires 0 <= i < |bars| => ReturnSign(bars[i].signalDaily, intraday[i]))
  }

  function BarDays(bars: seq<MergedBar>): (r: seq<int>)
    ensures |r| == |bars|
    ensures forall i :: 0 <= i < |bars| ==> r[i] == DayOf(bars[i].time)
  {
    seq(|bars|, i requires 0 <= i < |bars| => DayOf(bars[i].time))
  }

  /** The last defined sign among rows 0..i that fall on day d, NaN when there is none. */
  function LastSignOn(days: seq<int>, signs: seq<Signal>, i: nat, d: int): (s: Signal)
    requires |signs| == |days| && i < |days|
    ensures (forall j :: 0 <= j <= i && days[j] == d ==> signs[j] == Undefined) ==> s == Undefined
  {
    if days[i] == d && signs[i] != Undefined then signs[i]
    else if i == 0 then Undefined
    else LastSignOn(days, signs, i - 1, d)
  }

  /**
   * `groupby(pd.Grouper(freq='D'))['return_sign'].transform(lambda x: x.ffill())`,
   * on bars in the order of the five-minute file, which is time order.
   */
  function FillForwardByDay(days: seq<int>, signs: seq<Signal>): (r: seq<Signal>)
    requires |signs| == |days|
    ensures |r| == |signs|
    ensures forall i :: 0 <= i < |signs| ==> r[i] == LastSignOn(days, signs, i, days[i])
  {
    seq(|signs|, i requires 0 <= i < |signs| => LastSignOn(days, signs, i, days[i]))
  }

  /**
   * LastSignOn finds exactly the most recent defined sign of day d: it is
   * defined iff some row j <= i of day d has a sign, and then it is the sign
   * of such a row after which no row of day d up to i has one.
   */
  lemma {:induction false} LastSignOnIsMostRecent(days: seq<int>, signs: seq<Signal>, i: nat, d: int)
    requires |signs| == |days| && i < |days|
    ensures LastSignOn(days, signs, i, d) != Undefined <==>
      exists j :: 0 <= j <= i && days[j] == d && signs[j] != Undefined
    ensures LastSignOn(days, signs, i, d) != Undefined ==>
      exists j :: 0 <= j <= i && days[j] == d && signs[j] == LastSignOn(days, signs, i, d) &&
        forall k :: j < k <= i && days[k] == d ==> signs[k] == Undefined
  {
    if days[i] == d && signs[i] != Undefined {
    } else if i > 0 {
      LastSignOnIsMostRecent(days, signs, i - 1, d);
      if LastSignOn(days, signs, i, d) != Undefined {
        var j :| 0 <= j <= i - 1 && days[j] == d && signs[j] == LastSignOn(days, signs, i, d) &&
          forall k :: j < k <= i - 1 && days[k] == d ==> signs[k] == Undefined;
        assert forall k :: j < k <= i && days[k] == d ==> signs[k] == Undefined;
      }
    }
  }

  /** The fill never carries a sign into another day, and keeps a bar's own sign. */
  lemma FillStaysWithinDay(days: seq<int>, signs: seq<Signal>, i: nat)
    requires |signs| == |days| && i < |days|
    ensures FillForwardByDay(days, signs)[i] != Undefined <==>
      exists j :: 0 <= j <= i && days[j] == days[i] && signs[j] != Undefined
    ensures signs[i] != Undefined ==> FillForwardByDay(days, signs)[i] == signs[i]
  {
    LastSignOnIsMostRecent(days, signs, i, days[i]);
  }

  /** `return.shift(-1)`: each row sees the next row's return; the last row sees NaN. */
  function ForwardReturns(series: seq<Float>): (r: seq<Float>)
    ensures |r| == |series|
    ensures forall i :: 0 <= i < |series| - 1 ==> r[i] == series[i + 1]
    ensures |r| > 0 ==> r[|r| - 1].NaN?
  {
    if |series| == 0 then [] else series[1..] + [NaN]
  }

  /** `forward_return * return_sign`. */
  function StrategyReturns(forward: seq<Float>, signs: seq<Signal>): (r: seq<Float>)
    requires |signs| == |forward|
    ensures |r| == |forward|
    ensures forall i :: 0 <= i < |forward| ==> r[i] == Mul(forward[i], SignalValue(signs[i]))
  {
    seq(|forward|, i requires 0 <= i < |forward| => Mul(forward[i], SignalValue(signs[i])))
  }

  /** A bar without a sign earns NaN; a -1 sign negates the next return and a +1 sign keeps it. */
  lemma StrategyReturnBySign(forward: Float, sign: Signal)
    ensures sign == Undefined ==> Mul(forward, SignalValue(sign)).NaN?
    ensures sign == Up ==> Mul(forward, SignalValue(sign)) == forward
    ensures sign == Down ==> Mul(forward, SignalValue(sign)) == Neg(forward)
  {
  }

  /** pandas's `sum` of one day's values: NaN values are skipped and nothing sums to 0. */
  function DayTotal(days: seq<int>, values: seq<Float>, d: int): (t: Float)
    requires |values| == |days|
    ensures (forall i :: 0 <= i < |days| ==> days[i] != d) ==> t == Finite(0.0)
  {
    if |days| == 0 then Finite(0.0)
    else
      var n := |days| - 1;
      var rest := DayTotal(days[..n], values[..n], d);
      if days[n] == d && !values[n].NaN? then Add(rest, values[n]) else rest
  }

  /** A day none of whose values is defined sums to 0. */
  lemma {:induction false} DayTotalWithoutValues(days: seq<int>, values: seq<Float>, d: int)
    requires |values| == |days|
    requires forall i :: 0 <= i < |days| && days[i] == d ==> values[i].NaN?
    ensures DayTotal(days, values, d) == Finite(0.0)
  {
    if |days| > 0 {
      var n := |days| - 1;
      DayTotalWithoutValues(days[..n], values[..n], d);
    }
  }

  /** A day all of whose values are finite or NaN has a finite total. */
  lemma {:induction false} DayTotalFinite(days: seq<int>, values: seq<Float>, d: int)
    requires |values| == |days|
    requires forall i :: 0 <= i < |days| && days[i] == d ==> values[i].Finite? || values[i].NaN?
    ensures DayTotal(days, values, d).Finite?
  {
    if |days| > 0 {
      var n := |days| - 1;
      DayTotalFinite(days[..n], values[..n], d);
    }
  }

  /** A total is NaN only when the day has both a +inf and a -inf value. */
  lemma {:induction false} DayTotalNaN(days: seq<int>, values: seq<Float>, d: int)
    requires |values| == |days|
    requires DayTotal(days, values, d).NaN?
    ensures exists i, j ::
      0 <= i < |days| && 0 <= j < |days| && days[i] == d && days[j] == d && values[i].PosInf? && values[j].NegInf?
  {
    var n := |days| - 1;
    var rest := DayTotal(days[..n], values[..n], d);
    if rest.NaN? {
      DayTotalNaN(days[..n], values[..n], d);
      var i, j :| 0 <= i < n && 0 <= j < n && days[..n][i] == d && days[..n][j] == d &&
        values[..n][i].PosInf? && values[..n][j].NegInf?;
      assert days[i] == d && days[j] == d && values[i].PosInf? && values[j].NegInf?;
    } else {
      assert days[n] == d && !values[n].NaN?;
      if values[n].PosInf? {
        DayTotalInfinite(days[..n], values[..n], d, false);
        var j :| 0 <= j < n && days[..n][j] == d && values[..n][j].NegInf?;
        assert days[j] == d && values[j].NegInf?;
      } else {
        DayTotalInfinite(days[..n], values[..n], d, true);
        var i :| 0 <= i < n && days[..n][i] == d && values[..n][i].PosInf?;
        assert days[i] == d && values[i].PosInf?;
      }
    }
  }

  /** A total that is an infinity comes from a value of that infinity on that day. */
  lemma {:induction false} DayTotalInfinite(days: seq<int>, values: seq<Float>, d: int, positive: bool)
    requires |values| == |days|
    requires DayTotal(days, values, d) == Infinity(positive)
    ensures exists i :: 0 <= i < |days| && days[i] == d && values[i] == Infinity(positive)
  {
    var n := |days| - 1;
    var rest := DayTotal(days[..n], values[..n], d);
    if days[n] == d && !values[n].NaN? && values[n] == Infinity(positive) {
    } else {
      if days[n] == d && !values[n].NaN? {
        assert rest == Infinity(positive);
      }
      DayTotalInfinite(days[..n], values[..n], d, positive);
      var i :| 0 <= i < n && days[..n][i] == d && values[..n][i] == Infinity(positive);
      assert days[i] == d && values[i] == Infinity(positive);
    }
  }

  /** A row of `strategy_returns`: a day and its summed strategy return. */
  datatype DailyTotal = DailyTotal(day: int, total: Float)

  function MinOf(s: seq<int>): (m: int)
    requires |s| > 0
    ensures forall i :: 0 <= i < |s| ==> m <= s[i]
  {
    if |s| == 1 then s[0]
    else
      var m := MinOf(s[1..]);
      assert forall i :: 1 <= i < |s| ==> s[i] == s[1..][i - 1];
      if s[0] < m then s[0] else m
  }

  function MaxOf(s: seq<int>): (m: int)
    requires |s| > 0
    ensures forall i :: 0 <= i < |s| ==> s[i] <= m
  {
    if |s| == 1 then s[0]
    else
      var m := MaxOf(s[1..]);
      assert forall i :: 1 <= i < |s| ==> s[i] == s[1..][i - 1];
      if s[0] > m then s[0] else m
  }

  /** The least and the greatest day are days of the sequence. */
  lemma {:induction false} MinMaxAttained(s: seq<int>)
    requires |s| > 0
    ensures MinOf(s) in s && MaxOf(s) in s
  {
    if |s| > 1 {
      MinMaxAttained(s[1..]);
      assert forall x :: x in s[1..] ==> x in s;
    }
  }

  /**
   * `groupby(pd.Grouper(freq='D'))['strategy_return'].sum()`: one row for
   * every calendar day from the first bar's to the last bar's, days without
   * bars included.
   */
  function DailyTotals(days: seq<int>, values: seq<Float>): (r: seq<DailyTotal>)
    requires |values| == |days|
    ensures |days| == 0 ==> r == []
    ensures |days| > 0 ==> |r| == MaxOf(days) - MinOf(days) + 1
    ensures forall k :: 0 <= k < |r| ==> r[k].total == DayTotal(days, values, r[k].day)
    ensures forall k :: 0 <= k < |r| - 1 ==> r[k + 1].day == r[k].day + 1
  {
    if |days| == 0 then []
    else
      var lo, hi := MinOf(days), MaxOf(days);
      seq(hi - lo + 1, k requires 0 <= k < hi - lo + 1 => DailyTotal(lo + k, DayTotal(days, values, lo + k)))
  }

  /**
   * Every bar's day has a row, every row's day lies between the first and
   * the last bar's, and the first and last rows are days that have bars.
   */
  lemma DailyTotalsCoverBars(days: seq<int>, values: seq<Float>)
    requires |values| == |days|
    ensures forall i :: 0 <= i < |days| ==> exists k :: 0 <= k < |DailyTotals(days, values)| && DailyTotals(days, values)[k].day == days[i]
    ensures forall k :: 0 <= k < |DailyTotals(days, values)| ==> MinOf(days) <= DailyTotals(days, values)[k].day <= MaxOf(days)
    ensures |days| > 0 ==> DailyTotals(days, values)[0].day in days && DailyTotals(days, values)[|DailyTotals(days, values)| - 1].day in days
  {
    var r := DailyTotals(days, values);
    if |days| > 0 {
      var lo := MinOf(days);
      MinMaxAttained(days);
      forall i | 0 <= i < |days| ensures exists k :: 0 <= k < |r| && r[k].day == days[i] {
        assert days[i] in days;
        var k := days[i] - lo;
        assert r[k].day == days[i];
      }
    }
  }

  // ---------------------------------------------------------------------------
  // run_strategy's output

  /** `replace([inf, -inf], nan)` then `fillna(0)`. */
  function Sanitised(x: Float): (r: real)
    ensures IsFinite(x) ==> r == x.value
    ensures !IsFinite(x) ==> r == 0.0
  {
    if x.Finite? then x.value else 0.0
  }

  function SanitisedSignal(s: Signal): (r: real)
    ensures r == Sanitised(SignalValue(s))
    ensures r == 1.0 || r == -1.0 || r == 0.0
  {
    Sanitised(SignalValue(s))
  }

  /** A record of `daily_signals`. */
  datatype DailySignalRecord = DailySignalRecord(date: int, signalDaily: real, predictions: real)

  /** A record of `strategy_returns`. */
  datatype DailyReturnRecord = DailyReturnRecord(date: int, dailyReturn: real)

  datatype StrategyResult = StrategyResult(dailySignals: seq<DailySignalRecord>, strategyReturns: seq<DailyReturnRecord>, cumulativeReturn: real)

  function SignalRecords(rows: seq<DailyRow>, signals: seq<Signal>, predictions: seq<Float>): (r: seq<DailySignalRecord>)
    requires |signals| == |rows| && |predictions| == |rows|
    ensures |r| == |rows|
    ensures forall i :: 0 <= i < |rows| ==> r[i].date == rows[i].date
    ensures forall i :: 0 <= i < |rows| ==> r[i].signalDaily == SanitisedSignal(signals[i])
    ensures forall i :: 0 <= i < |rows| ==> r[i].predictions == Sanitised(predictions[i])
  {
    seq(|rows|, i requires 0 <= i < |rows| => DailySignalRecord(rows[i].date, SanitisedSignal(signals[i]), Sanitised(predictions[i])))
  }

  /** The first daily record never trades: shift() leaves it NaN, which the output sanitises to 0. */
  lemma FirstSignalRecordIsZero(rows: seq<DailyRow>, premium: seq<Float>, std: seq<Float>, predictions: seq<Float>)
    requires |premium| == |rows| && |std| == |rows| && |predictions| == |rows| && |rows| > 0
    ensures SignalRecords(rows, DailySignals(premium, std), predictions)[0].signalDaily == 0.0
  {
    DailySignalFromPreviousRow(premium, std, 0);
  }

  function ReturnRecords(totals: seq<DailyTotal>): (r: seq<DailyReturnRecord>)
    ensures |r| == |totals|
    ensures forall k :: 0 <= k < |totals| ==> r[k] == DailyReturnRecord(totals[k].day, Sanitised(totals[k].total))
  {
    seq(|totals|, k requires 0 <= k < |totals| => DailyReturnRecord(totals[k].day, Sanitised(totals[k].total)))
  }

  function Totals(totals: seq<DailyTotal>): (r: seq<Float>)
    ensures |r| == |totals|
    ensures forall k :: 0 <= k < |totals| ==> r[k] == totals[k].total
  {
    seq(|totals|, k requires 0 <= k < |totals| => totals[k].total)
  }

  /** `cumulative.iloc[-1]`, 0 for an empty series or a last value that is not finite. */
  function CumulativeValue(cumulative: seq<Float>): (v: real)
    ensures |cumulative| == 0 ==> v == 0.0
    ensures |cumulative| > 0 && IsFinite(cumulative[|cumulative| - 1]) ==> v == cumulative[|cumulative| - 1].value
    ensures |cumulative| > 0 && !IsFinite(cumulative[|cumulative| - 1]) ==> v == 0.0
  {
    if |cumulative| == 0 then 0.0 else Sanitised(cumulative[|cumulative| - 1])
  }

  // ---------------------------------------------------------------------------
  // The algorithm object

  class IntradayGarchAlgorithm {
    /** The contents of the two CSV files the paths name. */
    const dailyFile: seq<DailyRow>
    const intradayFile: seq<Bar>

    /** daily_df: its rows and the columns the steps add. */
    var daily: seq<DailyRow>
    var predictions: seq<Float>
    var premium: seq<Float>
    var premiumStd: seq<Float>
    var signalDaily: seq<Signal>

    var intraday: seq<Bar>

    /** final_df: the merged bars and the columns the steps add. */
    var final: seq<MergedBar>
    var rsi: seq<Float>
    var lowerBand: seq<Float>
    var upperBand: seq<Float>
    var signalIntraday: seq<Signal>
    var barReturns: seq<Float>
    var returnSign: seq<Signal>
    var forwardReturn: seq<Float>
    var strategyReturn: seq<Float>

    var strategyReturns: seq<DailyTotal>

    constructor (dailyFile: seq<DailyRow>, intradayFile: seq<Bar>)
      ensures this.dailyFile == dailyFile && this.intradayFile == intradayFile
    {
      this.dailyFile := dailyFile;
      this.intradayFile := intradayFile;
    }

    method LoadData()
      modifies this`daily, this`intraday
      ensures daily == Since2020(dailyFile) && intraday == intradayFile
    {
      daily := Since2020(dailyFile);
      intraday := intradayFile;
    }

    method ParallelPredictVolatility(lib: Numerics)
      modifies this`daily, this`predictions
      ensures daily == Trimmed(old(daily))
      ensures predictions == Forecasts(lib, LogReturns(old(daily)))
      ensures |predictions| == |daily|
      ensures unchanged(this`intraday)
    {
      var results := Forecasts(lib, LogReturns(daily));
      TrimMatchesForecasts(lib, daily);
      daily := Trimmed(daily);
      predictions := results;
    }

    method ComputeSignals(lib: Numerics)
      requires Aligned(lib) && |predictions| == |daily|
      modifies this`premium, this`premiumStd, this`signalDaily
      ensures premium == Premiums(daily, predictions)
      ensures premiumStd == lib.rollingStd(premium)
      ensures signalDaily == DailySignals(premium, premiumStd)
      ensures |signalDaily| == |daily|
      ensures unchanged(this`daily, this`predictions, this`intraday)
    {
      premium := Premiums(daily, predictions);
      premiumStd := lib.rollingStd(premium);
      signalDaily := DailySignals(premium, premiumStd);
    }

    method MergeIntraday()
      requires |signalDaily| == |daily|
      modifies this`final
      ensures final == Merge(intraday, Dates(daily), signalDaily)
      ensures unchanged(this`daily, this`predictions, this`intraday, this`signalDaily)
      ensures unchanged(this`premium, this`premiumStd)
    {
      final := Merge(intraday, Dates(daily), signalDaily);
    }

    /**
     * On fewer than `IndicatorLength` bars `ta.bbands` returns None and
     * `bbands['BBL_20_2.0']` raises a TypeError: then ok is false and
     * nothing is written, as `self.final_df` is only replaced at the end.
     */
    method ComputeIntradaySignals(lib: Numerics) returns (ok: bool)
      requires Aligned(lib)
      modifies this`rsi, this`lowerBand, this`upperBand, this`signalIntraday, this`barReturns
      ensures ok <==> |final| >= IndicatorLength
      ensures ok ==> rsi == lib.rsi(Closes(final))
      ensures ok ==> lowerBand == lib.lowerBand(Closes(final)) && upperBand == lib.upperBand(Closes(final))
      ensures ok ==> signalIntraday == IntradaySignals(final, rsi, lowerBand, upperBand)
      ensures ok ==> barReturns == lib.logDiff(Closes(final))
      ensures ok ==> |signalIntraday| == |final| && |barReturns| == |final|
      ensures !ok ==> unchanged(this`rsi, this`lowerBand, this`upperBand, this`signalIntraday, this`barReturns)
      ensures unchanged(this`daily, this`predictions, this`intraday, this`signalDaily, this`final)
      ensures unchanged(this`premium, this`premiumStd)
    {
      if |final| < IndicatorLength {
        return false;
      }
      ok := true;
      var closes := Closes(final);
      rsi := lib.rsi(closes);
      lowerBand := lib.lowerBand(closes);
      upperBand := lib.upperBand(closes);
      signalIntraday := IntradaySignals(final, rsi, lowerBand, upperBand);
      barReturns := lib.logDiff(closes);
    }

    method ComputeStrategyReturns()
      requires |signalIntraday| == |final| && |barReturns| == |final|
      modifies this`returnSign, this`forwardReturn, this`strategyReturn, this`strategyReturns
      ensures returnSign == FillForwardByDay(BarDays(final), ReturnSigns(final, signalIntraday))
      ensures forwardReturn == ForwardReturns(barReturns)
      ensures strategyReturn == StrategyReturns(forwardReturn, returnSign)
      ensures strategyReturns == DailyTotals(BarDays(final), strategyReturn)
      ensures unchanged(this`daily, this`predictions, this`intraday, this`signalDaily, this`final)
      ensures unchanged(this`premium, this`premiumStd, this`rsi, this`lowerBand, this`upperBand)
      ensures unchanged(this`signalIntraday, this`barReturns)
    {
      var days := BarDays(final);
      returnSign := FillForwardByDay(days, ReturnSigns(final, signalIntraday));
      forwardReturn := ForwardReturns(barReturns);
      strategyReturn := StrategyReturns(forwardReturn, returnSign);
      strategyReturns := DailyTotals(days, strategyReturn);
    }

    /**
     * run_strategy: load, restrict to the period, run the steps in order, and
     * sanitise the output; None is the TypeError of compute_intraday_signals
     * on a merged frame of fewer than `IndicatorLength` bars.
     */
    method RunStrategy(start: int, end: int, lib: Numerics) returns (result: Option<StrategyResult>)
      requires Aligned(lib)
      modifies this
      ensures var rows := DailyInPeriod(Since2020(dailyFile), start, end);
        daily == Trimmed(rows) && predictions == Forecasts(lib, LogReturns(rows))
      ensures intraday == BarsInPeriod(intradayFile, start, end)
      ensures |predictions| == |daily| && |signalDaily| == |daily|
      ensures premium == Premiums(daily, predictions) && premiumStd == lib.rollingStd(premium)
      ensures signalDaily == DailySignals(premium, premiumStd)
      ensures final == Merge(intraday, Dates(daily), signalDaily)
      ensures result.None? <==> |final| < IndicatorLength
      ensures result.Some? ==> rsi == lib.rsi(Closes(final))
      ensures result.Some? ==> lowerBand == lib.lowerBand(Closes(final)) && upperBand == lib.upperBand(Closes(final))
      ensures result.Some? ==> signalIntraday == IntradaySignals(final, rsi, lowerBand, upperBand)
      ensures result.Some? ==> barReturns == lib.logDiff(Closes(final))
      ensures result.Some? ==> returnSign == FillForwardByDay(BarDays(final), ReturnSigns(final, signalIntraday))
      ensures result.Some? ==> forwardReturn == ForwardReturns(barReturns)
      ensures result.Some? ==> strategyReturn == StrategyReturns(forwardReturn, returnSign)
      ensures result.Some? ==> |strategyReturn| == |final| && strategyReturns == DailyTotals(BarDays(final), strategyReturn)
      ensures result.Some? ==> result.value.dailySignals == SignalRecords(daily, signalDaily, predictions)
      ensures result.Some? ==> result.value.strategyReturns == ReturnRecords(strategyReturns)
      ensures result.Some? ==> result.value.cumulativeReturn == CumulativeValue(lib.cumulative(Totals(strategyReturns)))
    {
      LoadData();
      daily := DailyInPeriod(daily, start, end);
      intraday := BarsInPeriod(intraday, start, end);
      ParallelPredictVolatility(lib);
      ComputeSignals(lib);
      MergeIntraday();
      var ok := ComputeIntradaySignals(lib);
      if !ok {
        return None;
      }
      ComputeStrategyReturns();
      var cumulative := lib.cumulative(Totals(strategyReturns));
      result := Some(StrategyResult(SignalRecords(daily, signalDaily, predictions),
                                    ReturnRecords(strategyReturns),
                                    CumulativeValue(cumulative)));
    }
  }
}
