/**
 * The comparison chart: both return series are keyed by their UTC calendar
 * day (`normalizeDate`), the ticker side is loaded into a map in which the
 * last write for a day wins, and the portfolio side is walked in its own
 * order and inner-joined on the key, each match contributing a label and
 * both returns in percent. A debug table shows the first 15 matches with
 * their difference.
 */
module ComparisonChart {
  import opened Wrappers
  import opened Calendar
  import opened JsValue
  import opened JsDate
  import opened Sequences

  // ---------------------------------------------------------------------------
  // normalizeDate

  /** What normalizeDate passes to `new Date`: a string without a T gets T00:00:00 appended. */
  function DateArgument(v: JsVal): (a: JsVal)
    ensures v.Str? <==> a.Str?
    ensures a.Str? ==> 'T' in a.s && v.s <= a.s
    ensures v.Str? && 'T' in v.s ==> a == v
    ensures !v.Str? ==> a == v
  {
    match v
    case Str(s) => if 'T' in s then v else Str(s + "T00:00:00")
    case _ => v
  }

  /** normalizeDate: the UTC day of the date, as toISOString writes it; None for a falsy or invalid date. */
  function NormalizeDate(v: JsVal, tz: TzOffset): (k: Option<string>)
    ensures k.None? <==> !Truthy(v) || NewDate(DateArgument(v), tz).None?
    ensures k.Some? ==> |k.value| > 0
    ensures k.Some? ==> k.value == IsoDate(UtcDay(NewDate(DateArgument(v), tz).value))
  {
    if !Truthy(v) then None
    else
      match NewDate(DateArgument(v), tz)
      case None => None
      case Some(t) => Some(IsoDateKey(t))
  }

  /** A bare date text has no T in it. */
  lemma BareDateHasNoT(s: string)
    requires IsBareDateText(s)
    ensures 'T' !in s
  {
    forall i | 0 <= i < |s| ensures s[i] != 'T' {
      if i < 4 { assert IsDigit(s[..4][i]); }
      else if 5 <= i < 7 { assert IsDigit(s[5..7][i - 5]); }
      else if i >= 8 { assert IsDigit(s[8..][i - 8]); }
    }
  }

  /** normalizeDate of a valid bare date: the UTC day of the time value of the date with T00:00:00 appended. */
  lemma NormalizeBareDateKey(s: string, tz: TzOffset)
    requires IsBareDateText(s) && ValidDay(BareDateOf(s))
    ensures NewDate(Str(s + "T00:00:00"), tz).Some?
    ensures NormalizeDate(Str(s), tz) == Some(IsoDateKey(NewDate(Str(s + "T00:00:00"), tz).value))
  {
    BareDateHasNoT(s);
    assert DateArgument(Str(s)) == Str(s + "T00:00:00");
    NewDateBareMidnight(s, tz);
  }

  /** The UTC day of a day's local midnight: that day where the zone is not east of UTC, else the day before. */
  lemma KeyOfLocalMidnight(d: Day, tz: TzOffset, t: int)
    requires ValidDay(d) && t == DayNumber(d) * MsPerDay - tz * MsPerMinute
    ensures tz <= 0 ==> UtcDay(t) == d
    ensures tz > 0 ==> UtcDay(t) == AddDays(d, -1)
  {
    var n := DayNumber(d);
    if tz <= 0 {
      UtcDayOfDayNumber(n, t);
      FromDayNumberRoundTrip(d);
    } else {
      UtcDayOfDayNumber(n - 1, t);
    }
  }

  /** A bare date is read as local midnight: its key is itself where the zone is not east of UTC, else the day before. */
  lemma NormalizeBareDate(s: string, tz: TzOffset)
    requires IsBareDateText(s) && ValidDay(BareDateOf(s))
    ensures tz <= 0 ==> NormalizeDate(Str(s), tz) == Some(s)
    ensures tz > 0 ==> NormalizeDate(Str(s), tz) == Some(IsoDate(AddDays(BareDateOf(s), -1)))
  {
    NormalizeBareDateKey(s, tz);
    var t := NewDate(Str(s + "T00:00:00"), tz).value;
    NewDateBareMidnight(s, tz);
    KeyOfLocalMidnight(BareDateOf(s), tz, t);
    IsoDateOfBareDate(s);
  }

  /** A bare date with T00:00:00Z appended is UTC midnight: its key is the date itself in every time zone. */
  lemma NormalizeUtcMidnight(s: string, tz: TzOffset)
    requires IsBareDateText(s) && ValidDay(BareDateOf(s))
    ensures NormalizeDate(Str(s + "T00:00:00Z"), tz) == Some(s)
  {
    var d := BareDateOf(s);
    var u := s + "T00:00:00Z";
    assert u[10] == 'T';
    assert DateArgument(Str(u)) == Str(u);
    NewDateBareUtcMidnight(s, tz);
    var n := DayNumber(d);
    assert NormalizeDate(Str(u), tz) == Some(IsoDate(UtcDay(n * MsPerDay)));
    UtcDayOfDayNumber(n, n * MsPerDay);
    FromDayNumberRoundTrip(d);
    IsoDateOfBareDate(s);
  }

  /** "2023-05-01" and "2023-05-01T00:00:00Z" get the same key exactly when the local zone is not east of UTC. */
  lemma KeyEquivalence(s: string, tz: TzOffset)
    requires IsBareDateText(s) && ValidDay(BareDateOf(s))
    ensures NormalizeDate(Str(s), tz) == NormalizeDate(Str(s + "T00:00:00Z"), tz) <==> tz <= 0
  {
    NormalizeBareDate(s, tz);
    NormalizeUtcMidnight(s, tz);
    if tz > 0 {
      var d := BareDateOf(s);
      var e := AddDays(d, -1);
      if IsoDate(e) == s {
        FourDigitYearInRange(d);
        IsoDateOfBareDate(s);
        assert e.year <= 9999 by {
          DayNumberWithinYear(d);
          DayNumberWithinYear(e);
          if e.year > d.year {
            YearSpan(d.year + 1, e.year);
          }
        }
        assert 0 <= e.year by {
          assert |IsoDate(e)| == 10;
        }
        IsoDateInjective(e, d);
      }
    }
  }

  // ---------------------------------------------------------------------------
  // The two series

  /** A series point: its day key and its return, `Number(x) || 0`. */
  datatype Point = Point(key: string, value: real)

  /** `{ date: normalizeDate(item.Date || item.date), <value>: Number(item[valueField]) || 0 }`, kept when the date is not null. */
  function PointOf(item: Record, valueField: string, tz: TzOffset): (p: Option<Point>)
    ensures !Truthy(Get(item, "Date")) && !Truthy(Get(item, "date")) ==> p.None?
    ensures p.Some? ==> |p.value.key| > 0 && p.value.value == NumberOrZero(Get(item, valueField))
  {
    match NormalizeDate(Or(Get(item, "Date"), Get(item, "date")), tz)
    case None => None
    case Some(k) => Some(Point(k, NumberOrZero(Get(item, valueField))))
  }

  /** `items.map(...).filter(item => item.date !== null)`. */
  function Points(items: seq<Record>, valueField: string, tz: TzOffset): (ps: seq<Point>)
    ensures |ps| <= |items|
    ensures forall p :: p in ps ==> exists item :: item in items && PointOf(item, valueField, tz) == Some(p)
  {
    if |items| == 0 then []
    else
      var rest := Points(items[1..], valueField, tz);
      assert forall item :: item in items[1..] ==> item in items;
      match PointOf(items[0], valueField, tz)
      case None => rest
      case Some(p) => [p] + rest
  }

  /** The map and the filter work record by record: the points of a concatenation are concatenated. */
  lemma {:induction false} PointsAppend(a: seq<Record>, b: seq<Record>, valueField: string, tz: TzOffset)
    ensures Points(a + b, valueField, tz) == Points(a, valueField, tz) + Points(b, valueField, tz)
  {
    if |a| == 0 {
      assert a + b == b;
    } else {
      assert (a + b)[0] == a[0];
      assert (a + b)[1..] == a[1..] + b;
      PointsAppend(a[1..], b, valueField, tz);
    }
  }

  /** A record is kept or dropped for its date alone: its return only sets the value, and a non-numeric one gives 0. */
  lemma PointValueIgnored(item: Record, valueField: string, v: JsVal, tz: TzOffset)
    requires valueField != "Date" && valueField != "date"
    ensures PointOf(item[valueField := v], valueField, tz).Some? == PointOf(item, valueField, tz).Some?
    ensures PointOf(item[valueField := v], valueField, tz).Some? ==>
              PointOf(item[valueField := v], valueField, tz).value.value == NumberOrZero(v)
    ensures PointOf(item[valueField := v], valueField, tz).Some? && ToNumber(v).None? ==>
              PointOf(item[valueField := v], valueField, tz).value.value == 0.0
  {
    assert Get(item[valueField := v], "Date") == Get(item, "Date");
    assert Get(item[valueField := v], "date") == Get(item, "date");
    assert Get(item[valueField := v], valueField) == v;
  }

  // ---------------------------------------------------------------------------
  // The ticker map: last write wins

  /** The map the forEach at the ticker side leaves: each non-empty key set to its value, in order. */
  function TickerMap(ts: seq<Point>): (m: map<string, real>)
    ensures forall k :: k in m <==> |k| > 0 && exists i :: 0 <= i < |ts| && ts[i].key == k
  {
    if |ts| == 0 then map[]
    else
      var p := ts[|ts| - 1];
      var m := TickerMap(ts[..|ts| - 1]);
      assert forall i :: 0 <= i < |ts| - 1 ==> ts[..|ts| - 1][i] == ts[i];
      if |p.key| > 0 then m[p.key := p.value] else m
  }

  /** A day that occurs several times on the ticker side keeps the value of its last occurrence. */
  lemma {:induction false} LastWriteWins(ts: seq<Point>, i: nat)
    requires i < |ts| && |ts[i].key| > 0
    requires forall j :: i < j < |ts| ==> ts[j].key != ts[i].key
    ensures ts[i].key in TickerMap(ts) && TickerMap(ts)[ts[i].key] == ts[i].value
  {
    if i < |ts| - 1 {
      var u := ts[..|ts| - 1];
      assert forall j :: i < j < |u| ==> u[j] == ts[j];
      LastWriteWins(u, i);
    }
  }

  /** `tickerReturns.forEach(item => { if (item.date) tickerMap.set(item.date, item.tickerReturn) })`. */
  method BuildTickerMap(ts: seq<Point>) returns (m: map<string, real>)
    ensures m == TickerMap(ts)
  {
    m := map[];
    for i := 0 to |ts|
      invariant m == TickerMap(ts[..i])
    {
      assert ts[..i + 1][..i] == ts[..i];
      if |ts[i].key| > 0 {
        m := m[ts[i].key := ts[i].value];
      }
    }
    assert ts[..|ts|] == ts;
  }

  // ---------------------------------------------------------------------------
  // The join

  /** One chart point: the label `new Date(key).toLocaleDateString(...)` and both returns in percent. */
  datatype Row = Row(dayLabel: DateCell, portfolio: real, ticker: real)

  /** A portfolio point is kept when its key is non-empty and the ticker map has it. */
  predicate Matches(p: Point, m: map<string, real>) {
    |p.key| > 0 && p.key in m
  }

  function RowOf(p: Point, m: map<string, real>, tz: TzOffset): Row
    requires Matches(p, m)
  {
    Row(DateCellOf(Str(p.key), tz), p.value * 100.0, m[p.key] * 100.0)
  }

  /** The rows the portfolio walk pushes, in portfolio order. */
  function Join(ps: seq<Point>, m: map<string, real>, tz: TzOffset): (rows: seq<Row>)
    ensures |rows| <= |ps|
    ensures forall r :: r in rows ==> exists p :: p in ps && Matches(p, m) && r == RowOf(p, m, tz)
  {
    if |ps| == 0 then []
    else
      var p := ps[|ps| - 1];
      var rest := Join(ps[..|ps| - 1], m, tz);
      assert forall q :: q in ps[..|ps| - 1] ==> q in ps;
      if Matches(p, m) then rest + [RowOf(p, m, tz)] else rest
  }

  /** The join works point by point, so it keeps the portfolio order. */
  lemma {:induction false} JoinAppend(a: seq<Point>, b: seq<Point>, m: map<string, real>, tz: TzOffset)
    ensures Join(a + b, m, tz) == Join(a, m, tz) + Join(b, m, tz)
    decreases |b|
  {
    if |b| == 0 {
      assert a + b == a;
    } else {
      var b' := b[..|b| - 1];
      assert (a + b)[..|a + b| - 1] == a + b';
      assert (a + b)[|a + b| - 1] == b[|b| - 1];
      JoinAppend(a, b', m, tz);
    }
  }

  /** Without ticker days nothing matches. */
  lemma {:induction false} JoinEmptyMap(ps: seq<Point>, tz: TzOffset)
    ensures Join(ps, map[], tz) == []
  {
    if |ps| > 0 {
      JoinEmptyMap(ps[..|ps| - 1], tz);
    }
  }

  /** One portfolio point gives one row when the ticker has its day, none otherwise. */
  lemma JoinSingle(p: Point, m: map<string, real>, tz: TzOffset)
    ensures Matches(p, m) ==> Join([p], m, tz) == [RowOf(p, m, tz)]
    ensures !Matches(p, m) ==> Join([p], m, tz) == []
  {
    assert [p][..0] == [];
  }

  /** Repeated portfolio days are not collapsed: each occurrence has its row. */
  lemma JoinDuplicates(a: seq<Point>, p: Point, b: seq<Point>, c: seq<Point>, m: map<string, real>, tz: TzOffset)
    requires Matches(p, m)
    ensures Join(a + [p] + b + [p] + c, m, tz)
         == Join(a, m, tz) + [RowOf(p, m, tz)] + Join(b, m, tz) + [RowOf(p, m, tz)] + Join(c, m, tz)
  {
    JoinAppend(a + [p] + b + [p], c, m, tz);
    JoinAppend(a + [p] + b, [p], m, tz);
    JoinAppend(a + [p], b, m, tz);
    JoinAppend(a, [p], m, tz);
    JoinSingle(p, m, tz);
  }

  /** The three chart arrays are the columns of the rows. */
  predicate IsColumnsOf(rows: seq<Row>, labels: seq<DateCell>, portfolioValues: seq<real>, tickerValues: seq<real>) {
    |labels| == |rows| && |portfolioValues| == |rows| && |tickerValues| == |rows| &&
    forall i :: 0 <= i < |rows| ==> rows[i] == Row(labels[i], portfolioValues[i], tickerValues[i])
  }

  /** The rows read back from three columns of equal length. */
  function RowsOf(labels: seq<DateCell>, portfolioValues: seq<real>, tickerValues: seq<real>): seq<Row>
    requires |portfolioValues| == |labels| && |tickerValues| == |labels|
  {
    seq(|labels|, i requires 0 <= i < |labels| => Row(labels[i], portfolioValues[i], tickerValues[i]))
  }

  /** The columns determine the rows. */
  lemma ColumnsDetermineRows(rows: seq<Row>, labels: seq<DateCell>, portfolioValues: seq<real>, tickerValues: seq<real>)
    requires IsColumnsOf(rows, labels, portfolioValues, tickerValues)
    ensures RowsOf(labels, portfolioValues, tickerValues) == rows
  {
  }

  /** The forEach over the portfolio points that pushes label, portfolio and ticker values. */
  method CombineByDate(ps: seq<Point>, m: map<string, real>, tz: TzOffset)
    returns (labels: seq<DateCell>, portfolioValues: seq<real>, tickerValues: seq<real>)
    ensures IsColumnsOf(Join(ps, m, tz), labels, portfolioValues, tickerValues)
  {
    labels, portfolioValues, tickerValues := [], [], [];
    for i := 0 to |ps|
      invariant IsColumnsOf(Join(ps[..i], m, tz), labels, portfolioValues, tickerValues)
    {
      JoinStep(ps, i, m, tz);
      var p := ps[i];
      if |p.key| > 0 && p.key in m {
        var tickerReturn := m[p.key];
        var cell := DateCellOf(Str(p.key), tz);
        ColumnsPush(Join(ps[..i], m, tz), labels, portfolioValues, tickerValues,
                    cell, p.value * 100.0, tickerReturn * 100.0);
        labels := labels + [cell];
        portfolioValues := portfolioValues + [p.value * 100.0];
        tickerValues := tickerValues + [tickerReturn * 100.0];
      }
    }
    assert ps[..|ps|] == ps;
  }

  /** One more point joins at most one more row. */
  lemma JoinStep(ps: seq<Point>, i: nat, m: map<string, real>, tz: TzOffset)
    requires i < |ps|
    ensures Matches(ps[i], m) ==> Join(ps[..i + 1], m, tz) == Join(ps[..i], m, tz) + [RowOf(ps[i], m, tz)]
    ensures !Matches(ps[i], m) ==> Join(ps[..i + 1], m, tz) == Join(ps[..i], m, tz)
  {
    assert ps[..i + 1][..i] == ps[..i];
  }

  /** Pushing a row's three cells onto the columns pushes the row. */
  lemma ColumnsPush(rows: seq<Row>, labels: seq<DateCell>, portfolioValues: seq<real>, tickerValues: seq<real>,
                    cell: DateCell, portfolio: real, ticker: real)
    requires IsColumnsOf(rows, labels, portfolioValues, tickerValues)
    ensures IsColumnsOf(rows + [Row(cell, portfolio, ticker)], labels + [cell], portfolioValues + [portfolio], tickerValues + [ticker])
  {
  }

  // ---------------------------------------------------------------------------
  // prepareChartData

  /** The part of tickerData the chart reads: its `prices` array, if it has one. */
  datatype TickerData = TickerData(prices: Option<seq<Record>>)

  /** The rows prepareChartData aligns; no rows when either side is absent. */
  function ChartRows(portfolioData: Option<seq<Record>>, tickerData: Option<TickerData>, tz: TzOffset): seq<Row> {
    if portfolioData.None? || tickerData.None? || tickerData.value.prices.None? then []
    else
      var ps := Points(portfolioData.value, "portfolio_return", tz);
      var ts := Points(tickerData.value.prices.value, "return", tz);
      Join(ps, TickerMap(ts), tz)
  }

  /** Empty sides give no rows: the early returns for empty arrays agree with the main path. */
  lemma EmptySidesGiveNoRows(portfolioData: Option<seq<Record>>, tickerData: Option<TickerData>, tz: TzOffset)
    requires portfolioData.None? || |portfolioData.value| == 0 || tickerData.None? ||
             tickerData.value.prices.None? || |tickerData.value.prices.value| == 0
    ensures ChartRows(portfolioData, tickerData, tz) == []
  {
    if portfolioData.Some? && tickerData.Some? && tickerData.value.prices.Some? {
      var ps := Points(portfolioData.value, "portfolio_return", tz);
      if |portfolioData.value| > 0 {
        JoinEmptyMap(ps, tz);
      }
    }
  }

  /** prepareChartData: three empty arrays for a missing or empty side, else the columns of the join. */
  method PrepareChartData(portfolioData: Option<seq<Record>>, tickerData: Option<TickerData>, tz: TzOffset)
    returns (labels: seq<DateCell>, portfolioValues: seq<real>, tickerValues: seq<real>)
    ensures IsColumnsOf(ChartRows(portfolioData, tickerData, tz), labels, portfolioValues, tickerValues)
  {
    if portfolioData.None? || |portfolioData.value| == 0 {
      EmptySidesGiveNoRows(portfolioData, tickerData, tz);
      return [], [], [];
    }
    if tickerData.None? || tickerData.value.prices.None? || |tickerData.value.prices.value| == 0 {
      EmptySidesGiveNoRows(portfolioData, tickerData, tz);
      return [], [], [];
    }
    var ps := Points(portfolioData.value, "portfolio_return", tz);
    var ts := Points(tickerData.value.prices.value, "return", tz);
    var m := BuildTickerMap(ts);
    labels, portfolioValues, tickerValues := CombineByDate(ps, m, tz);
  }

  // ---------------------------------------------------------------------------
  // The labels

  /** The local day of the UTC midnight of day number n: that day where the zone is not west of UTC, else the day before. */
  lemma LocalDayOfMidnight(n: int, tz: TzOffset)
    ensures tz >= 0 ==> LocalDay(n * MsPerDay, tz) == FromDayNumber(n)
    ensures tz < 0 ==> LocalDay(n * MsPerDay, tz) == FromDayNumber(n - 1)
  {
    var x := n * MsPerDay + tz * MsPerMinute;
    if tz >= 0 {
      UtcDayOfDayNumber(n, x);
    } else {
      UtcDayOfDayNumber(n - 1, x);
    }
  }

  /** A value that `new Date` reads as the UTC midnight of day n is labelled day n east of UTC and day n - 1 west of it. */
  lemma LabelOfUtcMidnight(v: JsVal, tz: TzOffset, n: int)
    requires Truthy(v) && NewDate(v, tz) == Some(n * MsPerDay)
    ensures tz >= 0 ==> DateCellOf(v, tz) == LocalDate(FromDayNumber(n))
    ensures tz < 0 ==> DateCellOf(v, tz) == LocalDate(FromDayNumber(n - 1))
  {
    LocalDayOfMidnight(n, tz);
  }

  /** The same for a value read as the UTC midnight of a calendar day d. */
  lemma LabelOfDayMidnight(v: JsVal, tz: TzOffset, d: Day)
    requires ValidDay(d) && Truthy(v) && NewDate(v, tz) == Some(DayNumber(d) * MsPerDay)
    ensures tz >= 0 ==> DateCellOf(v, tz) == LocalDate(d)
    ensures tz < 0 ==> DateCellOf(v, tz) == LocalDate(AddDays(d, -1))
  {
    var n := DayNumber(d);
    if tz >= 0 {
      assert DateCellOf(v, tz) == LocalDate(FromDayNumber(n)) by {
        LabelOfUtcMidnight(v, tz, n);
      }
      FromDayNumberRoundTrip(d);
    } else {
      assert DateCellOf(v, tz) == LocalDate(FromDayNumber(n - 1)) by {
        LabelOfUtcMidnight(v, tz, n);
      }
    }
  }

  /** A key's label is the local day of its UTC midnight: the key's own day east of UTC, the day before west of it. */
  lemma LabelOfKey(t: int, tz: TzOffset)
    requires -MaxTimeValue <= t <= MaxTimeValue
    ensures tz >= 0 ==> DateCellOf(Str(IsoDateKey(t)), tz) == LocalDate(UtcDay(t))
    ensures tz < 0 ==> DateCellOf(Str(IsoDateKey(t)), tz) == LocalDate(AddDays(UtcDay(t), -1))
  {
    DateOfIsoDateKey(t, tz);
    LabelOfDayMidnight(Str(IsoDateKey(t)), tz, UtcDay(t));
  }

  // ---------------------------------------------------------------------------
  // The debug table

  /** One table line: label, both values, difference, and whether the difference carries a '+'. */
  datatype DiffRow = DiffRow(dayLabel: DateCell, portfolio: real, ticker: real, difference: real, plusSign: bool)

  /** The table: the header's match count, the lines shown, and the "... y N fechas más" trailer. */
  datatype DiffTable = DiffTable(matchCount: nat, rows: seq<DiffRow>, moreDates: Option<nat>)

  const TableRows: nat := 15

  function DiffRowOf(r: Row): (d: DiffRow)
    ensures d.dayLabel == r.dayLabel && d.portfolio == r.portfolio && d.ticker == r.ticker
    ensures d.portfolio == d.ticker + d.difference
    ensures d.plusSign <==> d.portfolio > d.ticker
  {
    var difference := r.portfolio - r.ticker;
    DiffRow(r.dayLabel, r.portfolio, r.ticker, difference, difference > 0.0)
  }

  function DiffRows(rows: seq<Row>): (ds: seq<DiffRow>)
    ensures |ds| == |rows|
    ensures forall i :: 0 <= i < |rows| ==> ds[i] == DiffRowOf(rows[i])
  {
    if |rows| == 0 then [] else [DiffRowOf(rows[0])] + DiffRows(rows[1..])
  }

  /** `labels.slice(0, 15).map(...)` with the trailer when there are more than 15 matches. */
  function DiffTableOf(rows: seq<Row>): (t: DiffTable)
    ensures t.matchCount == |rows|
    ensures |t.rows| == if |rows| <= TableRows then |rows| else TableRows
    ensures forall i :: 0 <= i < |t.rows| ==> t.rows[i] == DiffRowOf(rows[i])
    ensures t.moreDates.Some? <==> |rows| > TableRows
    ensures t.moreDates.Some? ==> t.rows[..] == DiffRows(rows)[..TableRows] && t.moreDates.value + |t.rows| == |rows|
  {
    DiffTable(|rows|, DiffRows(Take(rows, TableRows)),
              if |rows| > TableRows then Some(|rows| - TableRows) else None)
  }

  // ---------------------------------------------------------------------------
  // What the component shows

  datatype View =
    | MissingData
    | NoMatchingDates
    | Chart(labels: seq<DateCell>, portfolioValues: seq<real>, tickerValues: seq<real>, table: DiffTable)

  /** The component: a message without data, another without matching days, else the chart and its table. */
  method Render(portfolioData: Option<seq<Record>>, tickerData: Option<TickerData>, tz: TzOffset) returns (v: View)
    ensures v == MissingData <==> portfolioData.None? || tickerData.None?
    ensures v == NoMatchingDates <==> portfolioData.Some? && tickerData.Some? && ChartRows(portfolioData, tickerData, tz) == []
    ensures v.Chart? ==> IsColumnsOf(ChartRows(portfolioData, tickerData, tz), v.labels, v.portfolioValues, v.tickerValues)
    ensures v.Chart? ==> v.table == DiffTableOf(ChartRows(portfolioData, tickerData, tz))
  {
    if portfolioData.None? || tickerData.None? {
      return MissingData;
    }
    var labels, portfolioValues, tickerValues := PrepareChartData(portfolioData, tickerData, tz);
    if |labels| == 0 || |portfolioValues| == 0 || |tickerValues| == 0 {
      return NoMatchingDates;
    }
    ColumnsDetermineRows(ChartRows(portfolioData, tickerData, tz), labels, portfolioValues, tickerValues);
    v := Chart(labels, portfolioValues, tickerValues, DiffTableOf(RowsOf(labels, portfolioValues, tickerValues)));
  }
}
