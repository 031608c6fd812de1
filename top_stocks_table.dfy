/**
 * The top-stocks table: each record is reduced to date, symbol, engagement and
 * rank, the distinct dates are offered as months in date order, a selected
 * month filters the records to that date, the result is sorted by date and
 * then by rank, ten rows (or all) are shown, and the CSV export lists every
 * filtered row in sorted order.
 */
module TopStocksTable {
  import opened Wrappers
  import opened JsValue
  import opened JsDate
  import opened Sequences
  import opened Paging

  /** A normalised record. */
  datatype Stock = Stock(date: JsVal, symbol: JsVal, engagement: JsVal, rank: JsVal)

  /** `{ date: item.date || '', symbol: item.symbol || '', engagement: item.engagement || item.engagement_ratio || 0, rank: item.rank || 0 }`. */
  function Normalize(item: Record): (e: Stock)
    ensures e.date == if Truthy(Get(item, "date")) then Get(item, "date") else Str("")
    ensures e.symbol == if Truthy(Get(item, "symbol")) then Get(item, "symbol") else Str("")
    ensures Truthy(Get(item, "engagement")) ==> e.engagement == Get(item, "engagement")
    ensures !Truthy(Get(item, "engagement")) && Truthy(Get(item, "engagement_ratio")) ==>
              e.engagement == Get(item, "engagement_ratio")
    ensures !Truthy(Get(item, "engagement")) && !Truthy(Get(item, "engagement_ratio")) ==> e.engagement == Num(0.0)
    ensures e.rank == if Truthy(Get(item, "rank")) then Get(item, "rank") else Num(0.0)
  {
    Stock(Or(Get(item, "date"), Str("")),
          Or(Get(item, "symbol"), Str("")),
          Or(Or(Get(item, "engagement"), Get(item, "engagement_ratio")), Num(0.0)),
          Or(Get(item, "rank"), Num(0.0)))
  }

  function Normalized(data: seq<Record>): (u: seq<Stock>)
    ensures |u| == |data| && forall i :: 0 <= i < |data| ==> u[i] == Normalize(data[i])
  {
    seq(|data|, i requires 0 <= i < |data| => Normalize(data[i]))
  }

  // ---------------------------------------------------------------------------
  // The month selector

  function Dates(u: seq<Stock>): (ds: seq<JsVal>)
    ensures |ds| == |u| && forall i :: 0 <= i < |u| ==> ds[i] == u[i].date
  {
    seq(|u|, i requires 0 <= i < |u| => u[i].date)
  }

  /** `(a, b) => new Date(a) - new Date(b)`, with NaN read as 0 by the sort. */
  function DateOrder(tz: TzOffset): (JsVal, JsVal) -> real {
    (a: JsVal, b: JsVal) => SortResult(DateDifference(a, b, tz))
  }

  /** `[...new Set(dates)].sort(...)`. */
  function SortedMonths(data: seq<Record>, tz: TzOffset): (ms: seq<JsVal>)
    ensures forall x :: x in ms <==> x in Dates(Normalized(data))
    ensures forall i, j :: 0 <= i < j < |ms| ==> ms[i] != ms[j]
  {
    SortDistinct(Dates(Normalized(data)), DateOrder(tz));
    Sort(Distinct(Dates(Normalized(data))), DateOrder(tz))
  }

  /** A value is a date of the data. */
  predicate IsDateOf(data: seq<Record>, x: JsVal) {
    exists i :: 0 <= i < |data| && Normalize(data[i]).date == x
  }

  lemma DatesOf(data: seq<Record>, x: JsVal)
    ensures x in Dates(Normalized(data)) <==> IsDateOf(data, x)
  {
    var ds := Dates(Normalized(data));
    if x in ds {
      var k :| 0 <= k < |ds| && ds[k] == x;
      assert Normalize(data[k]).date == x;
    }
    if IsDateOf(data, x) {
      var k :| 0 <= k < |data| && Normalize(data[k]).date == x;
      assert ds[k] == x;
    }
  }

  /** Every date of the data is offered exactly once, and nothing else is. */
  lemma MonthsDistinct(data: seq<Record>, tz: TzOffset)
    ensures forall x :: multiset(SortedMonths(data, tz))[x] == if IsDateOf(data, x) then 1 else 0
    ensures forall i, j :: 0 <= i < j < |SortedMonths(data, tz)| ==> SortedMonths(data, tz)[i] != SortedMonths(data, tz)[j]
  {
    SortDistinct(Dates(Normalized(data)), DateOrder(tz));
    forall x ensures multiset(SortedMonths(data, tz))[x] == if IsDateOf(data, x) then 1 else 0 {
      DatesOf(data, x);
    }
  }

  /** Valid dates, none after a later one. */
  predicate DatesAscending(ms: seq<JsVal>, tz: TzOffset) {
    (forall i :: 0 <= i < |ms| ==> NewDate(ms[i], tz).Some?) &&
    forall i, j :: 0 <= i < j < |ms| ==> NewDate(ms[i], tz).value <= NewDate(ms[j], tz).value
  }

  /** On valid dates the month comparator is the difference of the time values. */
  lemma DateOrderIsDifference(u: seq<JsVal>, tz: TzOffset)
    requires forall x :: x in u ==> NewDate(x, tz).Some?
    ensures forall a, b :: a in u && b in u ==>
      DateOrder(tz)(a, b) == (NewDate(a, tz).GetOr(0) - NewDate(b, tz).GetOr(0)) as real
  {
  }

  /** When every date is valid the months run from the earliest to the latest. */
  lemma MonthsAscending(data: seq<Record>, tz: TzOffset)
    requires forall i :: 0 <= i < |data| ==> NewDate(Normalize(data[i]).date, tz).Some?
    ensures DatesAscending(SortedMonths(data, tz), tz)
  {
    var ds := Dates(Normalized(data));
    var u := Distinct(ds);
    var ms := Sort(u, DateOrder(tz));
    forall x | x in u ensures NewDate(x, tz).Some? {
      var k :| 0 <= k < |ds| && ds[k] == x;
      assert x == Normalize(data[k]).date;
    }
    forall i | 0 <= i < |ms| ensures NewDate(ms[i], tz).Some? {
      assert ms[i] in ms;
      SortValues(u, DateOrder(tz), ms[i]);
    }
    DateOrderIsDifference(u, tz);
    SortByKey(u, DateOrder(tz), (x: JsVal) => NewDate(x, tz).GetOr(0));
  }

  // ---------------------------------------------------------------------------
  // Filter and sort

  /** `selectedMonth ? data.filter(item => item.date === selectedMonth) : data`; None is null. */
  function Filtered(u: seq<Stock>, selectedMonth: Option<string>): (r: seq<Stock>)
    ensures |r| <= |u| && forall e :: e in r ==> e in u
    ensures selectedMonth.Some? && selectedMonth.value != "" ==> forall e :: e in r ==> e.date == Str(selectedMonth.value)
  {
    if selectedMonth.Some? && Truthy(Str(selectedMonth.value)) then
      Filter(u, (e: Stock) => e.date == Str(selectedMonth.value))
    else u
  }

  /** With a month selected every row left has that date, and every row with that date is left, as often as it occurs. */
  lemma FilteredRows(u: seq<Stock>, m: string, e: Stock)
    requires m != ""
    ensures e in Filtered(u, Some(m)) ==> e.date == Str(m)
    ensures e.date == Str(m) ==> multiset(Filtered(u, Some(m)))[e] == multiset(u)[e]
    ensures e.date != Str(m) ==> multiset(Filtered(u, Some(m)))[e] == 0
  {
    FilterCount(u, (x: Stock) => x.date == Str(m), e);
  }

  /** Without a month, or with the empty option, nothing is filtered out. */
  lemma NoMonthNoFilter(u: seq<Stock>, selectedMonth: Option<string>)
    requires selectedMonth.None? || selectedMonth.value == ""
    ensures Filtered(u, selectedMonth) == u
  {
  }

  /** The comparator: the date difference unless it is exactly 0 (a NaN difference is returned and read as 0), then the rank difference. */
  function ByDateThenRank(tz: TzOffset): (cmp: (Stock, Stock) -> real)
    ensures forall a: Stock, b: Stock :: NewDate(a.date, tz).None? || NewDate(b.date, tz).None? ==> cmp(a, b) == 0.0
  {
    (a: Stock, b: Stock) =>
      var dateCompare := DateDifference(a.date, b.date, tz);
      if dateCompare != Some(0.0) then SortResult(dateCompare)
      else SortResult(Subtract(a.rank, b.rank))
  }

  function SortedData(u: seq<Stock>, tz: TzOffset): (r: seq<Stock>)
    ensures |r| == |u| && multiset(r) == multiset(u)
  {
    Sort(u, ByDateThenRank(tz))
  }

  /** A row's sort key: its time value and its rank as a number, when both exist. */
  predicate Keyed(e: Stock, tz: TzOffset) {
    NewDate(e.date, tz).Some? && ToNumber(e.rank).Some?
  }

  /** Lexicographic order of (time, rank): what the comparator says about keyed rows. */
  predicate KeyLe(a: Stock, b: Stock, tz: TzOffset)
    requires Keyed(a, tz) && Keyed(b, tz)
  {
    NewDate(a.date, tz).value < NewDate(b.date, tz).value ||
    (NewDate(a.date, tz).value == NewDate(b.date, tz).value && ToNumber(a.rank).value <= ToNumber(b.rank).value)
  }

  /** On keyed rows the comparator allows a before b exactly when (time, rank) of a is not above that of b. */
  lemma ComparatorIsKeyOrder(a: Stock, b: Stock, tz: TzOffset)
    requires Keyed(a, tz) && Keyed(b, tz)
    ensures ByDateThenRank(tz)(a, b) <= 0.0 <==> KeyLe(a, b, tz)
  {
    var ta, tb := NewDate(a.date, tz).value, NewDate(b.date, tz).value;
    var ra, rb := ToNumber(a.rank).value, ToNumber(b.rank).value;
    assert ByDateThenRank(tz)(a, b) == if ta != tb then (ta - tb) as real else ra - rb;
  }

  /** Lexicographic order is a total preorder. */
  lemma KeyLeTotalPreorder(a: Stock, b: Stock, c: Stock, tz: TzOffset)
    requires Keyed(a, tz) && Keyed(b, tz) && Keyed(c, tz)
    ensures KeyLe(a, b, tz) || KeyLe(b, a, tz)
    ensures KeyLe(a, b, tz) && KeyLe(b, c, tz) ==> KeyLe(a, c, tz)
  {
  }

  /** With valid dates and numeric ranks the comparator is a consistent one. */
  lemma ByDateThenRankConsistent(u: seq<Stock>, tz: TzOffset)
    requires forall e :: e in u ==> Keyed(e, tz)
    ensures ConsistentOn(ByDateThenRank(tz), u)
  {
    var cmp := ByDateThenRank(tz);
    forall a, b | a in u && b in u ensures cmp(a, b) <= 0.0 || cmp(b, a) <= 0.0 {
      ComparatorIsKeyOrder(a, b, tz);
      ComparatorIsKeyOrder(b, a, tz);
      KeyLeTotalPreorder(a, b, a, tz);
    }
    forall a, b, c | a in u && b in u && c in u && cmp(a, b) <= 0.0 && cmp(b, c) <= 0.0
      ensures cmp(a, c) <= 0.0
    {
      ComparatorIsKeyOrder(a, b, tz);
      ComparatorIsKeyOrder(b, c, tz);
      ComparatorIsKeyOrder(a, c, tz);
      KeyLeTotalPreorder(a, b, c, tz);
    }
  }

  /** Rows ordered by date and, within a date, by rank. */
  predicate OrderedByDateThenRank(r: seq<Stock>, tz: TzOffset) {
    (forall i :: 0 <= i < |r| ==> Keyed(r[i], tz)) &&
    forall i, j :: 0 <= i < j < |r| ==> KeyLe(r[i], r[j], tz)
  }

  /** With valid dates and numeric ranks the sorted rows are ordered by date, then by rank. */
  lemma SortedByDateThenRank(u: seq<Stock>, tz: TzOffset)
    requires forall i :: 0 <= i < |u| ==> Keyed(u[i], tz)
    ensures OrderedByDateThenRank(SortedData(u, tz), tz)
  {
    var r := Sort(u, ByDateThenRank(tz));
    ByDateThenRankConsistent(u, tz);
    SortSorted(u, ByDateThenRank(tz));
    forall i | 0 <= i < |r| ensures Keyed(r[i], tz) {
      assert r[i] in r;
      SortValues(u, ByDateThenRank(tz), r[i]);
    }
    forall i, j | 0 <= i < j < |r| ensures KeyLe(r[i], r[j], tz) {
      ComparatorIsKeyOrder(r[i], r[j], tz);
    }
  }

  // ---------------------------------------------------------------------------
  // Table, selector and CSV

  /** A month option: its value and its caption, the unguarded local month of the date (the locale text left abstract). */
  datatype MonthOption = MonthOption(value: JsVal, caption: DateCell)

  /** A table line; `engagement` is the number whose toFixed(4) text is shown, the text itself left abstract. */
  datatype TableRow = TableRow(dateCell: DateCell, symbol: JsVal, engagement: real, rank: JsVal)

  /** A shown row's cells, for a row whose engagement is a number. */
  function RowOf(e: Stock, tz: TzOffset): TableRow
    requires e.engagement.Num?
  {
    TableRow(DateCellOf(e.date, tz), e.symbol, e.engagement.x, e.rank)
  }

  /** formatEngagement calls `value.toFixed(4)`, which only numbers have: any other engagement throws a TypeError. */
  predicate Formattable(e: Stock) {
    e.engagement.Num?
  }

  /** One CSV line `"<date cell>","<symbol>",<engagement>,<rank>`. */
  datatype CsvLine = CsvLine(dateCell: DateCell, symbol: JsVal, engagement: JsVal, rank: JsVal)

  datatype Csv = Csv(header: string, lines: seq<CsvLine>)

  const CsvHeader: string := "Fecha,Símbolo,Engagement,Ranking"

  /** downloadCSV: the header and one line per filtered row, in sorted order. */
  function CsvOf(sorted: seq<Stock>, tz: TzOffset): (c: Csv)
    ensures c.header == CsvHeader && |c.lines| == |sorted|
    ensures forall i :: 0 <= i < |sorted| ==>
      c.lines[i] == CsvLine(DateCellOf(sorted[i].date, tz), sorted[i].symbol, sorted[i].engagement, sorted[i].rank)
  {
    Csv(CsvHeader, seq(|sorted|, i requires 0 <= i < |sorted| =>
      CsvLine(DateCellOf(sorted[i].date, tz), sorted[i].symbol, sorted[i].engagement, sorted[i].rank)))
  }

  datatype View =
    | EmptyMessage
    | RenderError
    | Table(months: seq<MonthOption>, rows: seq<TableRow>, controls: Controls, csv: Csv)

  /** The component for `data` (None: absent or not an array), the selected month and the toggle state. */
  function Render(data: Option<seq<Record>>, selectedMonth: Option<string>, showAll: bool, tz: TzOffset): (v: View)
    ensures v.EmptyMessage? <==> data.None? || |data.value| == 0
    ensures v.RenderError? <==>
      data.Some? && |data.value| > 0 &&
      exists e :: e in Displayed(SortedData(Filtered(Normalized(data.value), selectedMonth), tz), showAll) && !Formattable(e)
    ensures v.Table? ==>
      var ms := SortedMonths(data.value, tz);
      |v.months| == |ms| && forall i :: 0 <= i < |ms| ==> v.months[i] == MonthOption(ms[i], DateCaption(ms[i], tz))
    ensures v.Table? ==>
      var filtered := Filtered(Normalized(data.value), selectedMonth);
      var shown := Displayed(SortedData(filtered, tz), showAll);
      |v.rows| == |shown| && (forall i :: 0 <= i < |shown| ==> Formattable(shown[i]) && v.rows[i] == RowOf(shown[i], tz)) &&
      v.controls == ControlsOf(|filtered|, showAll) &&
      v.csv == CsvOf(SortedData(filtered, tz), tz)
  {
    if data.None? || |data.value| == 0 then EmptyMessage
    else
      var ms := SortedMonths(data.value, tz);
      var filtered := Filtered(Normalized(data.value), selectedMonth);
      var sorted := SortedData(filtered, tz);
      var shown := Displayed(sorted, showAll);
      match TableRows(shown, tz)
      case None => RenderError
      case Some(rows) => Table(MonthOptions(ms, tz), rows, ControlsOf(|filtered|, showAll), CsvOf(sorted, tz))
  }

  /** The month dropdown's options, one per month in order, captioned without the 'N/A' guard. */
  function MonthOptions(ms: seq<JsVal>, tz: TzOffset): (r: seq<MonthOption>)
    ensures |r| == |ms| && forall i :: 0 <= i < |ms| ==> r[i] == MonthOption(ms[i], DateCaption(ms[i], tz))
  {
    seq(|ms|, i requires 0 <= i < |ms| => MonthOption(ms[i], DateCaption(ms[i], tz)))
  }

  /** A record without a date still becomes a month: the empty text, captioned "Invalid Date". */
  lemma UndatedMonthIsInvalidDate(data: seq<Record>, tz: TzOffset)
    requires exists i :: 0 <= i < |data| && !Truthy(Get(data[i], "date"))
    ensures Str("") in SortedMonths(data, tz)
    ensures MonthOption(Str(""), InvalidDate) in MonthOptions(SortedMonths(data, tz), tz)
  {
    var i :| 0 <= i < |data| && !Truthy(Get(data[i], "date"));
    assert IsDateOf(data, Str(""));
    MonthsDistinct(data, tz);
    var ms := SortedMonths(data, tz);
    assert Str("") in multiset(ms);
    var k :| 0 <= k < |ms| && ms[k] == Str("");
    EmptyDateCells(tz);
    assert MonthOptions(ms, tz)[k] == MonthOption(Str(""), InvalidDate);
  }

  /** The table body, one row per shown record in order; None is the TypeError of a shown engagement that is not a number. */
  function TableRows(shown: seq<Stock>, tz: TzOffset): (r: Option<seq<TableRow>>)
    ensures r.Some? <==> forall e :: e in shown ==> Formattable(e)
    ensures r.Some? ==> |r.value| == |shown| && forall i :: 0 <= i < |shown| ==> Formattable(shown[i]) && r.value[i] == RowOf(shown[i], tz)
  {
    if forall e :: e in shown ==> Formattable(e) then
      Some(seq(|shown|, i requires 0 <= i < |shown| && Formattable(shown[i]) => RowOf(shown[i], tz)))
    else None
  }

  /** Only the shown rows are formatted: when every record's engagement is a number, the table renders. */
  lemma NumericEngagementRenders(data: seq<Record>, selectedMonth: Option<string>, showAll: bool, tz: TzOffset)
    requires |data| > 0
    requires forall i :: 0 <= i < |data| ==> Normalize(data[i]).engagement.Num?
    ensures Render(Some(data), selectedMonth, showAll, tz).Table?
  {
    var u := Normalized(data);
    var filtered := Filtered(u, selectedMonth);
    var sorted := SortedData(filtered, tz);
    var shown := Displayed(sorted, showAll);
    forall e | e in shown ensures Formattable(e) {
      assert e in sorted;
      assert e in multiset(filtered);
      assert e in filtered && e in u;
      var k :| 0 <= k < |u| && u[k] == e;
      assert e == Normalize(data[k]);
    }
  }

  /** A text engagement on a shown row throws: `"0.5".toFixed` is not a function. */
  lemma TextEngagementThrows(data: seq<Record>, tz: TzOffset)
    requires |data| == 1 && Get(data[0], "engagement") == Str("0.5")
    ensures Render(Some(data), None, false, tz).RenderError?
  {
    var u := Normalized(data);
    assert u == [Normalize(data[0])];
    var sorted := SortedData(u, tz);
    assert |sorted| == 1 && sorted[0] in multiset(u);
    var shown := Displayed(sorted, false);
    assert shown[0] == Normalize(data[0]) && !Formattable(shown[0]);
  }

  /** The CSV holds the filtered rows, however many the table shows, and the controls count the filtered rows. */
  lemma RenderCounts(data: seq<Record>, selectedMonth: Option<string>, showAll: bool, tz: TzOffset)
    requires |data| > 0
    ensures !Render(Some(data), selectedMonth, showAll, tz).EmptyMessage?
    ensures Render(Some(data), selectedMonth, showAll, tz).Table? ==>
      var n := |Filtered(Normalized(data), selectedMonth)|;
      |Render(Some(data), selectedMonth, showAll, tz).csv.lines| == n &&
      |Render(Some(data), selectedMonth, showAll, tz).rows| == (if showAll || n < PageRows then n else PageRows)
    ensures Render(Some(data), selectedMonth, showAll, tz).Table? && Render(Some(data), selectedMonth, !showAll, tz).Table? ==>
      Render(Some(data), selectedMonth, showAll, tz).csv == Render(Some(data), selectedMonth, !showAll, tz).csv
  {
  }
}
