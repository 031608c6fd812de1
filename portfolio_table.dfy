/**
 * The portfolio returns table: each record is reduced to a date and a return
 * (`Date`, else `date`, else ''; `portfolio_return`, else `return`, else 0), a
 * copy is sorted by date, the first ten rows (or all of them) are shown with
 * the return in percent and a sign, and the CSV export lists every sorted row.
 */
module PortfolioTable {
  import opened Wrappers
  import opened JsValue
  import opened JsDate
  import opened Sequences
  import opened Paging

  /** A normalised record. */
  datatype Entry = Entry(date: JsVal, ret: JsVal)

  /** `{ date: item.Date || item.date || '', return: item.portfolio_return || item.return || 0 }`. */
  function Normalize(item: Record): (e: Entry)
    ensures Truthy(Get(item, "Date")) ==> e.date == Get(item, "Date")
    ensures !Truthy(Get(item, "Date")) && Truthy(Get(item, "date")) ==> e.date == Get(item, "date")
    ensures !Truthy(Get(item, "Date")) && !Truthy(Get(item, "date")) ==> e.date == Str("")
    ensures Truthy(Get(item, "portfolio_return")) ==> e.ret == Get(item, "portfolio_return")
    ensures !Truthy(Get(item, "portfolio_return")) && Truthy(Get(item, "return")) ==> e.ret == Get(item, "return")
    ensures !Truthy(Get(item, "portfolio_return")) && !Truthy(Get(item, "return")) ==> e.ret == Num(0.0)
  {
    Entry(Or(Or(Get(item, "Date"), Get(item, "date")), Str("")),
          Or(Or(Get(item, "portfolio_return"), Get(item, "return")), Num(0.0)))
  }

  /** A zero `portfolio_return` is falsy and falls through to `return`. */
  lemma ZeroReturnFallsThrough(item: Record)
    requires Get(item, "portfolio_return") == Num(0.0)
    ensures Normalize(item).ret == (if Truthy(Get(item, "return")) then Get(item, "return") else Num(0.0))
  {
  }

  function Normalized(data: seq<Record>): (u: seq<Entry>)
    ensures |u| == |data| && forall i :: 0 <= i < |data| ==> u[i] == Normalize(data[i])
  {
    seq(|data|, i requires 0 <= i < |data| => Normalize(data[i]))
  }

  /** `(a, b) => new Date(a.date) - new Date(b.date)`, with NaN read as 0 by the sort. */
  function ByDate(tz: TzOffset): (cmp: (Entry, Entry) -> real)
    ensures forall a: Entry, b: Entry :: NewDate(a.date, tz).None? || NewDate(b.date, tz).None? ==> cmp(a, b) == 0.0
    ensures forall a: Entry, b: Entry :: NewDate(a.date, tz).Some? && NewDate(b.date, tz).Some? ==>
      (cmp(a, b) <= 0.0 <==> NewDate(a.date, tz).value <= NewDate(b.date, tz).value)
  {
    (a: Entry, b: Entry) => SortResult(DateDifference(a.date, b.date, tz))
  }

  /** `[...normalizedData].sort(...)`: a reordering of the normalised records. */
  function SortedData(data: seq<Record>, tz: TzOffset): (r: seq<Entry>)
    ensures |r| == |data|
    ensures multiset(r) == multiset(Normalized(data))
  {
    Sort(Normalized(data), ByDate(tz))
  }

  /** Every record's date is one `new Date` accepts. */
  predicate AllDatesValid(data: seq<Record>, tz: TzOffset) {
    forall i :: 0 <= i < |data| ==> NewDate(Normalize(data[i]).date, tz).Some?
  }

  /** With valid dates only, the date comparator is a consistent one. */
  lemma ByDateConsistent(u: seq<Entry>, tz: TzOffset)
    requires forall e :: e in u ==> NewDate(e.date, tz).Some?
    ensures ConsistentOn(ByDate(tz), u)
  {
    KeyDifferenceConsistent(ByDate(tz), u, (e: Entry) => NewDate(e.date, tz).GetOr(0));
  }

  /** The normalised records satisfy the validity the consistency lemma asks for. */
  lemma NormalizedValid(data: seq<Record>, tz: TzOffset)
    requires AllDatesValid(data, tz)
    ensures forall e :: e in Normalized(data) ==> NewDate(e.date, tz).Some?
  {
    var u := Normalized(data);
    forall e | e in u ensures NewDate(e.date, tz).Some? {
      var k :| 0 <= k < |u| && u[k] == e;
      assert e == Normalize(data[k]);
    }
  }

  /** Every date is valid and no date comes after a later row's. */
  predicate Ascending(r: seq<Entry>, tz: TzOffset) {
    (forall i :: 0 <= i < |r| ==> NewDate(r[i].date, tz).Some?) &&
    forall i, j :: 0 <= i < j < |r| ==> NewDate(r[i].date, tz).value <= NewDate(r[j].date, tz).value
  }

  /** When every date is valid the sorted rows run from the earliest date to the latest. */
  lemma SortedAscending(data: seq<Record>, tz: TzOffset)
    requires AllDatesValid(data, tz)
    ensures Ascending(SortedData(data, tz), tz)
  {
    var u := Normalized(data);
    var r := Sort(u, ByDate(tz));
    NormalizedValid(data, tz);
    ByDateConsistent(u, tz);
    SortSorted(u, ByDate(tz));
    forall i | 0 <= i < |r| ensures NewDate(r[i].date, tz).Some? {
      assert r[i] in r;
      SortValues(u, ByDate(tz), r[i]);
    }
    forall i, j | 0 <= i < j < |r|
      ensures NewDate(r[i].date, tz).value <= NewDate(r[j].date, tz).value
    {
      assert ByDate(tz)(r[i], r[j]) <= 0.0;
    }
  }

  /** Records already in date order keep their order, equal dates included: the sort is stable. */
  lemma SortedInputUnchanged(data: seq<Record>, tz: TzOffset)
    requires forall i, j :: 0 <= i < j < |data| ==> ByDate(tz)(Normalize(data[i]), Normalize(data[j])) <= 0.0
    ensures SortedData(data, tz) == Normalized(data)
  {
    var u := Normalized(data);
    assert SortedBy(u, ByDate(tz)) by {
      forall i, j | 0 <= i < j < |u| ensures ByDate(tz)(u[i], u[j]) <= 0.0 {
        assert u[i] == Normalize(data[i]) && u[j] == Normalize(data[j]);
      }
    }
    SortOfSorted(u, ByDate(tz));
  }

  // ---------------------------------------------------------------------------
  // Cells, the table and the CSV export

  /** formatReturn: the percentage (its toFixed(2) text left abstract) and whether it is shown as positive with a '+'. */
  datatype FormattedReturn = FormattedReturn(positive: bool, percent: Option<real>)

  function FormatReturn(value: JsVal): (f: FormattedReturn)
    ensures f.positive <==> ToNumber(value).Some? && ToNumber(value).value >= 0.0
    ensures f.percent.Some? <==> ToNumber(value).Some?
    ensures f.percent.Some? ==> f.percent.value == ToNumber(value).value * 100.0
  {
    match ToNumber(value)
    case None => FormattedReturn(false, None)
    case Some(x) => FormattedReturn(x >= 0.0, Some(x * 100.0))
  }

  /** Zero and null are shown with a '+'; a negative or a missing return is not. */
  lemma FormatReturnSign(x: real)
    ensures FormatReturn(Num(0.0)).positive
    ensures x < 0.0 ==> !FormatReturn(Num(x)).positive
    ensures !FormatReturn(Undefined).positive && FormatReturn(Null).positive
  {
  }

  /** A table line: the date cell (`row.date ? toLocaleDateString : 'N/A'`) and the formatted return. */
  datatype TableRow = TableRow(dateCell: DateCell, ret: FormattedReturn)

  function RowOf(e: Entry, tz: TzOffset): TableRow {
    TableRow(DateCellOf(e.date, tz), FormatReturn(e.ret))
  }

  /** One CSV line `"<date cell>",<return>`; the texts of the date and of the number are left abstract. */
  datatype CsvLine = CsvLine(dateCell: DateCell, ret: JsVal)

  /** The export: the header line and then one line per sorted record. */
  datatype Csv = Csv(header: string, lines: seq<CsvLine>)

  const CsvHeader: string := "Fecha,Retorno"

  /** downloadCSV: the header and one line per sorted record, in sorted order, from the full data. */
  function CsvOf(data: seq<Record>, tz: TzOffset): (c: Csv)
    ensures c.header == CsvHeader
    ensures |c.lines| == |data|
    ensures forall i :: 0 <= i < |data| ==>
      c.lines[i] == CsvLine(DateCellOf(SortedData(data, tz)[i].date, tz), SortedData(data, tz)[i].ret)
  {
    var sorted := SortedData(data, tz);
    Csv(CsvHeader, seq(|sorted|, i requires 0 <= i < |sorted| => CsvLine(DateCellOf(sorted[i].date, tz), sorted[i].ret)))
  }

  datatype View =
    | EmptyMessage
    | Table(rows: seq<TableRow>, controls: Controls, csv: Csv)

  /** The component for `data` (None: absent or not an array) and the state of the "show all" toggle. */
  function Render(data: Option<seq<Record>>, showAll: bool, tz: TzOffset): (v: View)
    ensures v.EmptyMessage? <==> data.None? || |data.value| == 0
    ensures v.Table? ==>
      var shown := Displayed(SortedData(data.value, tz), showAll);
      |v.rows| == |shown| && (forall i :: 0 <= i < |shown| ==> v.rows[i] == RowOf(shown[i], tz))
    ensures v.Table? ==> v.controls == ControlsOf(|data.value|, showAll) && v.csv == CsvOf(data.value, tz)
  {
    if data.None? || |data.value| == 0 then EmptyMessage
    else
      var shown := Displayed(SortedData(data.value, tz), showAll);
      Table(seq(|shown|, i requires 0 <= i < |shown| => RowOf(shown[i], tz)),
            ControlsOf(|data.value|, showAll), CsvOf(data.value, tz))
  }

  /** The table shows min(10, n) rows unless everything is shown; the CSV always has n lines after its header. */
  lemma RenderCounts(data: seq<Record>, showAll: bool, tz: TzOffset)
    requires |data| > 0
    ensures Render(Some(data), showAll, tz).Table?
    ensures |Render(Some(data), showAll, tz).rows| == if showAll || |data| < PageRows then |data| else PageRows
    ensures |Render(Some(data), showAll, tz).csv.lines| == |data|
    ensures Render(Some(data), showAll, tz).csv == Render(Some(data), !showAll, tz).csv
  {
  }
}
