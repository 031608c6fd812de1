/**
 * ECMAScript dates as the dashboard uses them (ECMA-262, 2022 edition):
 * the Date Time String Format of section 21.4.1.15 read by `Date.parse`,
 * the `new Date(value)` constructor on JSON scalars, TimeClip, the UTC day
 * that `toISOString()` writes and the local day that `toLocaleDateString()`
 * shows. The host's local time zone is a fixed offset parameter.
 */
module JsDate {
  import opened Wrappers
  import opened Calendar
  import opened JsValue

  /** The local time zone: minutes east of UTC (UTC+01:00 is 60), less than a day either way. */
  type TzOffset = o: int | -1440 < o < 1440

  /** The largest magnitude of a valid time value, in milliseconds (ECMA-262 TimeClip). */
  const MaxTimeValue: int := 8640000000000000

  const MsPerMinute: int := 60000

  /** What a Date Time String Format text says: the day, the time of day, the offset if one is written. */
  datatype DateTimeFields = DateTimeFields(date: Day, msOfDay: int, offset: Option<int>, dateOnly: bool)

  /** Two digits at position i. */
  function TwoDigitsAt(s: string, i: nat): (r: Option<int>)
    ensures r.Some? ==> i + 2 <= |s|
  {
    if i + 2 <= |s| && AllDigits(s[i..i + 2]) then Some(DigitsValue(s[i..i + 2])) else None
  }

  /** YYYY, or an expanded year: a sign and six digits (minus zero is not a year). Returns the year and its width. */
  function ParseYear(s: string): (r: Option<(int, nat)>)
    ensures r.Some? ==> r.value.1 <= |s|
  {
    if |s| >= 1 && (s[0] == '+' || s[0] == '-') then
      if |s| >= 7 && AllDigits(s[1..7]) then
        var v: int := DigitsValue(s[1..7]);
        var y: int := if s[0] == '-' then -v else v;
        if s[0] == '-' && v == 0 then None else Some((y, 7))
      else None
    else if |s| >= 4 && AllDigits(s[..4]) then Some((DigitsValue(s[..4]) as int, 4))
    else None
  }

  /** The UTC offset part: empty (none written), "Z", or a sign followed by HH:mm. In minutes east of UTC. */
  function ParseOffset(u: string): (r: Option<Option<int>>)
    ensures r.Some? && r.value.Some? ==> -1440 < r.value.value < 1440
  {
    if u == "" then Some(None)
    else if u == "Z" then Some(Some(0))
    else
      var hh := TwoDigitsAt(u, 1);
      var mm := TwoDigitsAt(u, 4);
      if |u| == 6 && (u[0] == '+' || u[0] == '-') && u[3] == ':' && hh.Some? && mm.Some?
         && hh.value <= 23 && mm.value <= 59
      then
        var minutes := hh.value * 60 + mm.value;
        Some(Some(if u[0] == '-' then -minutes else minutes))
      else None
  }

  /** Three digits at position i. */
  function ThreeDigitsAt(s: string, i: nat): Option<int> {
    if i + 3 <= |s| && AllDigits(s[i..i + 3]) then Some(DigitsValue(s[i..i + 3])) else None
  }

  /** HH:mm[:ss[.sss]] followed by an optional offset; returns the milliseconds since midnight and the offset. */
  function ParseTime(t: string): (r: Option<(int, Option<int>)>)
    ensures r.Some? ==> 0 <= r.value.0 <= MsPerDay
    ensures r.Some? && r.value.1.Some? ==> -1440 < r.value.1.value < 1440
  {
    var hh := TwoDigitsAt(t, 0);
    var mm := TwoDigitsAt(t, 3);
    if !(hh.Some? && mm.Some? && t[2] == ':') then None
    else
      var hasSeconds := |t| >= 6 && t[5] == ':';
      var seconds := if hasSeconds then TwoDigitsAt(t, 6) else Some(0);
      var p := if hasSeconds then 8 else 5;
      var hasMillis := hasSeconds && p < |t| && t[p] == '.';
      var millis := if hasMillis then ThreeDigitsAt(t, p + 1) else Some(0);
      var q := if hasMillis then p + 4 else p;
      if !(seconds.Some? && millis.Some? && q <= |t|) then None
      else
        var h := hh.value;
        var m := mm.value;
        var sec := seconds.value;
        var ms := millis.value;
        var offset := ParseOffset(t[q..]);
        if !(h <= 24 && m <= 59 && sec <= 59 && (h == 24 ==> m == 0 && sec == 0 && ms == 0)) || offset.None? then None
        else Some((((h * 60 + m) * 60 + sec) * 1000 + ms, offset.value))
  }

  /** The optional -MM[-DD] after the year, from position i: month and day (1 when absent) and where they end. */
  function ParseMonthDay(s: string, i: nat): (r: Option<(int, int, nat)>)
    requires i <= |s|
    ensures r.Some? ==> r.value.2 <= |s|
  {
    if !(i < |s| && s[i] == '-') then Some((1, 1, i))
    else
      var month := TwoDigitsAt(s, i + 1);
      var j := i + 3;
      if month.None? then None
      else if !(j < |s| && s[j] == '-') then Some((month.value, 1, j))
      else
        var day := TwoDigitsAt(s, j + 1);
        if day.None? then None else Some((month.value, day.value, j + 3))
  }

  /**
   * A text in the Date Time String Format: YYYY[-MM[-DD]] (date-only forms),
   * optionally followed by T and a time with an optional offset. Texts outside
   * the format, and texts with illegal element values, give None.
   */
  function ParseDateTimeString(s: string): (r: Option<DateTimeFields>)
    ensures r.Some? ==> ValidDay(r.value.date) && 0 <= r.value.msOfDay <= MsPerDay
    ensures r.Some? && r.value.dateOnly ==> r.value.msOfDay == 0 && r.value.offset.None?
    ensures r.Some? && r.value.offset.Some? ==> -1440 < r.value.offset.value < 1440
  {
    var yw := ParseYear(s);
    if yw.None? then None
    else
      var year := yw.value.0;
      var md := ParseMonthDay(s, yw.value.1);
      if md.None? then None
      else
        var m := md.value.0;
        var d := md.value.1;
        var k := md.value.2;
        if !(1 <= m <= 12 && 1 <= d <= DaysInMonth(year, m)) then None
        else if k == |s| then Some(DateTimeFields(Day(year, m, d), 0, None, true))
        else if s[k] != 'T' then None
        else
          var tm := ParseTime(s[k + 1..]);
          if tm.None? then None else Some(DateTimeFields(Day(year, m, d), tm.value.0, tm.value.1, false))
  }

  /**
   * The time value the fields denote: date-only forms are UTC, date-time forms
   * without an offset are local time, the others are shifted by their offset.
   */
  function TimeValueOf(f: DateTimeFields, tz: TzOffset): int
    requires ValidDay(f.date)
  {
    var local := DayNumber(f.date) * MsPerDay + f.msOfDay;
    if f.dateOnly then local
    else
      match f.offset
      case None => local - tz * MsPerMinute
      case Some(o) => local - o * MsPerMinute
  }

  /** TimeClip on an integral time value: None (NaN) beyond 8.64e15 ms either side of the epoch. */
  function TimeClip(t: int): (r: Option<int>)
    ensures r.Some? <==> -MaxTimeValue <= t <= MaxTimeValue
    ensures r.Some? ==> r.value == t
  {
    if -MaxTimeValue <= t <= MaxTimeValue then Some(t) else None
  }

  /** `Date.parse(s)`; None is NaN. */
  function DateParse(s: string, tz: TzOffset): (r: Option<int>)
    ensures r.Some? <==>
      ParseDateTimeString(s).Some? && -MaxTimeValue <= TimeValueOf(ParseDateTimeString(s).value, tz) <= MaxTimeValue
    ensures r.Some? ==> r.value == TimeValueOf(ParseDateTimeString(s).value, tz)
  {
    match ParseDateTimeString(s)
    case None => None
    case Some(f) => TimeClip(TimeValueOf(f, tz))
  }

  /** ToIntegerOrInfinity on a finite number: truncation toward zero. */
  function Truncate(x: real): (n: int)
    ensures x >= 0.0 ==> n as real <= x < n as real + 1.0
    ensures x < 0.0 ==> n as real - 1.0 < x <= n as real
  {
    if x >= 0.0 then x.Floor else -((-x).Floor)
  }

  /** `new Date(v)` for a JSON scalar: strings are parsed, everything else goes through Number. None is an invalid date. */
  function NewDate(v: JsVal, tz: TzOffset): (r: Option<int>)
    ensures r.Some? ==> -MaxTimeValue <= r.value <= MaxTimeValue
  {
    match v
    case Str(s) => DateParse(s, tz)
    case _ =>
      match ToNumber(v)
      case None => None
      case Some(x) =>
        if -(MaxTimeValue as real) <= x <= MaxTimeValue as real then Some(Truncate(x)) else None
  }

  /** `new Date(a) - new Date(b)`: the difference of the time values in milliseconds; None (NaN) when either date is invalid. */
  function DateDifference(a: JsVal, b: JsVal, tz: TzOffset): (r: Option<real>)
    ensures r.Some? <==> NewDate(a, tz).Some? && NewDate(b, tz).Some?
    ensures r.Some? ==> r.value == (NewDate(a, tz).value - NewDate(b, tz).value) as real
  {
    match (NewDate(a, tz), NewDate(b, tz))
    case (Some(x), Some(y)) => Some((x - y) as real)
    case _ => None
  }

  /** The UTC calendar day of a time value. */
  function UtcDay(t: int): (d: Day)
    ensures ValidDay(d) && DayNumber(d) * MsPerDay <= t < DayNumber(d) * MsPerDay + MsPerDay
  {
    FromDayNumber(t / MsPerDay)
  }

  /** The local calendar day of a time value. */
  function LocalDay(t: int, tz: TzOffset): (d: Day)
    ensures ValidDay(d)
    ensures DayNumber(d) * MsPerDay <= t + tz * MsPerMinute < DayNumber(d) * MsPerDay + MsPerDay
  {
    UtcDay(t + tz * MsPerMinute)
  }

  /** `date.toISOString().split('T')[0]`: the UTC day as YYYY-MM-DD. */
  function IsoDateKey(t: int): (k: string)
    ensures |k| == 10 || |k| == 13
  {
    IsoDate(UtcDay(t))
  }

  /** A table cell `v ? new Date(v).toLocaleDateString() : 'N/A'`; the locale's text for a day is left abstract. */
  datatype DateCell = NotAvailable | InvalidDate | LocalDate(day: Day)

  /** The unguarded `new Date(v).toLocaleDateString(...)`: "Invalid Date" exactly when the date does not parse, otherwise its local day. */
  function DateCaption(v: JsVal, tz: TzOffset): (c: DateCell)
    ensures c != NotAvailable
    ensures c == InvalidDate <==> NewDate(v, tz).None?
    ensures c.LocalDate? ==> c.day == LocalDay(NewDate(v, tz).value, tz)
  {
    match NewDate(v, tz)
    case None => InvalidDate
    case Some(t) => LocalDate(LocalDay(t, tz))
  }

  function DateCellOf(v: JsVal, tz: TzOffset): (c: DateCell)
    ensures !Truthy(v) <==> c == NotAvailable
    ensures Truthy(v) ==> c == DateCaption(v, tz)
  {
    if !Truthy(v) then NotAvailable else DateCaption(v, tz)
  }

  /** The empty text is falsy, so a guarded cell shows 'N/A' for it, while the unguarded caption shows "Invalid Date". */
  lemma EmptyDateCells(tz: TzOffset)
    ensures DateCellOf(Str(""), tz) == NotAvailable
    ensures DateCaption(Str(""), tz) == InvalidDate
  {
    assert ParseDateTimeString("") == None;
  }

  // ---------------------------------------------------------------------------
  // Properties of the parser

  /** The day number of an epoch day within the valid range of time values. */
  lemma DayOfTimeValue(n: int, r: int)
    requires 0 <= r < MsPerDay
    ensures (n * MsPerDay + r) / MsPerDay == n
  {
  }

  /** Two zero digits at position i read as 0. */
  lemma ZeroDigitsAt(t: string, i: nat)
    requires i + 2 <= |t| && t[i] == '0' && t[i + 1] == '0'
    ensures TwoDigitsAt(t, i) == Some(0)
  {
    var w := t[i..i + 2];
    assert w == ['0', '0'];
    assert w[..1] == ['0'] && w[..1][..0] == [];
    assert DigitsValue(w[..1]) == 0;
  }

  /** A bare date text has a four-digit year. */
  lemma BareDateYear(s: string)
    requires IsBareDateText(s)
    ensures ParseYear(s) == Some((BareDateOf(s).year, 4))
  {
    assert IsDigit(s[..4][0]);
  }

  /** A bare date text has -MM-DD after its year. */
  lemma BareDateMonthDay(s: string)
    requires IsBareDateText(s)
    ensures ParseMonthDay(s, 4) == Some((BareDateOf(s).month, BareDateOf(s).day, 10))
  {
    assert s[5..7] == s[5..5 + 2];
    assert s[8..] == s[8..8 + 2];
  }

  /** A valid bare YYYY-MM-DD text is a date-only form of that day. */
  lemma ParseBareDate(s: string)
    requires IsBareDateText(s) && ValidDay(BareDateOf(s))
    ensures ParseDateTimeString(s) == Some(DateTimeFields(BareDateOf(s), 0, None, true))
  {
    BareDateYear(s);
    BareDateMonthDay(s);
  }

  /** A valid bare date, T and a time: that day at that time. */
  lemma ParseBareDateTime(u: string)
    requires |u| >= 11 && IsBareDateText(u[..10]) && ValidDay(BareDateOf(u[..10])) && u[10] == 'T'
    ensures ParseTime(u[11..]).None? ==> ParseDateTimeString(u).None?
    ensures ParseTime(u[11..]).Some? ==>
      ParseDateTimeString(u) == Some(DateTimeFields(BareDateOf(u[..10]), ParseTime(u[11..]).value.0, ParseTime(u[11..]).value.1, false))
  {
    var s := u[..10];
    BareDateYear(s);
    BareDateMonthDay(s);
    assert u[..4] == s[..4];
    assert ParseYear(u) == ParseYear(s);
    assert u[5..7] == s[5..7] && u[8..10] == s[8..];
    assert ParseMonthDay(u, 4) == ParseMonthDay(s, 4);
  }

  /** 00:00:00 is midnight with no offset. */
  lemma ParseMidnight()
    ensures ParseTime("00:00:00") == Some((0, None))
  {
    var t := "00:00:00";
    ZeroDigitsAt(t, 0);
    ZeroDigitsAt(t, 3);
    ZeroDigitsAt(t, 6);
    assert t[8..] == "";
  }

  /** 00:00:00Z is midnight at offset 0. */
  lemma ParseUtcMidnight()
    ensures ParseTime("00:00:00Z") == Some((0, Some(0)))
  {
    var t := "00:00:00Z";
    ZeroDigitsAt(t, 0);
    ZeroDigitsAt(t, 3);
    ZeroDigitsAt(t, 6);
    assert t[8..] == "Z";
  }

  /** Appending T00:00:00 to a valid bare date gives that day's local midnight. */
  lemma ParseBareDateMidnight(s: string)
    requires IsBareDateText(s) && ValidDay(BareDateOf(s))
    ensures ParseDateTimeString(s + "T00:00:00") == Some(DateTimeFields(BareDateOf(s), 0, None, false))
  {
    var u := s + "T00:00:00";
    assert u[..10] == s && u[10..] == "T00:00:00";
    assert u[11..] == "T00:00:00"[1..] == "00:00:00";
    ParseMidnight();
    ParseBareDateTime(u);
  }

  /** Appending T00:00:00Z to a valid bare date gives that day's UTC midnight. */
  lemma ParseBareDateUtcMidnight(s: string)
    requires IsBareDateText(s) && ValidDay(BareDateOf(s))
    ensures ParseDateTimeString(s + "T00:00:00Z") == Some(DateTimeFields(BareDateOf(s), 0, Some(0), false))
  {
    var u := s + "T00:00:00Z";
    assert u[..10] == s && u[10..] == "T00:00:00Z";
    assert u[11..] == "T00:00:00Z"[1..] == "00:00:00Z";
    ParseUtcMidnight();
    ParseBareDateTime(u);
  }

  /** Years that four digits can spell lie well inside the range of time values. */
  lemma FourDigitYearInRange(d: Day)
    requires ValidDay(d) && 0 <= d.year <= 9999
    ensures -4000000 <= DayNumber(d) <= 3000000
  {
    DayNumberWithinYear(d);
    if d.year >= 1970 {
      YearSpan(1970, d.year + 1);
    } else {
      YearSpan(d.year, 1970);
    }
  }

  /** The days whose time values are valid have years of at most six digits. */
  lemma ValidTimeYear(t: int)
    requires -MaxTimeValue <= t <= MaxTimeValue
    ensures -999999 <= UtcDay(t).year <= 999999
  {
    var d := UtcDay(t);
    DayNumberWithinYear(d);
    if d.year > 999999 {
      YearSpan(1970, d.year);
      assert false;
    } else if d.year < -999999 {
      YearSpan(d.year + 1, 1970);
      assert false;
    }
  }

  /** A two-digit zero-padded n at position i reads as n. */
  lemma TwoDigitsAtPad(s: string, i: nat, n: int)
    requires 0 <= n < 100 && i + 2 <= |s| && s[i..i + 2] == Pad(n, 2)
    ensures TwoDigitsAt(s, i) == Some(n)
  {
    DigitsValuePad(n, 2);
  }

  /** A sign and six digits spell an expanded year. */
  lemma ExpandedYear(y: int, s: string)
    requires -999999 <= y <= 999999 && !(0 <= y <= 9999)
    requires |s| >= 7 && s[..7] == IsoYear(y)
    ensures ParseYear(s) == Some((y, 7))
  {
    var a := if y < 0 then -y else y;
    assert a < Pow10(6);
    DigitsValuePad(a, 6);
    assert s[1..7] == IsoYear(y)[1..] == Pad(a, 6);
  }

  /** An expanded-year day text, read back, is that day. */
  lemma ParseExpandedIsoDate(d: Day)
    requires ValidDay(d) && -999999 <= d.year <= 999999 && !(0 <= d.year <= 9999)
    ensures ParseDateTimeString(IsoDate(d)) == Some(DateTimeFields(d, 0, None, true))
  {
    var y, m, dd := IsoYear(d.year), Pad(d.month, 2), Pad(d.day, 2);
    var s := IsoDate(d);
    assert s == DateText(y, m, dd);
    DateTextParts(y, m, dd);
    ExpandedYear(d.year, s);
    TwoDigitsAtPad(s, 8, d.month);
    TwoDigitsAtPad(s, 11, d.day);
    assert ParseMonthDay(s, 7) == Some((d.month, d.day, 13));
  }

  /** toISOString's day text, read back by Date.parse, is that day's UTC midnight. */
  lemma ParseIsoDate(d: Day)
    requires ValidDay(d) && -999999 <= d.year <= 999999
    ensures ParseDateTimeString(IsoDate(d)) == Some(DateTimeFields(d, 0, None, true))
  {
    if 0 <= d.year <= 9999 {
      IsoDateIsBareDate(d);
      ParseBareDate(IsoDate(d));
    } else {
      ParseExpandedIsoDate(d);
    }
  }

  /** A time value within the n-th day falls on epoch day n. */
  lemma UtcDayOfDayNumber(n: int, t: int)
    requires n * MsPerDay <= t < n * MsPerDay + MsPerDay
    ensures UtcDay(t) == FromDayNumber(n)
  {
    DayOfTimeValue(n, t - n * MsPerDay);
  }

  /** The UTC day key of a valid time value, read back by `new Date`, is the UTC midnight of that day. */
  lemma DateOfIsoDateKey(t: int, tz: TzOffset)
    requires -MaxTimeValue <= t <= MaxTimeValue
    ensures NewDate(Str(IsoDateKey(t)), tz) == Some(DayNumber(UtcDay(t)) * MsPerDay)
  {
    var d := UtcDay(t);
    ValidTimeYear(t);
    ParseIsoDate(d);
    assert DayNumber(d) >= -100000000;
  }

  /** A valid bare date with T00:00:00 appended is the local midnight of that day. */
  lemma NewDateBareMidnight(s: string, tz: TzOffset)
    requires IsBareDateText(s) && ValidDay(BareDateOf(s))
    ensures NewDate(Str(s + "T00:00:00"), tz) == Some(DayNumber(BareDateOf(s)) * MsPerDay - tz * MsPerMinute)
  {
    ParseBareDateMidnight(s);
    FourDigitYearInRange(BareDateOf(s));
  }

  /** A valid bare date with T00:00:00Z appended is the UTC midnight of that day. */
  lemma NewDateBareUtcMidnight(s: string, tz: TzOffset)
    requires IsBareDateText(s) && ValidDay(BareDateOf(s))
    ensures NewDate(Str(s + "T00:00:00Z"), tz) == Some(DayNumber(BareDateOf(s)) * MsPerDay)
  {
    ParseBareDateUtcMidnight(s);
    FourDigitYearInRange(BareDateOf(s));
  }
}
