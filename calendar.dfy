/**
 * The proleptic Gregorian calendar shared by ECMAScript dates and pandas
 * timestamps: calendar days, their numbering from the epoch (day 0 is
 * 1970-01-01, as in ECMA-262's Day(t) and in pandas), day arithmetic and the
 * digit-level ISO 8601 rendering YYYY-MM-DD.
 */
module Calendar {

  datatype Day = Day(year: int, month: int, day: int)

  /** Milliseconds in one day (ECMA-262 msPerDay). */
  const MsPerDay: int := 86400000

  predicate IsLeapYear(y: int) {
    y % 4 == 0 && (y % 100 != 0 || y % 400 == 0)
  }

  function DaysInYear(y: int): int {
    if IsLeapYear(y) then 366 else 365
  }

  function DaysInMonth(y: int, m: int): (n: int)
    requires 1 <= m <= 12
    ensures 28 <= n <= 31
  {
    if m == 2 then (if IsLeapYear(y) then 29 else 28)
    else if m == 4 || m == 6 || m == 9 || m == 11 then 30
    else 31
  }

  /** A day that exists in the calendar. */
  predicate ValidDay(d: Day) {
    1 <= d.month <= 12 && 1 <= d.day <= DaysInMonth(d.year, d.month)
  }

  /** Days from January 1st of year y to the first day of month m; m == 13 is the whole year. */
  function DaysBeforeMonth(y: int, m: int): int
    requires 1 <= m <= 13
  {
    (if m > 2 && IsLeapYear(y) then 1 else 0) +
    (if m == 1 then 0 else if m == 2 then 31 else if m == 3 then 59
     else if m == 4 then 90 else if m == 5 then 120 else if m == 6 then 151
     else if m == 7 then 181 else if m == 8 then 212 else if m == 9 then 243
     else if m == 10 then 273 else if m == 11 then 304 else if m == 12 then 334
     else 365)
  }

  lemma MonthStep(y: int, m: int)
    requires 1 <= m <= 12
    ensures DaysBeforeMonth(y, m + 1) == DaysBeforeMonth(y, m) + DaysInMonth(y, m)
    ensures DaysBeforeMonth(y, 13) == DaysInYear(y)
  {
  }

  /** Days from 1970-01-01 to January 1st of year y (negative before 1970). */
  function DaysBeforeYear(y: int): int
    decreases if y >= 1970 then y - 1970 else 1970 - y
  {
    if y == 1970 then 0
    else if y > 1970 then DaysBeforeYear(y - 1) + DaysInYear(y - 1)
    else DaysBeforeYear(y + 1) - DaysInYear(y)
  }

  lemma YearStep(y: int)
    ensures DaysBeforeYear(y + 1) == DaysBeforeYear(y) + DaysInYear(y)
  {
  }

  /** Between two years lie at least 365 and at most 366 days per year. */
  lemma {:induction false} YearSpan(a: int, b: int)
    requires a <= b
    ensures DaysBeforeYear(a) + 365 * (b - a) <= DaysBeforeYear(b) <= DaysBeforeYear(a) + 366 * (b - a)
    decreases b - a
  {
    if a < b {
      YearSpan(a, b - 1);
      YearStep(b - 1);
    }
  }

  /** The epoch-day number of a calendar day: 1970-01-01 is 0. */
  function DayNumber(d: Day): int
    requires ValidDay(d)
  {
    DaysBeforeYear(d.year) + DaysBeforeMonth(d.year, d.month) + d.day - 1
  }

  /** The year that holds epoch day n, searching forward from year y. */
  function YearFrom(n: int, y: int): (r: int)
    requires DaysBeforeYear(y) <= n
    ensures DaysBeforeYear(r) <= n < DaysBeforeYear(r + 1)
    decreases n - DaysBeforeYear(y)
  {
    YearStep(y);
    if n < DaysBeforeYear(y + 1) then y else YearFrom(n, y + 1)
  }

  /** The year that holds epoch day n, searching backward from year y. */
  function YearBack(n: int, y: int): (r: int)
    requires n < DaysBeforeYear(y + 1)
    ensures DaysBeforeYear(r) <= n < DaysBeforeYear(r + 1)
    decreases DaysBeforeYear(y + 1) - n
  {
    YearStep(y);
    YearStep(y - 1);
    if DaysBeforeYear(y) <= n then y else YearBack(n, y - 1)
  }

  /** The month of year y that holds day r of that year (0-based), searching from month m. */
  function MonthFrom(y: int, r: int, m: int): (k: int)
    requires 1 <= m <= 12 && DaysBeforeMonth(y, m) <= r < DaysInYear(y)
    ensures m <= k <= 12 && DaysBeforeMonth(y, k) <= r < DaysBeforeMonth(y, k + 1)
    decreases 12 - m
  {
    MonthStep(y, m);
    if r < DaysBeforeMonth(y, m + 1) then m else MonthFrom(y, r, m + 1)
  }

  /** The calendar day with epoch-day number n (the inverse of DayNumber). */
  function FromDayNumber(n: int): (d: Day)
    ensures ValidDay(d) && DayNumber(d) == n
  {
    var y := if n >= 0 then YearFrom(n, 1970) else YearBack(n, 1969);
    YearStep(y);
    var r := n - DaysBeforeYear(y);
    var m := MonthFrom(y, r, 1);
    MonthStep(y, m);
    Day(y, m, r - DaysBeforeMonth(y, m) + 1)
  }

  lemma DayNumberWithinYear(d: Day)
    requires ValidDay(d)
    ensures DaysBeforeYear(d.year) <= DayNumber(d) < DaysBeforeYear(d.year + 1)
  {
    MonthStep(d.year, d.month);
    YearStep(d.year);
    assert DaysBeforeMonth(d.year, d.month + 1) <= DaysBeforeMonth(d.year, 13);
  }

  /** Later months start later in the year. */
  lemma {:induction false} DaysBeforeMonthMonotone(y: int, i: int, j: int)
    requires 1 <= i <= j <= 13
    ensures DaysBeforeMonth(y, i) <= DaysBeforeMonth(y, j)
    decreases j - i
  {
    if i < j {
      MonthStep(y, i);
      DaysBeforeMonthMonotone(y, i + 1, j);
    }
  }

  /** Distinct calendar days have distinct numbers. */
  lemma DayNumberInjective(a: Day, b: Day)
    requires ValidDay(a) && ValidDay(b) && DayNumber(a) == DayNumber(b)
    ensures a == b
  {
    DayNumberWithinYear(a);
    DayNumberWithinYear(b);
    if a.year < b.year {
      YearSpan(a.year + 1, b.year);
      assert false;
    } else if b.year < a.year {
      YearSpan(b.year + 1, a.year);
      assert false;
    }
    if a.month < b.month {
      MonthStep(a.year, a.month);
      DaysBeforeMonthMonotone(a.year, a.month + 1, b.month);
      assert false;
    } else if b.month < a.month {
      MonthStep(b.year, b.month);
      DaysBeforeMonthMonotone(b.year, b.month + 1, a.month);
      assert false;
    }
  }

  /** Numbering a day and converting the number back gives the day itself. */
  lemma FromDayNumberRoundTrip(d: Day)
    requires ValidDay(d)
    ensures FromDayNumber(DayNumber(d)) == d
  {
    DayNumberInjective(FromDayNumber(DayNumber(d)), d);
  }

  /** The day k days after d (k may be negative). */
  function AddDays(d: Day, k: int): (r: Day)
    requires ValidDay(d)
    ensures ValidDay(r) && DayNumber(r) == DayNumber(d) + k
  {
    FromDayNumber(DayNumber(d) + k)
  }

  /** The last day of month m of year y: the label pandas gives a month bin. */
  function MonthEnd(y: int, m: int): (d: Day)
    requires 1 <= m <= 12
    ensures ValidDay(d)
  {
    Day(y, m, DaysInMonth(y, m))
  }

  function FirstOfNextMonth(y: int, m: int): (d: Day)
    requires 1 <= m <= 12
    ensures ValidDay(d)
  {
    if m == 12 then Day(y + 1, 1, 1) else Day(y, m + 1, 1)
  }

  /** One day after a month's last day is the first day of the following month. */
  lemma MonthEndNextDay(y: int, m: int)
    requires 1 <= m <= 12
    ensures AddDays(MonthEnd(y, m), 1) == FirstOfNextMonth(y, m)
  {
    var last, next := MonthEnd(y, m), FirstOfNextMonth(y, m);
    MonthStep(y, m);
    assert DayNumber(last) == DaysBeforeYear(y) + DaysBeforeMonth(y, m + 1) - 1;
    if m == 12 {
      YearStep(y);
      assert DayNumber(next) == DaysBeforeYear(y + 1);
    } else {
      assert DayNumber(next) == DaysBeforeYear(y) + DaysBeforeMonth(y, m + 1);
    }
    FromDayNumberRoundTrip(next);
  }

  // ---------------------------------------------------------------------------
  // Decimal digits

  predicate IsDigit(c: char) {
    '0' <= c <= '9'
  }

  predicate AllDigits(s: string) {
    forall i :: 0 <= i < |s| ==> IsDigit(s[i])
  }

  function DigitChar(k: int): (c: char)
    requires 0 <= k < 10
    ensures IsDigit(c) && c as int - '0' as int == k
  {
    ('0' as int + k) as char
  }

  function Pow10(w: nat): (p: nat)
    ensures p >= 1
  {
    if w == 0 then 1 else 10 * Pow10(w - 1)
  }

  /** The number a string of decimal digits denotes. */
  function DigitsValue(s: string): (n: nat)
    requires AllDigits(s)
    ensures n < Pow10(|s|)
  {
    if |s| == 0 then 0
    else 10 * DigitsValue(s[..|s| - 1]) + (s[|s| - 1] as int - '0' as int)
  }

  /** The w lowest decimal digits of n, zero-padded on the left. */
  function Pad(n: nat, w: nat): (s: string)
    ensures |s| == w && AllDigits(s)
  {
    if w == 0 then "" else Pad(n / 10, w - 1) + [DigitChar(n % 10)]
  }

  /** Padding a number that fits reads back as that number. */
  lemma {:induction false} DigitsValuePad(n: nat, w: nat)
    requires n < Pow10(w)
    ensures DigitsValue(Pad(n, w)) == n
  {
    if w > 0 {
      DigitsValuePad(n / 10, w - 1);
      var s := Pad(n, w);
      assert s[..w - 1] == Pad(n / 10, w - 1);
    }
  }

  /** Padding the value of a digit string to its own width gives the string back. */
  lemma {:induction false} PadDigitsValue(s: string)
    requires AllDigits(s)
    ensures Pad(DigitsValue(s), |s|) == s
  {
    if |s| > 0 {
      var p := s[..|s| - 1];
      var n := DigitsValue(s);
      assert n / 10 == DigitsValue(p) && n % 10 == s[|s| - 1] as int - '0' as int;
      PadDigitsValue(p);
      assert s == p + [s[|s| - 1]];
    }
  }

  // ---------------------------------------------------------------------------
  // ISO 8601 calendar-date text

  /**
   * The year as Date.prototype.toISOString writes it: four digits for
   * 0..9999, otherwise a sign and six digits.
   */
  function IsoYear(y: int): (s: string)
    ensures 0 <= y <= 9999 ==> s == Pad(y, 4)
    ensures |s| == 4 || |s| == 7
  {
    if 0 <= y <= 9999 then Pad(y, 4)
    else if y < 0 then "-" + Pad(-y, 6)
    else "+" + Pad(y, 6)
  }

  /** Y-M-D: the three parts joined by dashes. */
  function DateText(y: string, m: string, d: string): string {
    y + "-" + m + "-" + d
  }

  /** The parts of a date text are found again at their places, counted from the end. */
  lemma DateTextParts(y: string, m: string, d: string)
    requires |m| == 2 && |d| == 2
    ensures var s := DateText(y, m, d);
      |s| == |y| + 6 && s[..|y|] == y && s[|y|] == '-' && s[|y| + 1..|y| + 3] == m &&
      s[|y| + 3] == '-' && s[|y| + 4..] == d
  {
    var s := DateText(y, m, d);
    assert s == y + ("-" + m + "-" + d);
    assert s[|y|..] == "-" + m + "-" + d;
  }

  /** YYYY-MM-DD (or ±YYYYYY-MM-DD). */
  function IsoDate(d: Day): (s: string)
    ensures |s| == 10 || |s| == 13
    ensures s[|s| - 3] == '-' && s[|s| - 6] == '-'
  {
    var y := IsoYear(d.year);
    DateTextParts(y, Pad(if d.month < 0 then 0 else d.month, 2), Pad(if d.day < 0 then 0 else d.day, 2));
    DateText(y, Pad(if d.month < 0 then 0 else d.month, 2), Pad(if d.day < 0 then 0 else d.day, 2))
  }

  /** A four-digit-year YYYY-MM-DD text: the form Python's strftime('%Y-%m-%d') gives such days. */
  predicate IsBareDateText(s: string) {
    |s| == 10 && AllDigits(s[..4]) && s[4] == '-' && AllDigits(s[5..7]) && s[7] == '-' && AllDigits(s[8..])
  }

  /** The calendar day a bare YYYY-MM-DD text spells (not necessarily valid). */
  function BareDateOf(s: string): Day
    requires IsBareDateText(s)
  {
    Day(DigitsValue(s[..4]), DigitsValue(s[5..7]), DigitsValue(s[8..]))
  }

  /** Writing the day a bare date text spells gives that text back. */
  lemma IsoDateOfBareDate(s: string)
    requires IsBareDateText(s)
    ensures IsoDate(BareDateOf(s)) == s
  {
    PadDigitsValue(s[..4]);
    PadDigitsValue(s[5..7]);
    PadDigitsValue(s[8..]);
    assert s == DateText(s[..4], s[5..7], s[8..]);
  }

  /** A day with a four-digit year is written as a valid bare date text that spells it. */
  lemma IsoDateIsBareDate(d: Day)
    requires ValidDay(d) && 0 <= d.year <= 9999
    ensures IsBareDateText(IsoDate(d)) && BareDateOf(IsoDate(d)) == d
  {
    var y, m, dd := Pad(d.year, 4), Pad(d.month, 2), Pad(d.day, 2);
    assert IsoDate(d) == DateText(y, m, dd);
    DateTextParts(y, m, dd);
    DigitsValuePad(d.year, 4);
    DigitsValuePad(d.month, 2);
    DigitsValuePad(d.day, 2);
  }

  /** Days with four-digit years are written as distinct texts. */
  lemma IsoDateInjective(a: Day, b: Day)
    requires ValidDay(a) && ValidDay(b) && 0 <= a.year <= 9999 && 0 <= b.year <= 9999
    requires IsoDate(a) == IsoDate(b)
    ensures a == b
  {
    IsoDateIsBareDate(a);
    IsoDateIsBareDate(b);
  }
}
