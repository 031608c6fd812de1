# RayML core, modelled in Dafny

RayML is a dashboard with two backend pipelines behind it. This project models
the logic they share: sequential transforms over series of records.

- **Comparison chart** (`ComparisonChart.jsx`).
  - Dates are keyed by their UTC calendar day (`normalizeDate`).
  - The ticker series is loaded into a map in which the last write wins.
  - The portfolio series is walked in its own order and inner-joined on the key.
  - Matched returns are scaled to percent.
  - A debug table shows the first 15 matches with their signed difference.
- **Comparison metrics** (`PortfolioComparison.jsx`): the two guards of
  `handleComparePortfolio`, and `calculateMetrics`. The metrics are:
  - the mean of the coerced returns;
  - the population variance;
  - the volatility, sqrt(variance) · sqrt(252);
  - the defaulted ticker summary.
- **Tables** (`PortfolioTable.jsx`, `TopStocksTable.jsx`):
  - field defaulting with `||`;
  - the sorted copy, by date and then by rank;
  - distinct sorted months and the month filter;
  - the 10-row page, the toggle and the message;
  - the CSV lines;
  - the sign rule of `formatReturn`.
- **Twitter sentiment portfolio** (`TwitterSentimentAnalysis.py`):
  - the date conversion: a blank date becomes NaT, and an unconvertible one
    raises a ValueError;
  - the filter on likes and comments;
  - the engagement ratio;
  - the monthly mean per symbol, over the rows whose date is not NaT and whose symbol is not NaN;
  - the descending average rank within a month;
  - the selection `rank < 6`;
  - the shift to the first day of the next month;
  - the date → symbols dictionary built in a loop;
  - the metadata counts.
- **Intraday GARCH strategy** (`IntradayGARCHStrategy.py`). It is modelled as
  a class whose step methods reassign its fields, in the order `run_strategy`
  calls them. The steps are:
  - the 180-row windows and the matching trim;
  - the daily premium rule, shifted one row;
  - the merge of daily signals onto five-minute bars;
  - the intraday RSI/Bollinger rule, and the TypeError on fewer than 20 bars;
  - the contrarian return sign, forward-filled within a calendar day;
  - the forward-return product, summed per day;
  - the sanitised output.

JavaScript values are a small `JsVal` datatype: undefined, null, booleans,
numbers and strings. A record is a map from field names to values, so an
absent field reads as `undefined`.

`new Date(...)` follows the Date Time String Format of ECMA-262 (section
21.4.1.15, 2022 edition), with the local time zone given as a fixed offset in
minutes:
- a date-only string is read as UTC;
- a date-time string without an offset is read as local time;
- a date-time string with `Z` or `±HH:MM` is read at that offset.

`toISOString().split('T')[0]` is the UTC calendar day of the time value.
`toLocaleDateString` is kept abstract: the model keeps only the local calendar
day it shows, or "Invalid Date", or the `'N/A'` of a falsy date.

On the Python side, doubles are a `Float` datatype: a real number, ±infinity
or NaN, with the IEEE 754 rules for NaN and infinities. NaN signals are
`Undefined`. Library numerics are functions passed in as inputs:
- the GARCH fit;
- the rolling standard deviation;
- RSI and Bollinger bands;
- log returns;
- the compounded cumulative return.

The shared modules are:
- `Calendar`: proleptic Gregorian days, day numbers from 1970-01-01, ISO date
  text.
- `JsValue`: truthiness, `||`, `Number()`, `trim`.
- `JsDate`: the date string parser, TimeClip, `new Date`, the UTC day and the
  local day.
- `Sequences`: filter, distinct, take, and a stable insertion sort by
  comparator. ECMA-262 requires `Array.prototype.sort` to be stable, and a
  stable sort by a consistent comparator has only one possible result. With
  an inconsistent comparator the order is implementation-defined (see
  "Left out").
- `LexOrder`: string order.
- `Stats`: sum, mean and population variance over reals.
- `Floats`: as described above.
- `Paging`: the 10-row page rule both tables share.

## Model

| member | source | states |
|---|---|---|
| ComparisonChart.NormalizeDate | frontend/src/components/ComparisonChart.jsx:57-86 | the key is null exactly for a falsy value or a date that does not parse (after T00:00:00 is appended to a string without T); otherwise it is the ISO text of the UTC day of the parsed time |
| ComparisonChart.DateArgument | frontend/src/components/ComparisonChart.jsx:62-72 | the argument passed to `new Date` always contains a T when it is a string: a string with T is passed unchanged, a string without T is extended, and a non-string is passed as it is |
| ComparisonChart.BareDateHasNoT | frontend/src/components/ComparisonChart.jsx:64-69 | a YYYY-MM-DD string contains no T, so it always gets T00:00:00 appended |
| ComparisonChart.NormalizeBareDateKey | frontend/src/components/ComparisonChart.jsx:68-81 | for a valid bare date, `new Date(s + 'T00:00:00')` is valid and the key is the UTC day text of that time |
| ComparisonChart.KeyOfLocalMidnight | frontend/src/components/ComparisonChart.jsx:68-81 | local midnight of day d falls on UTC day d when the offset is ≤ 0, and on the day before when it is positive |
| ComparisonChart.NormalizeBareDate | frontend/src/components/ComparisonChart.jsx:68-81 | a bare date's key equals the input at offsets in (−24h, 0], and is the previous day's ISO text at positive offsets |
| ComparisonChart.NormalizeUtcMidnight | frontend/src/components/ComparisonChart.jsx:64-65 | `YYYY-MM-DDT00:00:00Z` is keyed by its own day at every offset |
| ComparisonChart.KeyEquivalence | frontend/src/components/ComparisonChart.jsx:64-81 | a bare date and its explicit UTC midnight get the same key if and only if the offset is ≤ 0 |
| ComparisonChart.PointOf | frontend/src/components/ComparisonChart.jsx:88-100 | a record with neither a truthy `Date` nor a truthy `date` is dropped; a kept point has a non-empty key and the value `Number(x) \|\| 0` |
| ComparisonChart.Points | frontend/src/components/ComparisonChart.jsx:88-100 | the prepared series is no longer than the input, and each point is the (key, `Number(x) \|\| 0`) of some record with a valid date |
| ComparisonChart.PointsAppend | frontend/src/components/ComparisonChart.jsx:88-100 | map then filter works record by record, so it distributes over concatenation and keeps input order |
| ComparisonChart.PointValueIgnored | frontend/src/components/ComparisonChart.jsx:91 | the return field never decides whether a point is kept; its value is `Number(v)` when numeric and 0 otherwise |
| ComparisonChart.TickerMap | frontend/src/components/ComparisonChart.jsx:106-111 | the map's keys are exactly the non-empty keys of the ticker points |
| ComparisonChart.LastWriteWins | frontend/src/components/ComparisonChart.jsx:106-111 | a key maps to the value of its last occurrence in the ticker series |
| ComparisonChart.BuildTickerMap | frontend/src/components/ComparisonChart.jsx:106-111 | the forEach with `set` builds exactly TickerMap |
| ComparisonChart.Join | frontend/src/components/ComparisonChart.jsx:118-134 | at most one row per portfolio point; every row comes from a point with a non-empty key present in the map, with its label and both values ×100 |
| ComparisonChart.JoinAppend | frontend/src/components/ComparisonChart.jsx:118-134 | the join distributes over concatenation, so output order follows portfolio order |
| ComparisonChart.JoinEmptyMap | frontend/src/components/ComparisonChart.jsx:121-122 | with an empty ticker map no row is produced |
| ComparisonChart.JoinSingle | frontend/src/components/ComparisonChart.jsx:119-133 | one point gives its row exactly when its key is in the map, else nothing |
| ComparisonChart.JoinDuplicates | frontend/src/components/ComparisonChart.jsx:118-134 | a repeated portfolio date produces a row each time; duplicates are not collapsed |
| ComparisonChart.JoinStep | frontend/src/components/ComparisonChart.jsx:118-134 | one forEach iteration appends the point's row if it matches and leaves the rows unchanged otherwise |
| ComparisonChart.ColumnsPush | frontend/src/components/ComparisonChart.jsx:130-132 | pushing a label and the two values appends one row to the three parallel columns |
| ComparisonChart.ColumnsDetermineRows | frontend/src/components/ComparisonChart.jsx:114-132 | the three equal-length arrays determine the joined rows |
| ComparisonChart.CombineByDate | frontend/src/components/ComparisonChart.jsx:114-134 | the loop with three `push` calls leaves equal-length columns holding exactly the joined rows, in order |
| ComparisonChart.EmptySidesGiveNoRows | frontend/src/components/ComparisonChart.jsx:46-54 | an absent or empty side gives no rows, the same result as the early returns |
| ComparisonChart.PrepareChartData | frontend/src/components/ComparisonChart.jsx:42-143 | three empty arrays for a missing or empty side, else the columns of the join |
| ComparisonChart.LocalDayOfMidnight | frontend/src/components/ComparisonChart.jsx:124-128 | the local day of UTC midnight of day n is day n at offsets ≥ 0 and day n − 1 at negative offsets |
| ComparisonChart.LabelOfUtcMidnight | frontend/src/components/ComparisonChart.jsx:124-128 | the label of a value that parses to UTC midnight of day n is the local day n, or n − 1 at a negative offset |
| ComparisonChart.LabelOfDayMidnight | frontend/src/components/ComparisonChart.jsx:124-128 | the same stated for a calendar day |
| ComparisonChart.LabelOfKey | frontend/src/components/ComparisonChart.jsx:81-128 | the label of a key is its UTC day read back as local midnight: the same day at offsets ≥ 0, the day before at negative offsets |
| ComparisonChart.DiffRowOf | frontend/src/components/ComparisonChart.jsx:333-362 | difference = portfolio − ticker, and the '+' prefix is shown exactly when the difference is positive |
| ComparisonChart.DiffRows | frontend/src/components/ComparisonChart.jsx:332-366 | one diff row per matched row, in order |
| ComparisonChart.DiffTableOf | frontend/src/components/ComparisonChart.jsx:311-377 | the header count is n; the table shows the first min(15, n) rows; the trailer appears exactly when n > 15 and reports n − 15 more dates |
| ComparisonChart.Render | frontend/src/components/ComparisonChart.jsx:36-170 | a missing side shows the missing-data message; an empty join shows "no matching dates"; otherwise the chart columns are the join and the table is their diff table |
| PortfolioComparison.HandleCompare | frontend/src/components/PortfolioComparison.jsx:14-39 | a blank ticker is an error; otherwise missing or empty returns are an error; the prices are requested exactly when neither guard fires, and then for the trimmed ticker |
| PortfolioComparison.FetchedTickerTrimmed | frontend/src/components/PortfolioComparison.jsx:15-36 | a requested ticker is non-empty and neither starts nor ends with whitespace |
| PortfolioComparison.Coerced | frontend/src/components/PortfolioComparison.jsx:66 | every record is kept and becomes `Number(portfolio_return) \|\| 0` |
| PortfolioComparison.Volatility | frontend/src/components/PortfolioComparison.jsx:68-70 | defined exactly for a non-empty series; non-negative; its square is 252 times the population variance |
| PortfolioComparison.Percent | frontend/src/components/PortfolioComparison.jsx:80-81 | the shown figure is the value ×100, and NaN stays NaN |
| PortfolioComparison.CalculateMetrics | frontend/src/components/PortfolioComparison.jsx:59-90 | null exactly without ticker data, returns or ticker summary; otherwise the observation count, the mean and volatility in percent, and the four summary fields coerced with `Number(x) \|\| 0` |
| PortfolioComparison.MeanIsSumOverCount | frontend/src/components/PortfolioComparison.jsx:67-80 | with returns present, the shown mean is 100 · sum / n |
| PortfolioComparison.MeanWithinReturns | frontend/src/components/PortfolioComparison.jsx:66-80 | the shown mean lies between 100 × the smallest and 100 × the largest coerced return |
| PortfolioComparison.VolatilityNonNegative | frontend/src/components/PortfolioComparison.jsx:68-81 | the shown volatility is ≥ 0 and its square is 252 · 100² times the population variance |
| PortfolioComparison.ConstantSeriesHasNoVolatility | frontend/src/components/PortfolioComparison.jsx:68-70 | a series whose records all coerce to the same number has volatility 0 |
| PortfolioComparison.EmptyReturnsGiveNaN | frontend/src/components/PortfolioComparison.jsx:66-82 | an empty returns array gives NaN mean and volatility and 0 observations (the case the guard at line 20 keeps from being fetched) |
| PortfolioComparison.MissingSummaryFieldsAreZero | frontend/src/components/PortfolioComparison.jsx:85-88 | summary fields that are absent read as 0 |
| Stats.Mean | frontend/src/components/PortfolioComparison.jsx:67 | defined exactly for a non-empty series, and mean × n = sum |
| Stats.MeanBounds | frontend/src/components/PortfolioComparison.jsx:67 | the mean lies between any lower and upper bound of the values |
| Stats.SumBounds | frontend/src/components/PortfolioComparison.jsx:67 | a sum of n values in [lo, hi] lies in [n·lo, n·hi] |
| Stats.PopulationVariance | frontend/src/components/PortfolioComparison.jsx:69 | squared deviations over n: defined exactly for a non-empty series, and never negative |
| Stats.ConstantVarianceZero | frontend/src/components/PortfolioComparison.jsx:68-70 | a constant series has variance 0 |
| JsValue.OrChain | frontend/src/components/PortfolioTable.jsx:18-19 | `a \|\| b \|\| c` is the first truthy operand, else the last |
| JsValue.TrimEmptyIff | frontend/src/components/PortfolioComparison.jsx:15 | `trim()` gives the empty string exactly when every character is whitespace |
| JsValue.TrimShape | frontend/src/components/PortfolioComparison.jsx:36 | the trimmed text is a slice of the input with no whitespace at either end |
| JsValue.NumberOrZero | frontend/src/components/ComparisonChart.jsx:91 | `Number(v) \|\| 0` is the number when `Number(v)` is defined and 0 when it is NaN |
| JsValue.NumberOrZeroCases | frontend/src/components/ComparisonChart.jsx:91-98 | undefined, null and the empty string coerce to 0, and a number to itself |
| JsValue.ToNumber | frontend/src/components/ComparisonChart.jsx:91 | `Number(v)` is NaN only for undefined or a text |
| JsValue.ToNumberCases | frontend/src/components/ComparisonChart.jsx:91 | every falsy value except undefined converts to 0, undefined to NaN, and a number to itself |
| JsValue.StringToNumber | frontend/src/components/ComparisonChart.jsx:91 | an empty or all-whitespace text converts to 0 |
| JsValue.StringToNumberDigits | frontend/src/components/ComparisonChart.jsx:91 | a text of decimal digits converts to the number they denote |
| JsValue.UnsignedDecimalDigits | frontend/src/components/ComparisonChart.jsx:91 | digits without a point read as an integer literal |
| JsValue.Subtract | frontend/src/components/TopStocksTable.jsx:36 | `a.rank - b.rank` is defined exactly when both convert to numbers, and is then their difference |
| JsDate.ParseDateTimeString | frontend/src/components/ComparisonChart.jsx:65-68 | an accepted string names a valid calendar day, a time within the day and an offset of less than a day; a date-only form has neither time nor offset |
| JsDate.TimeClip | frontend/src/components/ComparisonChart.jsx:75 | a time value is valid exactly within ±8.64 · 10¹⁵ ms and is then unchanged |
| JsDate.NewDate | frontend/src/components/ComparisonChart.jsx:65-75 | a parsed date is always a valid time value |
| JsDate.DateDifference | frontend/src/components/PortfolioTable.jsx:23 | `new Date(a) - new Date(b)` is defined exactly when both dates are valid, and is then the difference of the time values |
| JsDate.UtcDay | frontend/src/components/ComparisonChart.jsx:81 | the UTC day of a time value is the valid day whose 24 hours contain it |
| JsDate.IsoDateKey | frontend/src/components/ComparisonChart.jsx:81 | the day text is 10 characters, or 13 with an expanded year |
| JsDate.DateCellOf | frontend/src/components/PortfolioTable.jsx:88 | the guarded cell shows 'N/A' exactly for a falsy date, and otherwise the unguarded caption |
| JsDate.DateCaption | frontend/src/components/TopStocksTable.jsx:79 | the unguarded `new Date(v).toLocaleDateString(...)` is "Invalid Date" exactly when the date does not parse, otherwise the local day of its time value; never 'N/A' |
| JsDate.EmptyDateCells | frontend/src/components/TopStocksTable.jsx:79-114 | the empty text is 'N/A' in a guarded cell but "Invalid Date" as an unguarded caption |
| JsDate.DateParse | frontend/src/components/ComparisonChart.jsx:65-68 | `Date.parse` is defined exactly for a text in the Date Time String Format whose time value lies within ±8.64 · 10¹⁵ ms, and is then that time value |
| JsDate.LocalDay | frontend/src/components/TopStocksTable.jsx:114 | the local day is the valid day whose 24 hours contain the time shifted by the offset |
| JsDate.ParseBareDate | frontend/src/components/ComparisonChart.jsx:71 | a valid `YYYY-MM-DD` parses as a date-only form: UTC midnight |
| JsDate.ParseBareDateMidnight | frontend/src/components/ComparisonChart.jsx:68 | `YYYY-MM-DDT00:00:00` parses as that day at midnight with no offset, that is, local time |
| JsDate.ParseBareDateUtcMidnight | frontend/src/components/ComparisonChart.jsx:65 | `YYYY-MM-DDT00:00:00Z` parses as that day at midnight at offset 0 |
| JsDate.ParseIsoDate | frontend/src/components/ComparisonChart.jsx:81 | the ISO text of every day with a year of at most six digits parses back to that day |
| JsDate.DateOfIsoDateKey | frontend/src/components/ComparisonChart.jsx:81-124 | `new Date(key)` of a day key is UTC midnight of that day |
| JsDate.NewDateBareMidnight | frontend/src/components/ComparisonChart.jsx:68 | a bare date with T00:00:00 is local midnight: the day's UTC midnight minus the offset |
| JsDate.NewDateBareUtcMidnight | frontend/src/components/ComparisonChart.jsx:65 | a bare date with T00:00:00Z is the day's UTC midnight |
| JsDate.UtcDayOfDayNumber | frontend/src/components/ComparisonChart.jsx:81 | any time within day n has UTC day n |
| Paging.Displayed | frontend/src/components/PortfolioTable.jsx:26 | the shown rows are a prefix of the sorted rows: all of them with showAll, else the first min(10, n) |
| Paging.ControlsOf | frontend/src/components/PortfolioTable.jsx:61-100 | the toggle exists exactly when n > 10, with the caption for the current state; the "Mostrando 10 de N" message exists exactly when rows are hidden, and reports N |
| Paging.MessageIffHidden | frontend/src/components/PortfolioTable.jsx:26-100 | the message appears exactly when fewer rows are shown than exist, and then 10 are shown |
| Paging.NoToggleShowsAll | frontend/src/components/PortfolioTable.jsx:26-68 | without a toggle every row is shown whatever the flag says |
| PortfolioTable.Normalize | frontend/src/components/PortfolioTable.jsx:17-20 | date is `Date`, else `date`, else ''; return is `portfolio_return`, else `return`, else 0, each taken when truthy |
| PortfolioTable.Normalized | frontend/src/components/PortfolioTable.jsx:17-20 | one normalised entry per record, in order |
| PortfolioTable.ZeroReturnFallsThrough | frontend/src/components/PortfolioTable.jsx:19 | a zero `portfolio_return` falls through to `return` |
| PortfolioTable.SortedData | frontend/src/components/PortfolioTable.jsx:22-24 | the sorted copy is a permutation of the normalised rows |
| PortfolioTable.ByDate | frontend/src/components/PortfolioTable.jsx:23 | a comparison involving an invalid date is 0 (NaN read as "equal"); between valid dates it is ≤ 0 exactly when the first time is not later |
| PortfolioTable.NormalizedValid | frontend/src/components/PortfolioTable.jsx:17-24 | a valid date in every record gives a valid date in every normalised row |
| PortfolioTable.ByDateConsistent | frontend/src/components/PortfolioTable.jsx:22-24 | with every date valid, the date-difference comparator is a consistent comparator |
| PortfolioTable.SortedAscending | frontend/src/components/PortfolioTable.jsx:22-24 | with every date valid, the sorted copy is ascending by date |
| PortfolioTable.SortedInputUnchanged | frontend/src/components/PortfolioTable.jsx:22-24 | data already in order is left in its order: the sort is stable |
| PortfolioTable.FormatReturn | frontend/src/components/PortfolioTable.jsx:47-55 | the '+' and positive style appear exactly when the number is ≥ 0, and the percentage is value ×100 |
| PortfolioTable.FormatReturnSign | frontend/src/components/PortfolioTable.jsx:49-53 | zero gets '+', a negative number does not; undefined (NaN) does not, null (0) does |
| PortfolioTable.CsvOf | frontend/src/components/PortfolioTable.jsx:29-35 | the header then exactly one line per sorted row, in sorted order, built from all rows and not the page |
| PortfolioTable.Render | frontend/src/components/PortfolioTable.jsx:7-104 | the empty message exactly for absent or empty data; otherwise the shown rows, the controls for n records and the CSV of all of them |
| PortfolioTable.RenderCounts | frontend/src/components/PortfolioTable.jsx:26-35 | min(10, n) rows, or n with showAll; n CSV lines, whatever the toggle state |
| TopStocksTable.Normalize | frontend/src/components/TopStocksTable.jsx:18-23 | date and symbol default to ''; engagement is `engagement`, else `engagement_ratio`, else 0; rank defaults to 0 |
| TopStocksTable.Normalized | frontend/src/components/TopStocksTable.jsx:18-23 | one normalised row per record, in order |
| TopStocksTable.Dates | frontend/src/components/TopStocksTable.jsx:25 | the date of each normalised row, in order |
| TopStocksTable.DatesOf | frontend/src/components/TopStocksTable.jsx:25 | a value is among the dates exactly when it is the normalised date of some record |
| TopStocksTable.SortedMonths | frontend/src/components/TopStocksTable.jsx:25-26 | the months are exactly the normalised dates, each listed once |
| TopStocksTable.MonthsDistinct | frontend/src/components/TopStocksTable.jsx:25-26 | the month list holds each distinct date exactly once |
| TopStocksTable.DateOrderIsDifference | frontend/src/components/TopStocksTable.jsx:26 | the month comparator is the difference of the two time values |
| TopStocksTable.MonthsAscending | frontend/src/components/TopStocksTable.jsx:26 | with every date valid, the month list is ascending by date |
| TopStocksTable.Filtered | frontend/src/components/TopStocksTable.jsx:28-30 | the filter keeps only rows of the data, and with a month selected only rows of that date |
| TopStocksTable.FilteredRows | frontend/src/components/TopStocksTable.jsx:28-30 | with a month selected, every kept row has that date and every row with that date is kept as often as it occurs |
| TopStocksTable.NoMonthNoFilter | frontend/src/components/TopStocksTable.jsx:28-30 | without a selected month (or with '') the filter is the identity |
| TopStocksTable.SortedData | frontend/src/components/TopStocksTable.jsx:33-37 | the sorted copy is a permutation of the filtered rows |
| TopStocksTable.ByDateThenRank | frontend/src/components/TopStocksTable.jsx:33-37 | a comparison involving an invalid date is 0, since a NaN difference is neither 0 nor ordered |
| TopStocksTable.ComparatorIsKeyOrder | frontend/src/components/TopStocksTable.jsx:33-37 | a non-positive comparison means the earlier date, or the same date and a rank no greater |
| TopStocksTable.KeyLeTotalPreorder | frontend/src/components/TopStocksTable.jsx:33-37 | that order is total and transitive |
| TopStocksTable.ByDateThenRankConsistent | frontend/src/components/TopStocksTable.jsx:33-37 | with valid dates and numeric ranks, the comparator is consistent |
| TopStocksTable.SortedByDateThenRank | frontend/src/components/TopStocksTable.jsx:33-37 | the sorted copy is ordered by date, then by rank ascending |
| TopStocksTable.CsvOf | frontend/src/components/TopStocksTable.jsx:41-48 | the header then exactly one line per sorted row, in sorted order |
| TopStocksTable.MonthOptions | frontend/src/components/TopStocksTable.jsx:77-81 | one option per sorted month, in order, captioned without the 'N/A' guard: its local day, or "Invalid Date" |
| TopStocksTable.UndatedMonthIsInvalidDate | frontend/src/components/TopStocksTable.jsx:19-26 | a record without a date adds the month '', captioned "Invalid Date" |
| TopStocksTable.TableRows | frontend/src/components/TopStocksTable.jsx:60-128 | the rows exist exactly when every shown engagement is a number (`toFixed` throws a TypeError otherwise), one row per shown stock, in order |
| TopStocksTable.NumericEngagementRenders | frontend/src/components/TopStocksTable.jsx:60-128 | when every record's engagement is a number, the table renders |
| TopStocksTable.TextEngagementThrows | frontend/src/components/TopStocksTable.jsx:60-66 | a shown engagement given as the text "0.5" makes the render throw |
| TopStocksTable.Render | frontend/src/components/TopStocksTable.jsx:8-138 | the empty message exactly for absent or empty data; a render error exactly when a shown row's engagement is not a number; otherwise the unguarded month captions, the shown rows of the filtered and sorted data, controls for the filtered count and its CSV |
| TopStocksTable.RenderCounts | frontend/src/components/TopStocksTable.jsx:39-48 | non-empty data never gives the empty message; a rendered table has min(10, n) rows, or n with showAll, and n CSV lines, for n the filtered count; the CSV does not depend on the toggle |
| Sequences.Filter | ray_parallel/models/TwitterSentimentAnalysis.py:41-43 | a filter keeps exactly the elements that satisfy the predicate, and never adds any |
| Sequences.FilterCount | frontend/src/components/TopStocksTable.jsx:28-30 | a filter keeps every occurrence of a satisfying element and none of the others |
| Sequences.FilterAll | frontend/src/components/TopStocksTable.jsx:28-30 | a filter that every element satisfies is the identity |
| Sequences.Distinct | frontend/src/components/TopStocksTable.jsx:25 | `[...new Set(s)]` has the same elements as s, each once |
| Sequences.Take | frontend/src/components/PortfolioTable.jsx:26 | `slice(0, n)` is the prefix of length min(n, \|s\|) |
| Sequences.Sort | frontend/src/components/PortfolioTable.jsx:22-24 | sorting is a permutation |
| Sequences.SortSorted | frontend/src/components/PortfolioTable.jsx:22-24 | with a consistent comparator the result is sorted by it |
| Sequences.SortOfSorted | frontend/src/components/PortfolioTable.jsx:22-24 | an already sorted array is left unchanged |
| Sequences.SortByKey | frontend/src/components/TopStocksTable.jsx:26 | sorting by a key difference orders by that key |
| Sequences.SortDistinct | frontend/src/components/TopStocksTable.jsx:25-26 | the sorted distinct list holds each element of the input exactly once |
| Sequences.FilterFilter | ray_parallel/models/TwitterSentimentAnalysis.py:58 | filtering twice is filtering once by the conjunction |
| Sequences.FilterOrdered | ray_parallel/models/TwitterSentimentAnalysis.py:58 | a filter keeps the relative order of the elements |
| Sequences.DistinctLength | ray_parallel/models/TwitterSentimentAnalysis.py:77 | the length of the distinct list is the number of distinct elements |
| LexOrder.CompareStrings | ray_parallel/models/TwitterSentimentAnalysis.py:49 | the order in which groupby sorts symbols: a result in {-1, 0, 1} |
| LexOrder.CompareAntisymmetric | ray_parallel/models/TwitterSentimentAnalysis.py:49 | swapping the arguments negates the comparison |
| LexOrder.CompareZeroIffEqual | ray_parallel/models/TwitterSentimentAnalysis.py:49 | the comparison is 0 exactly for equal strings |
| LexOrder.CompareTransitive | ray_parallel/models/TwitterSentimentAnalysis.py:49 | the order is transitive |
| TwitterSentiment.RatedOf | ray_parallel/models/TwitterSentimentAnalysis.py:40 | a kept row's ratio times its likes is its comments |
| TwitterSentiment.Engaged | ray_parallel/models/TwitterSentimentAnalysis.py:41-43 | a row passes the filter only with likes and comments both present and positive |
| TwitterSentiment.ToDatetime | ray_parallel/models/TwitterSentimentAnalysis.py:38 | `pd.to_datetime` fails exactly when some date cell cannot be converted; otherwise it keeps every row, a blank cell becoming NaT and a readable one its Timestamp |
| TwitterSentiment.LoadSentimentData | ray_parallel/models/TwitterSentimentAnalysis.py:36-44 | the kept rows are exactly the rows with likes > 20 and comments > 10, in order, each with ratio = comments / likes |
| TwitterSentiment.LoadedRows | ray_parallel/models/TwitterSentimentAnalysis.py:41-43 | a row is kept if and only if it is in the input and passes the filter |
| TwitterSentiment.KeysOf | ray_parallel/models/TwitterSentimentAnalysis.py:49 | the (month, symbol) group key of each kept row |
| TwitterSentiment.KeyOrderZero | ray_parallel/models/TwitterSentimentAnalysis.py:49 | the group order compares month, then symbol: 0 exactly for the same key, antisymmetric |
| TwitterSentiment.KeyOrderConsistent | ray_parallel/models/TwitterSentimentAnalysis.py:49 | the group order is a consistent comparator |
| TwitterSentiment.BinnedRows | ray_parallel/models/TwitterSentimentAnalysis.py:47-49 | the groups hold exactly the kept rows whose date is not NaT and whose symbol is not NaN, in order |
| TwitterSentiment.GroupKeys | ray_parallel/models/TwitterSentimentAnalysis.py:47-51 | one group per distinct key of the kept rows, each once |
| TwitterSentiment.GroupKeysOfRows | ray_parallel/models/TwitterSentimentAnalysis.py:47-51 | a group exists exactly for a key some kept row has |
| TwitterSentiment.GroupKeysAscending | ray_parallel/models/TwitterSentimentAnalysis.py:47-51 | the groups are strictly ascending by month, then symbol |
| TwitterSentiment.RatiosOf | ray_parallel/models/TwitterSentimentAnalysis.py:49-50 | the ratios of the rows of one group, in order |
| TwitterSentiment.GroupNonEmpty | ray_parallel/models/TwitterSentimentAnalysis.py:49-50 | every group holds at least one row |
| TwitterSentiment.Averages | ray_parallel/models/TwitterSentimentAnalysis.py:47-51 | each group's engagement is the arithmetic mean of its rows' ratios |
| TwitterSentiment.GroupMeanBounds | ray_parallel/models/TwitterSentimentAnalysis.py:50 | a group's mean lies between the bounds of its rows' ratios |
| TwitterSentiment.Aggregate | ray_parallel/models/TwitterSentimentAnalysis.py:46-55 | each group carries its mean and the descending average rank of that mean within its month |
| TwitterSentiment.AveragesDistinct | ray_parallel/models/TwitterSentimentAnalysis.py:47-51 | no two groups are equal |
| TwitterSentiment.LevelAtLeastOne | ray_parallel/models/TwitterSentimentAnalysis.py:52-54 | a mean ties with at least itself |
| TwitterSentiment.AverageRank | ray_parallel/models/TwitterSentimentAnalysis.py:52-54 | a group of the month ranks at least 1; a group alone at its level ranks 1 + the number of groups above it |
| TwitterSentiment.RankBounds | ray_parallel/models/TwitterSentimentAnalysis.py:52-54 | a rank lies between 1 and the number of groups in the month |
| TwitterSentiment.RankOrder | ray_parallel/models/TwitterSentimentAnalysis.py:52-54 | within a month, a strictly higher mean has a strictly smaller rank and conversely; equal means share a rank |
| TwitterSentiment.RankStep | ray_parallel/models/TwitterSentimentAnalysis.py:52-54 | a higher mean in the same month has a smaller average rank |
| TwitterSentiment.TopRankIsOne | ray_parallel/models/TwitterSentimentAnalysis.py:52-54 | the strict maximum of a month has rank 1 |
| TwitterSentiment.TopOfMonth | ray_parallel/models/TwitterSentimentAnalysis.py:52-54 | the same, stated on the averaged groups |
| TwitterSentiment.RankWithoutTies | ray_parallel/models/TwitterSentimentAnalysis.py:52-54 | without ties in the group's month, the rank is 1 + the number of groups of the month with a higher mean |
| TwitterSentiment.SelectTop5 | ray_parallel/models/TwitterSentimentAnalysis.py:58 | exactly the groups with rank < 6 are kept |
| TwitterSentiment.SelectedIffTopFive | ray_parallel/models/TwitterSentimentAnalysis.py:52-58 | without ties in the group's month, a group is kept exactly when fewer than 5 groups of its month have a higher mean |
| TwitterSentiment.Lowest | ray_parallel/models/TwitterSentimentAnalysis.py:58 | some kept group of a month has the lowest mean among them |
| TwitterSentiment.AtMostFivePerMonth | ray_parallel/models/TwitterSentimentAnalysis.py:52-58 | when no two groups of that month share a mean, at most 5 of its groups are kept |
| TwitterSentiment.FiveAtMostSelected | ray_parallel/models/TwitterSentimentAnalysis.py:58 | the same bound, stated for any correctly ranked groups, when that month has no ties |
| TwitterSentiment.AggregateRanked | ray_parallel/models/TwitterSentimentAnalysis.py:52-54 | the aggregated groups are ranked correctly over their means, and are pairwise distinct |
| TwitterSentiment.FiveAtMost | ray_parallel/models/TwitterSentimentAnalysis.py:58 | the kept groups of one month number at most 5 when that month has no ties |
| TwitterSentiment.OthersAbove | ray_parallel/models/TwitterSentimentAnalysis.py:52-58 | when that month has no ties, every other kept group of the month has a higher mean than the lowest kept one |
| TwitterSentiment.AboveCount | ray_parallel/models/TwitterSentimentAnalysis.py:52-54 | counting higher groups is the same over groups and over their means |
| TwitterSentiment.PeriodStart | ray_parallel/models/TwitterSentimentAnalysis.py:49-60 | the date of a kept group is a valid first day of a month, within the Timestamp years |
| TwitterSentiment.PeriodStartIsDayAfterLabel | ray_parallel/models/TwitterSentimentAnalysis.py:49-60 | that date is the month-end label plus one day |
| TwitterSentiment.PeriodStartInjective | ray_parallel/models/TwitterSentimentAnalysis.py:60 | two groups get the same date only when they are in the same month |
| TwitterSentiment.SymbolsOn | ray_parallel/models/TwitterSentimentAnalysis.py:68 | `xs(d)` lists the symbols of the kept groups dated d, in order |
| TwitterSentiment.StartDates | ray_parallel/models/TwitterSentimentAnalysis.py:65 | the date of each kept group, in order, each a valid day |
| TwitterSentiment.IsoDatesDistinct | ray_parallel/models/TwitterSentimentAnalysis.py:68 | `strftime('%Y-%m-%d')` writes distinct dates as distinct keys |
| TwitterSentiment.DictStep | ray_parallel/models/TwitterSentimentAnalysis.py:67-68 | one loop iteration is one assignment to the dict |
| TwitterSentiment.DictOf | ray_parallel/models/TwitterSentimentAnalysis.py:66-68 | after the loop, the key of the last date holds that date's symbols |
| TwitterSentiment.DictOfKeys | ray_parallel/models/TwitterSentimentAnalysis.py:66-68 | the dict's keys are the keys of the dates iterated |
| TwitterSentiment.DictOfSize | ray_parallel/models/TwitterSentimentAnalysis.py:66-68 | with distinct keys the dict has one entry per date |
| TwitterSentiment.DictOfValues | ray_parallel/models/TwitterSentimentAnalysis.py:66-68 | with distinct keys each date's entry holds that date's value |
| TwitterSentiment.ExtractStocksByDate | ray_parallel/models/TwitterSentimentAnalysis.py:64-69 | the loop fills the dict with one YYYY-MM-DD key per distinct kept date, mapped to exactly the symbols kept for that date |
| TwitterSentiment.IsoDatePortfolio | ray_parallel/models/TwitterSentimentAnalysis.py:64-69 | the dict the loop builds is the portfolio of the kept groups |
| TwitterSentiment.DatesPortfolio | ray_parallel/models/TwitterSentimentAnalysis.py:64-69 | the same, for any key function that is injective on the dates |
| TwitterSentiment.StartsOfSelected | ray_parallel/models/TwitterSentimentAnalysis.py:65 | the distinct dates are exactly the dates of the kept groups |
| TwitterSentiment.DateKeys | ray_parallel/models/TwitterSentimentAnalysis.py:65-68 | the keys of the distinct dates are the keys of the kept groups' dates |
| TwitterSentiment.DictValuesOfSelected | ray_parallel/models/TwitterSentimentAnalysis.py:68 | every kept group's date key is present and maps to that date's symbols |
| TwitterSentiment.SymbolsAscending | ray_parallel/models/TwitterSentimentAnalysis.py:49-68 | the symbols listed under a date are strictly ascending, because the groups are sorted by month, then symbol |
| TwitterSentiment.TopStocks | ray_parallel/models/TwitterSentimentAnalysis.py:79-85 | one top_stocks record per kept group, with its symbol, engagement and rank |
| TwitterSentiment.TopStockDates | ray_parallel/models/TwitterSentimentAnalysis.py:60-83 | each record's date is a YYYY-MM-DD text of the month-end label plus one day |
| TwitterSentiment.TopStocksInPortfolio | ray_parallel/models/TwitterSentimentAnalysis.py:75-85 | every top_stocks record's date is a key of the portfolio and its symbol is listed under it |
| TwitterSentiment.RowSymbols | ray_parallel/models/TwitterSentimentAnalysis.py:77 | the symbol of each kept row |
| TwitterSentiment.Tickers | ray_parallel/models/TwitterSentimentAnalysis.py:77 | the distinct symbols of the kept rows, each once |
| TwitterSentiment.TickerCount | ray_parallel/models/TwitterSentimentAnalysis.py:77-100 | the number of tickers is the number of distinct symbols of the filtered rows |
| TwitterSentiment.GroupSymbolsAreTickers | ray_parallel/models/TwitterSentimentAnalysis.py:49-77 | every symbol of a group is among the tickers |
| TwitterSentiment.UndatedRowCountsOnlyAsTicker | ray_parallel/models/TwitterSentimentAnalysis.py:38-77 | a kept row dated NaT counts in num_tickers but forms no group |
| TwitterSentiment.UnnamedRowCountsOnlyAsTicker | ray_parallel/models/TwitterSentimentAnalysis.py:47-77 | a kept row with an empty (NaN) symbol counts in num_tickers but forms no group, as groupby drops NaN keys and `unique` keeps NaN |
| TwitterSentiment.RunAnalysis | ray_parallel/models/TwitterSentimentAnalysis.py:71-103 | the ValueError exactly when a date cannot be converted; otherwise the portfolio of the kept groups, their top_stocks records and the metadata: the period text, num_tickers = distinct filtered symbols (NaT dates and NaN symbols included), num_periods = keys of the portfolio = distinct kept dates |
| Calendar.FromDayNumber | ray_parallel/models/TwitterSentimentAnalysis.py:60 | every day number names a valid day with that number |
| Calendar.FromDayNumberRoundTrip | ray_parallel/models/TwitterSentimentAnalysis.py:60 | a valid day's number names it again |
| Calendar.DayNumberInjective | ray_parallel/models/TwitterSentimentAnalysis.py:60 | distinct valid days have distinct numbers |
| Calendar.AddDays | ray_parallel/models/TwitterSentimentAnalysis.py:60 | `+ DateOffset(1)` moves the day number by one and gives a valid day |
| Calendar.MonthEndNextDay | ray_parallel/models/TwitterSentimentAnalysis.py:49-60 | the day after a month's last day is the first of the next month |
| Calendar.IsoDate | ray_parallel/models/TwitterSentimentAnalysis.py:68 | the ISO text is 10 characters (13 with an expanded year) with dashes before month and day |
| Calendar.IsoDateInjective | ray_parallel/models/TwitterSentimentAnalysis.py:68 | distinct days of four-digit years have distinct texts |
| Calendar.IsoDateOfBareDate | frontend/src/components/ComparisonChart.jsx:81 | a YYYY-MM-DD text is the ISO text of the day it names |
| Calendar.IsoDateIsBareDate | ray_parallel/models/TwitterSentimentAnalysis.py:83 | the ISO text of a day of a four-digit year is a YYYY-MM-DD text naming it |
| Calendar.DigitsValuePad | ray_parallel/models/TwitterSentimentAnalysis.py:83 | reading back a zero-padded number gives the number |
| Calendar.PadDigitsValue | ray_parallel/models/TwitterSentimentAnalysis.py:83 | padding the value of a digit string gives the string back |
| Floats.Add | ray_parallel/models/IntradayGARCHStrategy.py:94 | NaN exactly for a NaN operand or opposite infinities; finite operands add exactly |
| Floats.Sub | ray_parallel/models/IntradayGARCHStrategy.py:53 | NaN exactly for a NaN operand or equal infinities; finite operands subtract exactly |
| Floats.Mul | ray_parallel/models/IntradayGARCHStrategy.py:92 | NaN exactly for a NaN operand or infinity times zero; finite operands multiply exactly |
| Floats.Div | ray_parallel/models/IntradayGARCHStrategy.py:53 | NaN exactly for a NaN operand, two infinities or 0/0; a non-zero number over 0 is the infinity of its sign |
| Floats.LessOrder | ray_parallel/models/IntradayGARCHStrategy.py:55-56 | `<` is a strict total order on non-NaN values |
| Floats.NaNUnordered | ray_parallel/models/IntradayGARCHStrategy.py:55-56 | every comparison with NaN is false |
| IntradayGarch.DayOf | ray_parallel/models/IntradayGARCHStrategy.py:38 | a bar's date is the day whose 1440 minutes contain it |
| IntradayGarch.Since2020 | ray_parallel/models/IntradayGARCHStrategy.py:34 | exactly the daily rows dated 2020-01-01 or later |
| IntradayGarch.DailyInPeriod | ray_parallel/models/IntradayGARCHStrategy.py:101 | exactly the daily rows from start to end, both included |
| IntradayGarch.BarsInPeriod | ray_parallel/models/IntradayGARCHStrategy.py:102-105 | exactly the bars from midnight of start to midnight of end, both included |
| IntradayGarch.LastDayExcluded | ray_parallel/models/IntradayGARCHStrategy.py:104 | the bars of the end day after its midnight are dropped |
| IntradayGarch.OneDayPeriodBars | ray_parallel/models/IntradayGARCHStrategy.py:102-105 | with one bar per minute, a period from a day to the same day keeps at most one bar |
| IntradayGarch.LogReturns | ray_parallel/models/IntradayGARCHStrategy.py:42 | the log_ret column, row by row |
| IntradayGarch.Windows | ray_parallel/models/IntradayGARCHStrategy.py:43 | max(0, L − 180) windows of 180 returns each; window j holds rows j … j + 179, the 180 rows before row j + 180 |
| IntradayGarch.Forecasts | ray_parallel/models/IntradayGARCHStrategy.py:44-45 | one forecast per window, in order |
| IntradayGarch.Trimmed | ray_parallel/models/IntradayGARCHStrategy.py:48 | `iloc[180:]`: the rows after the first 180 |
| IntradayGarch.TrimMatchesForecasts | ray_parallel/models/IntradayGARCHStrategy.py:43-49 | the trimmed rows and the forecasts are equally many, so the column assignment aligns |
| IntradayGarch.ForecastUsesPastReturns | ray_parallel/models/IntradayGARCHStrategy.py:43-49 | the forecast for a trimmed row depends only on the 180 returns before it |
| IntradayGarch.Premium | ray_parallel/models/IntradayGARCHStrategy.py:53 | for finite inputs and non-zero variance, the premium is prediction / variance − 1; NaN in gives NaN out |
| IntradayGarch.ZeroVariancePremium | ray_parallel/models/IntradayGARCHStrategy.py:53 | a zero variance gives NaN for a zero prediction and the infinity of the prediction's sign otherwise |
| IntradayGarch.Premiums | ray_parallel/models/IntradayGARCHStrategy.py:53 | the premium of each row |
| IntradayGarch.DailyRule | ray_parallel/models/IntradayGARCHStrategy.py:55-56 | 1 exactly when premium > std; −1 exactly when not, and premium < −std; NaN when either input is NaN |
| IntradayGarch.DailyRuleBands | ray_parallel/models/IntradayGARCHStrategy.py:55-56 | for finite inputs: 1 above the band, −1 below it, NaN within [−std, std] |
| IntradayGarch.Shifted | ray_parallel/models/IntradayGARCHStrategy.py:57 | `shift()`: the first row is NaN and every later row holds its predecessor's value |
| IntradayGarch.DailySignals | ray_parallel/models/IntradayGARCHStrategy.py:55-57 | one signal per row |
| IntradayGarch.DailySignalFromPreviousRow | ray_parallel/models/IntradayGARCHStrategy.py:55-57 | a row's signal is the rule applied to the previous row, and NaN for the first row |
| IntradayGarch.Dates | ray_parallel/models/IntradayGARCHStrategy.py:61 | the Date column of the daily rows |
| IntradayGarch.SignalsOn | ray_parallel/models/IntradayGARCHStrategy.py:68 | the daily signals that match a date: at most one per daily row, each one of them |
| IntradayGarch.SignalsOnCount | ray_parallel/models/IntradayGARCHStrategy.py:68 | every daily row dated d is matched: the matches number as many as the rows of that date |
| IntradayGarch.SignalsOnAppend | ray_parallel/models/IntradayGARCHStrategy.py:68 | the matches of two blocks of rows are the first block's followed by the second's, so they keep the daily order |
| IntradayGarch.SignalsOnSingle | ray_parallel/models/IntradayGARCHStrategy.py:68 | one daily row matches exactly when it is dated d |
| IntradayGarch.MergeBar | ray_parallel/models/IntradayGARCHStrategy.py:68 | a left merge keeps each bar at least once, with its time and close |
| IntradayGarch.MergeBarRows | ray_parallel/models/IntradayGARCHStrategy.py:68 | a bar appears once per daily row of its day, with those rows' signals in daily order, or once with NaN when no row matches |
| IntradayGarch.Merge | ray_parallel/models/IntradayGARCHStrategy.py:60-71 | no bar is lost by the left merge |
| IntradayGarch.SignalsOnDistinct | ray_parallel/models/IntradayGARCHStrategy.py:68 | with distinct daily dates a day matches at most one daily row, and then its signal |
| IntradayGarch.SignalsOnNone | ray_parallel/models/IntradayGARCHStrategy.py:68 | a day without a daily row matches nothing |
| IntradayGarch.MergeBarOneToOne | ray_parallel/models/IntradayGARCHStrategy.py:68 | with distinct daily dates each bar gives exactly one merged bar, with its day's signal or NaN |
| IntradayGarch.MergeOneToOne | ray_parallel/models/IntradayGARCHStrategy.py:60-71 | with distinct daily dates the merge keeps the bars one to one, in order, each with its day's signal or NaN |
| IntradayGarch.MergedSignalOfDay | ray_parallel/models/IntradayGARCHStrategy.py:68 | a bar on a daily row's date gets that row's signal |
| IntradayGarch.OneDayPeriodTooShort | ray_parallel/models/IntradayGARCHStrategy.py:75-77 | with one bar per minute and one daily row per date, a one-day period merges into fewer than 20 bars, the length below which the indicators fail |
| IntradayGarch.Closes | ray_parallel/models/IntradayGARCHStrategy.py:75-76 | the close column of the merged bars |
| IntradayGarch.IntradayRule | ray_parallel/models/IntradayGARCHStrategy.py:80-81 | 1 exactly when rsi > 70 and close > upper band; −1 exactly when not, and rsi < 30 and close < lower band; NaN otherwise |
| IntradayGarch.IntradayRuleExclusive | ray_parallel/models/IntradayGARCHStrategy.py:80-81 | −1 exactly when rsi < 30 and close < lower band (the two cases cannot both hold); NaN rsi or close gives NaN |
| IntradayGarch.IntradaySignals | ray_parallel/models/IntradayGARCHStrategy.py:80-81 | the rule applied bar by bar |
| IntradayGarch.ReturnSign | ray_parallel/models/IntradayGARCHStrategy.py:88-89 | −1 exactly when both signals are 1, +1 exactly when both are −1, NaN otherwise |
| IntradayGarch.ReturnSignContrarian | ray_parallel/models/IntradayGARCHStrategy.py:88-89 | a defined sign means both signals agree and the position is their opposite |
| IntradayGarch.ReturnSigns | ray_parallel/models/IntradayGARCHStrategy.py:88-89 | the sign of each bar |
| IntradayGarch.BarDays | ray_parallel/models/IntradayGARCHStrategy.py:90 | the calendar day of each bar |
| IntradayGarch.LastSignOn | ray_parallel/models/IntradayGARCHStrategy.py:90 | with no defined sign on day d up to bar i, the filled sign is NaN |
| IntradayGarch.FillForwardByDay | ray_parallel/models/IntradayGARCHStrategy.py:90 | each bar gets the last sign of its own day at or before it |
| IntradayGarch.LastSignOnIsMostRecent | ray_parallel/models/IntradayGARCHStrategy.py:90 | the filled sign is defined exactly when some earlier-or-same bar of that day has a sign, and is then the most recent such sign |
| IntradayGarch.FillStaysWithinDay | ray_parallel/models/IntradayGARCHStrategy.py:90 | a bar's filled sign comes from its own day only, so no sign is carried into the next day; a defined sign is kept |
| IntradayGarch.ForwardReturns | ray_parallel/models/IntradayGARCHStrategy.py:91 | `shift(-1)` over the whole series: each bar gets the next bar's return, and the last bar gets NaN |
| IntradayGarch.StrategyReturns | ray_parallel/models/IntradayGARCHStrategy.py:92 | forward return × sign, bar by bar |
| IntradayGarch.StrategyReturnBySign | ray_parallel/models/IntradayGARCHStrategy.py:92 | no sign gives NaN, +1 keeps the return and −1 negates it |
| IntradayGarch.DayTotal | ray_parallel/models/IntradayGARCHStrategy.py:94 | a day with no bars sums to 0 |
| IntradayGarch.DayTotalWithoutValues | ray_parallel/models/IntradayGARCHStrategy.py:94 | a day with no defined bar return sums to 0 |
| IntradayGarch.DayTotalFinite | ray_parallel/models/IntradayGARCHStrategy.py:94 | a day whose returns are finite or NaN has a finite total |
| IntradayGarch.DayTotalNaN | ray_parallel/models/IntradayGARCHStrategy.py:94 | a NaN day total needs both a +∞ and a −∞ return on that day |
| IntradayGarch.DayTotalInfinite | ray_parallel/models/IntradayGARCHStrategy.py:94 | an infinite day total needs a return of that infinity on that day |
| IntradayGarch.MinOf | ray_parallel/models/IntradayGARCHStrategy.py:94 | a lower bound of the bar days |
| IntradayGarch.MaxOf | ray_parallel/models/IntradayGARCHStrategy.py:94 | an upper bound of the bar days |
| IntradayGarch.MinMaxAttained | ray_parallel/models/IntradayGARCHStrategy.py:94 | the bounds are days of bars |
| IntradayGarch.DailyTotals | ray_parallel/models/IntradayGARCHStrategy.py:94 | one total per day from the first bar's day to the last one's, consecutive, each the sum of that day's defined returns; none without bars |
| IntradayGarch.DailyTotalsCoverBars | ray_parallel/models/IntradayGARCHStrategy.py:94 | every bar's day has a total, every total lies between the first and last bar days, and both ends are bar days |
| IntradayGarch.Sanitised | ray_parallel/models/IntradayGARCHStrategy.py:117-122 | finite values are kept; infinities and NaN become 0 |
| IntradayGarch.SanitisedSignal | ray_parallel/models/IntradayGARCHStrategy.py:116-118 | a returned signal is 1, −1 or 0 |
| IntradayGarch.SignalRecords | ray_parallel/models/IntradayGARCHStrategy.py:116-118 | one daily_signals record per daily row, with its date and its sanitised signal and prediction |
| IntradayGarch.FirstSignalRecordIsZero | ray_parallel/models/IntradayGARCHStrategy.py:116-118 | the first daily record's signal, NaN after `shift()`, is written out as 0 |
| IntradayGarch.ReturnRecords | ray_parallel/models/IntradayGARCHStrategy.py:120-122 | one strategy_returns record per day, with its sanitised total |
| IntradayGarch.Totals | ray_parallel/models/IntradayGARCHStrategy.py:113 | the daily totals the cumulative return compounds, unsanitised |
| IntradayGarch.CumulativeValue | ray_parallel/models/IntradayGARCHStrategy.py:124-126 | the last cumulative value, or 0 when the series is empty or its last value is not finite |
| IntradayGarch.IntradayGarchAlgorithm.constructor | ray_parallel/models/IntradayGARCHStrategy.py:22-26 | the object holds the contents of the two files |
| IntradayGarch.IntradayGarchAlgorithm.LoadData | ray_parallel/models/IntradayGARCHStrategy.py:28-39 | daily_df becomes the daily rows from 2020 on; intraday_df becomes the bars |
| IntradayGarch.IntradayGarchAlgorithm.ParallelPredictVolatility | ray_parallel/models/IntradayGARCHStrategy.py:41-49 | daily_df is trimmed by 180 rows, and predictions are the forecasts of the windows of the untrimmed rows, one per remaining row |
| IntradayGarch.IntradayGarchAlgorithm.ComputeSignals | ray_parallel/models/IntradayGARCHStrategy.py:51-58 | the premium, its rolling deviation and the shifted daily signal columns, one per row; nothing else changes |
| IntradayGarch.IntradayGarchAlgorithm.MergeIntraday | ray_parallel/models/IntradayGARCHStrategy.py:60-71 | final_df becomes the left merge of the bars with the daily signals |
| IntradayGarch.IntradayGarchAlgorithm.ComputeIntradaySignals | ray_parallel/models/IntradayGARCHStrategy.py:73-83 | fails (the TypeError of `bbands[...]` on None) exactly when final_df has fewer than 20 bars, changing nothing; otherwise the rsi, band, intraday signal and return columns of final_df |
| IntradayGarch.IntradayGarchAlgorithm.ComputeStrategyReturns | ray_parallel/models/IntradayGARCHStrategy.py:85-95 | the filled signs, the forward returns, their product and the per-day sums |
| IntradayGarch.IntradayGarchAlgorithm.RunStrategy | ray_parallel/models/IntradayGARCHStrategy.py:97-132 | the whole pipeline on the rows and bars of the period: it fails exactly when the merged bars number fewer than 20; otherwise every column (premium, its rolling std, daily signal, merged bars, RSI and bands, intraday signal, bar return, filled sign, forward and strategy return, daily totals) is its specification function of the previous columns, and the output is the sanitised signal records, daily return records and cumulative value |

## Left out

- Network and service plumbing is I/O: `getTickerPrices`, the HTTP proxy, the Ray Serve endpoints and `download_prices_remote`. `HandleCompare` returns the request it would make.
- `calculate_returns_remote` (log returns of downloaded prices, averaged per portfolio month) is library numerics over downloaded data. `RunAnalysis` returns the portfolio (`fixed_dates`) that it would receive, in place of the returns.
- Ray parallelism (`@ray.remote`, `ray.get`) is concurrency: the forecasts are computed window by window, in order.
- Reading the CSV files: the rows are inputs. The two parsed files are the constructor's arguments, so the `__init__` paths are not modelled. Which date texts `pd.to_datetime` can convert is not modelled: each sentiment date cell is given as blank, readable (with its Timestamp) or unreadable.
- The daily CSV's `log_ret` and rolling `variance` columns are library numerics. They are fields of the input rows, computed before the 2020 filter as in the source.
- Library numerics are inputs, as the functions of a `Numerics` value: the GARCH fit (NaN on failure), `rolling(180).std()`, `ta.rsi`, `ta.bbands`, `np.log(...).diff()`, and the `log1p`/`exp`/`cumsum` compounding. The only assumption about them (`Aligned`) is that they return one value per input row, RSI and the bands only for at least 20 closes; on fewer, `ta.rsi` and `ta.bbands` return None, which the model turns into the TypeError of `ComputeIntradaySignals` and `RunStrategy`.
- `Math.sqrt` is a parameter, assumed to return the non-negative square root.
- Floating point: JavaScript numbers and the reals of the metrics are exact reals. The Python `Float` has NaN and infinities, but no rounding, overflow or signed zero.
- `toFixed`, `toLocaleDateString` and the other locale and number formatting are abstract. The model keeps the value shown (the local day, the number ×100) but not its text. The TypeError that `toFixed` throws on a non-number engagement is modelled, as `TopStocksTable.View.RenderError`.
- `Number()` of a string is modelled for `""` (0) and for decimal literals: an optional sign, digits and an optional fraction. Surrounding whitespace is trimmed. Other strings (exponents, hex, `Infinity`) give NaN here. `Number(true)` is 1.
- The local time zone is a fixed offset strictly within ±24 hours. Daylight-saving changes are not modelled.
- `new Date` accepts only a valid day of the month. Some engines roll an out-of-range day such as February 30 over into the next month. Strings outside the ECMA-262 Date Time String Format, which engines may parse by their own heuristics, are invalid here. A number given to `new Date` is used as a time value.
- JSX markup, styles, the Chart.js options and `afterDraw` plugin, the CSV Blob/URL/DOM download, and `console` logging have no algorithmic content. React state is modelled as parameters: `showAll`, `selectedMonth`, and the ticker text after `toUpperCase`.
- `PortfolioTable.Render`, `TopStocksTable.Render`: absent data and a non-array `data` are both the None case, which gives the empty message as the `!Array.isArray(data)` guard does. An array whose elements are not records is not representable, so the TypeError of `item.Date` on a `null` element is not modelled.
- `TwitterSentiment.AtMostFivePerMonth`: assumes no two groups of the month in question have the same mean; other months may have ties. With ties, pandas average ranks can keep more than five groups (two groups sharing fifth place both get rank 5.5).
- pandas `Timestamp` bounds are taken as the years 1677 to 2262. The exact limits of September 1677 and April 2262 are not modelled.
- `Grouper(freq='M')` does not create bins for empty months, and none are modelled. `Grouper(freq='D')` creates a bin for every day between the first and last bar, and `IntradayGarch.DailyTotals` models those bins, empty days included.
- `IntradayGarch.IntradayGarchAlgorithm.RunStrategy` takes `start_date` and `end_date` as day numbers, so their text parsing is not modelled. The intraday end bound is midnight of the end date, as `pd.to_datetime(end_date)` gives.
- `IntradayGarch.Merge`: its own contract states only that no bar is lost. The per-bar shape is in `IntradayGarch.MergeBarRows` (one row per matching daily row, in daily order, via `SignalsOnCount` and `SignalsOnAppend`), and the one-to-one shape for distinct daily dates, which a date index has, in `IntradayGarch.MergeOneToOne`. A lemma stating the concatenated shape of the whole merge is not part of this model.
- `Sequences.Sort`, `PortfolioTable.SortedData`, `TopStocksTable.SortedData`, `TopStocksTable.SortedMonths`: with a `''` or otherwise invalid date the comparator returns NaN, which `sort` reads as 0, so the comparator is not consistent and ECMA-262 leaves the resulting order implementation-defined. The model's order (a stable insertion sort) is one permitted outcome; sortedness of the result is proved only for data whose dates are all valid, while the permutation, membership and distinctness contracts hold for all data.
- `IntradayGarch.FillForwardByDay`, `IntradayGarch.LastSignOnIsMostRecent`, `IntradayGarch.IntradayGarchAlgorithm.ComputeStrategyReturns`, `IntradayGarch.IntradayGarchAlgorithm.RunStrategy`: the bars are taken in the order of the five-minute file, which is time order as that file is written. `groupby(pd.Grouper(freq='D'))` sorts the bars by time before the `ffill`, so for an unsorted file the model's "most recent earlier sign" is the most recent by position, not by time (bars [10:05 NaN, 10:00 +1] give 10:05 the sign +1 in pandas and no sign here).
