/**
 * The Twitter sentiment strategy: the dates are converted (a blank one to
 * NaT, an unconvertible one failing the run); rows with more than 20 likes and
 * more than 10 comments are kept with their engagement ratio (comments /
 * likes); the ratios of the rows with a date are averaged per calendar month
 * and symbol (pandas labels a month
 * by its last day and sorts the groups by month, then symbol); the groups of
 * each month are ranked by mean engagement, highest first, ties sharing the
 * average of their positions; the groups ranked below 6 are kept and dated
 * one day after their month's end, the first day of the next month; and the
 * kept symbols are collected per date into the portfolio that the returns
 * computation uses.
 */
module TwitterSentiment {
  import opened Wrappers
  import opened Calendar
  import opened Sequences
  import opened LexOrder
  import opened Stats

  /** A year a pandas Timestamp can fall in (its range runs from September 1677 to April 2262). */
  type TimestampYear = y: int | 1677 <= y <= 2262 witness 1970

  type Month = m: int | 1 <= m <= 12 witness 1

  /**
   * The calendar day of a pandas Timestamp. Only its year and month play a
   * part here, so the day of the month is only bounded by 31.
   */
  type Timestamp = d: Day | 1677 <= d.year <= 2262 && 1 <= d.month <= 12 && 1 <= d.day <= 31 witness Day(1970, 1, 1)

  /**
   * A date cell of the CSV as `pd.to_datetime` reads it: empty, a text it
   * converts to a Timestamp, or a text it cannot convert (unparseable, or
   * outside the Timestamp range).
   */
  datatype DateText = Blank | Readable(ts: Timestamp) | Unreadable

  /** One row of the sentiment CSV as read; None is an empty (NaN) symbol cell or a missing (NaN) count. */
  datatype CsvRow = CsvRow(date: DateText, symbol: Option<string>, likes: Option<real>, comments: Option<real>)

  /** One row with its date converted; a None date is NaT, and a None symbol or count is NaN. */
  datatype SentimentRow = SentimentRow(date: Option<Timestamp>, symbol: Option<string>, likes: Option<real>, comments: Option<real>)

  function ConvertedRow(c: CsvRow): SentimentRow
    requires !c.date.Unreadable?
  {
    SentimentRow(if c.date.Blank? then None else Some(c.date.ts), c.symbol, c.likes, c.comments)
  }

  /**
   * `pd.to_datetime(sentiment_df['date'])`: a ValueError (None) as soon as one
   * cell cannot be converted; otherwise every row with its date, an empty cell
   * becoming NaT.
   */
  function ToDatetime(csv: seq<CsvRow>): (r: Option<seq<SentimentRow>>)
    ensures r.None? <==> exists i :: 0 <= i < |csv| && csv[i].date.Unreadable?
    ensures r.Some? ==> |r.value| == |csv|
    ensures r.Some? ==> forall i :: 0 <= i < |csv| ==>
      (r.value[i].date.None? <==> csv[i].date.Blank?) &&
      (csv[i].date.Readable? ==> r.value[i].date == Some(csv[i].date.ts)) &&
      r.value[i].symbol == csv[i].symbol && r.value[i].likes == csv[i].likes && r.value[i].comments == csv[i].comments
  {
    if exists i :: 0 <= i < |csv| && csv[i].date.Unreadable? then None
    else Some(seq(|csv|, i requires 0 <= i < |csv| => ConvertedRow(csv[i])))
  }

  // ---------------------------------------------------------------------------
  // load_sentiment_data

  /** `(twitterLikes > 20) & (twitterComments > 10)`: a NaN count compares false. */
  predicate Engaged(row: SentimentRow)
    ensures Engaged(row) ==> row.likes.Some? && row.likes.value > 0.0 && row.comments.Some? && row.comments.value > 0.0
  {
    row.likes.Some? && row.comments.Some? && row.likes.value > 20.0 && row.comments.value > 10.0
  }

  /** A kept row and its engagement_ratio. */
  datatype Rated = Rated(row: SentimentRow, ratio: real)

  /** A kept row whose ratio times its likes gives back its comments. */
  predicate WellRated(x: Rated) {
    Engaged(x.row) && x.ratio * x.row.likes.value == x.row.comments.value
  }

  function RatedOf(row: SentimentRow): (r: Rated)
    requires Engaged(row)
    ensures r.row == row && WellRated(r)
  {
    DivideBack(row.comments.value, row.likes.value);
    Rated(row, row.comments.value / row.likes.value)
  }

  lemma DivideBack(c: real, l: real)
    requires l > 0.0
    ensures (c / l) * l == c
  {
  }

  /** The engaged rows in their order, each with comments / likes. */
  function LoadSentimentData(rows: seq<SentimentRow>): (r: seq<Rated>)
    ensures |r| == |Filter(rows, Engaged)|
    ensures forall i :: 0 <= i < |r| ==> r[i].row == Filter(rows, Engaged)[i]
    ensures forall i :: 0 <= i < |r| ==> WellRated(r[i])
  {
    var kept := Filter(rows, Engaged);
    seq(|kept|, i requires 0 <= i < |kept| => assert kept[i] in kept; RatedOf(kept[i]))
  }

  /** A row is kept exactly when it has more than 20 likes and more than 10 comments. */
  lemma LoadedRows(rows: seq<SentimentRow>, row: SentimentRow)
    ensures (exists x :: x in LoadSentimentData(rows) && x.row == row) <==> row in rows && Engaged(row)
  {
    var r, kept := LoadSentimentData(rows), Filter(rows, Engaged);
    if row in rows && Engaged(row) {
      var k :| 0 <= k < |kept| && kept[k] == row;
      assert r[k] in r && r[k].row == row;
    }
    if exists x :: x in r && x.row == row {
      var x :| x in r && x.row == row;
      var k :| 0 <= k < |r| && r[k] == x;
      assert kept[k] in kept;
    }
  }

  // ---------------------------------------------------------------------------
  // aggregate: groups by (month, symbol)

  /**
   * A kept row that the groupby puts in a group: `pd.Grouper(freq='M')` bins
   * no NaT date, and `groupby` drops a NaN symbol key.
   */
  predicate InBin(x: Rated) {
    x.row.date.Some? && x.row.symbol.Some?
  }

  type Binned = x: Rated | InBin(x) witness Rated(SentimentRow(Some(Day(1970, 1, 1)), Some(""), None, None), 0.0)

  /** The kept rows that fall in a group, in order: the NaT and NaN-symbol rows belong to none. */
  function BinnedRows(loaded: seq<Rated>): (b: seq<Binned>)
    ensures |b| == |Filter(loaded, InBin)|
    ensures forall i :: 0 <= i < |b| ==> b[i] == Filter(loaded, InBin)[i]
    ensures forall x :: x in b <==> x in loaded && InBin(x)
  {
    var dated := Filter(loaded, InBin);
    var b := seq(|dated|, i requires 0 <= i < |dated| => assert dated[i] in dated; var x: Binned := dated[i]; x);
    assert forall x :: x in b <==> x in dated by {
      forall x | x in dated ensures x in b {
        var k :| 0 <= k < |dated| && dated[k] == x;
        assert b[k] == x;
      }
    }
    b
  }

  /** A group of `groupby([pd.Grouper(freq='M'), 'symbol'])`. */
  datatype GroupKey = GroupKey(year: TimestampYear, month: Month, symbol: string)

  function KeyOf(x: Binned): GroupKey {
    GroupKey(x.row.date.value.year, x.row.date.value.month, x.row.symbol.value)
  }

  function KeysOf(binned: seq<Binned>): (keys: seq<GroupKey>)
    ensures |keys| == |binned|
    ensures forall i :: 0 <= i < |binned| ==> keys[i] == KeyOf(binned[i])
  {
    seq(|binned|, i requires 0 <= i < |binned| => KeyOf(binned[i]))
  }

  /** The index label pandas gives the month: its last day. */
  function MonthLabel(k: GroupKey): Day {
    MonthEnd(k.year, k.month)
  }

  predicate SameMonth(a: GroupKey, b: GroupKey) {
    a.year == b.year && a.month == b.month
  }

  /** Months counted from year 0, so that later months have larger numbers. */
  function MonthNumber(k: GroupKey): int {
    k.year * 12 + k.month
  }

  /** The order of the grouped index: by month, then by symbol as Python compares strings. */
  function KeyOrder(a: GroupKey, b: GroupKey): real {
    if MonthNumber(a) != MonthNumber(b) then (MonthNumber(a) - MonthNumber(b)) as real
    else CompareStrings(a.symbol, b.symbol) as real
  }

  /** Only a key compares equal to itself, and the key order is antisymmetric. */
  lemma KeyOrderZero(a: GroupKey, b: GroupKey)
    ensures KeyOrder(a, b) == 0.0 <==> a == b
    ensures KeyOrder(b, a) == -KeyOrder(a, b)
  {
    CompareZeroIffEqual(a.symbol, b.symbol);
    CompareAntisymmetric(a.symbol, b.symbol);
  }

  /** The key order is a total preorder, so the sort orders the keys completely. */
  lemma KeyOrderConsistent(u: seq<GroupKey>)
    ensures ConsistentOn(KeyOrder, u)
  {
    forall a, b | a in u && b in u ensures KeyOrder(a, b) <= 0.0 || KeyOrder(b, a) <= 0.0 {
      KeyOrderZero(a, b);
    }
    forall a, b, c | a in u && b in u && c in u && KeyOrder(a, b) <= 0.0 && KeyOrder(b, c) <= 0.0
      ensures KeyOrder(a, c) <= 0.0
    {
      if MonthNumber(a) == MonthNumber(b) == MonthNumber(c) {
        CompareTransitive(a.symbol, b.symbol, c.symbol);
      }
    }
  }

  /** The groups that have rows, each once, in the order of the grouped index. */
  function GroupKeys(binned: seq<Binned>): (keys: seq<GroupKey>)
    ensures forall k :: k in keys <==> k in KeysOf(binned)
    ensures forall i, j :: 0 <= i < j < |keys| ==> keys[i] != keys[j]
  {
    SortDistinct(KeysOf(binned), KeyOrder);
    Sort(Distinct(KeysOf(binned)), KeyOrder)
  }

  /** A group exists exactly for the months and symbols of the kept rows. */
  lemma GroupKeysOfRows(binned: seq<Binned>, k: GroupKey)
    ensures k in GroupKeys(binned) <==> exists x :: x in binned && KeyOf(x) == k
  {
    var keys := KeysOf(binned);
    if k in keys {
      var i :| 0 <= i < |keys| && keys[i] == k;
      assert binned[i] in binned;
    }
    if exists x :: x in binned && KeyOf(x) == k {
      var x :| x in binned && KeyOf(x) == k;
      var i :| 0 <= i < |binned| && binned[i] == x;
      assert keys[i] == k;
    }
  }

  /** The groups come strictly in the order of the index: by month, then alphabetically by symbol. */
  lemma GroupKeysAscending(binned: seq<Binned>)
    ensures forall i, j :: 0 <= i < j < |GroupKeys(binned)| ==> KeyOrder(GroupKeys(binned)[i], GroupKeys(binned)[j]) < 0.0
  {
    var u := Distinct(KeysOf(binned));
    var keys := GroupKeys(binned);
    KeyOrderConsistent(u);
    SortSorted(u, KeyOrder);
    forall i, j | 0 <= i < j < |keys| ensures KeyOrder(keys[i], keys[j]) < 0.0 {
      KeyOrderZero(keys[i], keys[j]);
    }
  }

  function MemberOf(k: GroupKey): Binned -> bool {
    (x: Binned) => KeyOf(x) == k
  }

  /** The engagement ratios of a group's rows, in row order. */
  function RatiosOf(binned: seq<Binned>, k: GroupKey): (r: seq<real>)
    ensures |r| == |Filter(binned, MemberOf(k))|
    ensures forall i :: 0 <= i < |r| ==> r[i] == Filter(binned, MemberOf(k))[i].ratio
  {
    var members := Filter(binned, MemberOf(k));
    seq(|members|, i requires 0 <= i < |members| => members[i].ratio)
  }

  lemma GroupNonEmpty(binned: seq<Binned>, k: GroupKey)
    requires k in KeysOf(binned)
    ensures |RatiosOf(binned, k)| > 0
  {
    var keys := KeysOf(binned);
    var i :| 0 <= i < |keys| && keys[i] == k;
    assert binned[i] in Filter(binned, MemberOf(k));
  }

  /** A group and the mean engagement_ratio of its rows. */
  datatype Averaged = Averaged(key: GroupKey, engagement: real)

  /** `.mean()` of each group, in index order. */
  function Averages(binned: seq<Binned>): (av: seq<Averaged>)
    ensures |av| == |GroupKeys(binned)|
    ensures forall i :: 0 <= i < |av| ==>
      av[i].key == GroupKeys(binned)[i] && Mean(RatiosOf(binned, av[i].key)) == Some(av[i].engagement)
  {
    var keys := GroupKeys(binned);
    seq(|keys|, i requires 0 <= i < |keys| =>
      GroupNonEmpty(binned, keys[i]);
      Averaged(keys[i], MeanOf(RatiosOf(binned, keys[i]))))
  }

  /** A group's mean lies between the least and the greatest ratio of its rows. */
  lemma GroupMeanBounds(binned: seq<Binned>, i: nat, lo: real, hi: real)
    requires i < |Averages(binned)|
    requires forall x :: x in binned && KeyOf(x) == Averages(binned)[i].key ==> lo <= x.ratio <= hi
    ensures lo <= Averages(binned)[i].engagement <= hi
  {
    var a := Averages(binned)[i];
    var rs := RatiosOf(binned, a.key);
    var members := Filter(binned, MemberOf(a.key));
    forall j | 0 <= j < |rs| ensures lo <= rs[j] <= hi {
      assert members[j] in members;
    }
    MeanBounds(rs, lo, hi);
  }

  // ---------------------------------------------------------------------------
  // aggregate: the rank within the month

  function Above(a: Averaged): Averaged -> bool {
    (x: Averaged) => SameMonth(x.key, a.key) && x.engagement > a.engagement
  }

  function Level(a: Averaged): Averaged -> bool {
    (x: Averaged) => SameMonth(x.key, a.key) && x.engagement == a.engagement
  }

  /**
   * `x.rank(ascending=False)` within a's month: groups above a take the first
   * places, and a shares the average of the places of its level.
   */
  function AverageRank(av: seq<Averaged>, a: Averaged): (r: real)
    ensures a in av ==> r >= 1.0
    ensures |Filter(av, Level(a))| == 1 ==> r == |Filter(av, Above(a))| as real + 1.0
  {
    |Filter(av, Above(a))| as real + (|Filter(av, Level(a))| as real + 1.0) / 2.0
  }

  /** A group of the aggregated frame: its mean engagement and its rank in the month. */
  datatype Group = Group(key: GroupKey, engagement: real, rank: real)

  function Aggregate(binned: seq<Binned>): (g: seq<Group>)
    ensures |g| == |Averages(binned)|
    ensures forall i :: 0 <= i < |g| ==>
      g[i] == Group(Averages(binned)[i].key, Averages(binned)[i].engagement, AverageRank(Averages(binned), Averages(binned)[i]))
  {
    var av := Averages(binned);
    seq(|av|, i requires 0 <= i < |av| => Group(av[i].key, av[i].engagement, AverageRank(av, av[i])))
  }

  /** No two groups of the given month share a mean. */
  predicate NoTiesIn(g: seq<Group>, year: int, month: int) {
    forall i, j ::
      0 <= i < |g| && 0 <= j < |g| && i != j &&
      g[i].key.year == year && g[i].key.month == month && g[j].key.year == year && g[j].key.month == month
      ==> g[i].engagement != g[j].engagement
  }

  /** The averaged groups are pairwise distinct, their keys being so. */
  lemma AveragesDistinct(binned: seq<Binned>)
    ensures forall i, j :: 0 <= i < |Averages(binned)| && 0 <= j < |Averages(binned)| && i != j ==>
      Averages(binned)[i] != Averages(binned)[j]
  {
    var av, keys := Averages(binned), GroupKeys(binned);
    forall i, j | 0 <= i < |av| && 0 <= j < |av| && i != j ensures av[i] != av[j] {
      if i < j {
        assert keys[i] != keys[j];
      } else {
        assert keys[j] != keys[i];
      }
    }
  }

  /** A group's own level counts at least itself. */
  lemma LevelAtLeastOne(av: seq<Averaged>, i: nat)
    requires i < |av|
    ensures |Filter(av, Level(av[i]))| >= 1
  {
    assert av[i] in Filter(av, Level(av[i]));
  }

  /** Every rank is at least 1 and at most the number of groups in the month. */
  lemma RankBounds(binned: seq<Binned>, i: nat)
    requires i < |Aggregate(binned)|
    ensures 1.0 <= Aggregate(binned)[i].rank <= |Filter(Averages(binned), InMonthOf(Averages(binned)[i]))| as real
  {
    var av := Averages(binned);
    var a := av[i];
    LevelAtLeastOne(av, i);
    FilterDisjoint(av, Above(a), Level(a), AtLeast(a));
    FilterMono(av, AtLeast(a), InMonthOf(a));
  }

  function AtLeast(a: Averaged): Averaged -> bool {
    (x: Averaged) => SameMonth(x.key, a.key) && x.engagement >= a.engagement
  }

  function InMonthOf(a: Averaged): Averaged -> bool {
    (x: Averaged) => SameMonth(x.key, a.key)
  }

  /** Within a month, a higher mean engagement is exactly a smaller (better) rank. */
  lemma RankOrder(binned: seq<Binned>, i: nat, j: nat)
    requires i < |Aggregate(binned)| && j < |Aggregate(binned)|
    requires SameMonth(Aggregate(binned)[i].key, Aggregate(binned)[j].key)
    ensures Aggregate(binned)[i].engagement > Aggregate(binned)[j].engagement <==>
      Aggregate(binned)[i].rank < Aggregate(binned)[j].rank
    ensures Aggregate(binned)[i].engagement == Aggregate(binned)[j].engagement ==>
      Aggregate(binned)[i].rank == Aggregate(binned)[j].rank
  {
    var av := Averages(binned);
    var a, b := av[i], av[j];
    LevelAtLeastOne(av, i);
    LevelAtLeastOne(av, j);
    if a.engagement > b.engagement {
      RankStep(av, a, b);
    } else if b.engagement > a.engagement {
      RankStep(av, b, a);
    } else {
      FilterMono(av, Above(a), Above(b));
      FilterMono(av, Above(b), Above(a));
      FilterMono(av, Level(a), Level(b));
      FilterMono(av, Level(b), Level(a));
    }
  }

  lemma RankStep(av: seq<Averaged>, a: Averaged, b: Averaged)
    requires SameMonth(a.key, b.key) && a.engagement > b.engagement
    requires |Filter(av, Level(a))| >= 1 && |Filter(av, Level(b))| >= 1
    ensures AverageRank(av, a) < AverageRank(av, b)
  {
    FilterDisjoint(av, Above(a), Level(a), AtLeast(a));
    FilterMono(av, AtLeast(a), Above(b));
  }

  /** A group whose mean is above every other group of its month is ranked 1. */
  lemma TopRankIsOne(binned: seq<Binned>, i: nat)
    requires i < |Aggregate(binned)|
    requires forall j :: 0 <= j < |Aggregate(binned)| && j != i && SameMonth(Aggregate(binned)[j].key, Aggregate(binned)[i].key) ==>
      Aggregate(binned)[j].engagement < Aggregate(binned)[i].engagement
    ensures Aggregate(binned)[i].rank == 1.0
  {
    var av, g := Averages(binned), Aggregate(binned);
    forall j | 0 <= j < |av| && j != i && SameMonth(av[j].key, av[i].key) ensures av[j].engagement < av[i].engagement {
      assert g[j].key == av[j].key && g[j].engagement == av[j].engagement;
    }
    TopOfMonth(av, i);
  }

  lemma TopOfMonth(av: seq<Averaged>, i: nat)
    requires i < |av|
    requires forall j :: 0 <= j < |av| && j != i && SameMonth(av[j].key, av[i].key) ==> av[j].engagement < av[i].engagement
    ensures AverageRank(av, av[i]) == 1.0
  {
    var a := av[i];
    forall x | x in av ensures !Above(a)(x) {
      var j :| 0 <= j < |av| && av[j] == x;
    }
    FilterNone(av, Above(a));
    FilterSingle(av, Level(a), i);
  }

  /** Without ties a group's rank is one more than the number of groups of its month above it. */
  lemma RankWithoutTies(binned: seq<Binned>, i: nat)
    requires i < |Aggregate(binned)| && NoTiesIn(Aggregate(binned), Aggregate(binned)[i].key.year, Aggregate(binned)[i].key.month)
    ensures Aggregate(binned)[i].rank == |Filter(Averages(binned), Above(Averages(binned)[i]))| as real + 1.0
  {
    var av := Averages(binned);
    var g := Aggregate(binned);
    forall j | 0 <= j < |av| && j != i ensures !Level(av[i])(av[j]) {
      assert g[j].engagement == av[j].engagement && g[i].engagement == av[i].engagement;
    }
    FilterSingle(av, Level(av[i]), i);
  }

  // ---------------------------------------------------------------------------
  // select_top_5

  predicate IsSelected(g: Group) {
    g.rank < 6.0
  }

  /** `aggregated_df[aggregated_df['rank'] < 6]`: the groups ranked below 6, in index order. */
  function SelectTop5(groups: seq<Group>): (r: seq<Group>)
    ensures forall x :: x in r <==> x in groups && x.rank < 6.0
    ensures |r| <= |groups|
  {
    Filter(groups, IsSelected)
  }

  /** Without ties a group is kept exactly when fewer than five groups of its month have a higher mean. */
  lemma SelectedIffTopFive(binned: seq<Binned>, i: nat)
    requires i < |Aggregate(binned)| && NoTiesIn(Aggregate(binned), Aggregate(binned)[i].key.year, Aggregate(binned)[i].key.month)
    ensures Aggregate(binned)[i] in SelectTop5(Aggregate(binned)) <==>
      |Filter(Averages(binned), Above(Averages(binned)[i]))| < 5
  {
    RankWithoutTies(binned, i);
  }

  function InMonth(year: int, month: int): Group -> bool {
    (g: Group) => g.key.year == year && g.key.month == month
  }

  function SelectedInMonth(year: int, month: int): Group -> bool {
    (g: Group) => g.rank < 6.0 && g.key.year == year && g.key.month == month
  }

  /** The position of a lowest mean among the groups satisfying p. */
  lemma {:induction false} Lowest(g: seq<Group>, p: Group -> bool) returns (i: nat)
    requires exists j :: 0 <= j < |g| && p(g[j])
    ensures i < |g| && p(g[i])
    ensures forall j :: 0 <= j < |g| && p(g[j]) ==> g[i].engagement <= g[j].engagement
    decreases |g|
  {
    var n := |g| - 1;
    if exists j :: 0 <= j < n && p(g[j]) {
      var h := g[..n];
      assert forall j :: 0 <= j < n ==> h[j] == g[j];
      var k := Lowest(h, p);
      if p(g[n]) && g[n].engagement < g[k].engagement {
        i := n;
      } else {
        i := k;
      }
    } else {
      i := n;
    }
  }

  function Other(a: Group, year: int, month: int): Group -> bool {
    (x: Group) => x.rank < 6.0 && x.key.year == year && x.key.month == month && x != a
  }

  function Is(a: Group): Group -> bool {
    (x: Group) => x == a
  }

  function AboveGroup(a: Group): Group -> bool {
    (x: Group) => SameMonth(x.key, a.key) && x.engagement > a.engagement
  }

  /** Without ties at most five groups of any month are kept (ties at the cut can let more through). */
  lemma AtMostFivePerMonth(binned: seq<Binned>, year: int, month: int)
    requires NoTiesIn(Aggregate(binned), year, month)
    ensures |Filter(SelectTop5(Aggregate(binned)), InMonth(year, month))| <= 5
  {
    AggregateRanked(binned);
    FiveAtMostSelected(Aggregate(binned), Averages(binned), year, month);
  }

  lemma FiveAtMostSelected(g: seq<Group>, av: seq<Averaged>, year: int, month: int)
    requires Ranked(g, av) && NoTiesIn(g, year, month)
    requires forall i, j :: 0 <= i < |g| && 0 <= j < |g| && i != j ==> g[i] != g[j]
    ensures |Filter(SelectTop5(g), InMonth(year, month))| <= 5
  {
    FilterFilter(g, IsSelected, InMonth(year, month), SelectedInMonth(year, month));
    FiveAtMost(g, av, year, month);
  }

  /** g carries the keys, means and average ranks of av, position by position. */
  predicate Ranked(g: seq<Group>, av: seq<Averaged>) {
    |g| == |av| &&
    forall i :: 0 <= i < |g| ==>
      g[i].key == av[i].key && g[i].engagement == av[i].engagement && g[i].rank == AverageRank(av, av[i])
  }

  lemma AggregateRanked(binned: seq<Binned>)
    ensures Ranked(Aggregate(binned), Averages(binned))
    ensures forall i, j :: 0 <= i < |Aggregate(binned)| && 0 <= j < |Aggregate(binned)| && i != j ==>
      Aggregate(binned)[i] != Aggregate(binned)[j]
  {
    var g, keys := Aggregate(binned), GroupKeys(binned);
    forall i, j | 0 <= i < |g| && 0 <= j < |g| && i != j ensures g[i] != g[j] {
      if i < j {
        assert keys[i] != keys[j];
      } else {
        assert keys[j] != keys[i];
      }
    }
  }

  lemma FiveAtMost(g: seq<Group>, av: seq<Averaged>, year: int, month: int)
    requires Ranked(g, av) && NoTiesIn(g, year, month)
    requires forall i, j :: 0 <= i < |g| && 0 <= j < |g| && i != j ==> g[i] != g[j]
    ensures |Filter(g, SelectedInMonth(year, month))| <= 5
  {
    var kept := Filter(g, SelectedInMonth(year, month));
    if |kept| > 0 {
      assert kept[0] in kept;
      var i := Lowest(g, SelectedInMonth(year, month));
      var a := g[i];
      FilterDisjoint(g, Other(a, year, month), Is(a), SelectedInMonth(year, month));
      FilterSingle(g, Is(a), i);
      OthersAbove(g, i, year, month);
      FilterMono(g, Other(a, year, month), AboveGroup(a));
      var above := |Filter(g, AboveGroup(a))|;
      assert above < 5 by {
        AboveCount(g, av, i);
        LevelAtLeastOne(av, i);
      }
    }
  }

  /** The other kept groups of the month of a lowest kept group are all above it. */
  lemma OthersAbove(g: seq<Group>, i: nat, year: int, month: int)
    requires NoTiesIn(g, year, month)
    requires forall i, j :: 0 <= i < |g| && 0 <= j < |g| && i != j ==> g[i] != g[j]
    requires i < |g| && SelectedInMonth(year, month)(g[i])
    requires forall j :: 0 <= j < |g| && SelectedInMonth(year, month)(g[j]) ==> g[i].engagement <= g[j].engagement
    ensures forall x :: x in g && Other(g[i], year, month)(x) ==> AboveGroup(g[i])(x)
  {
    forall x | x in g && Other(g[i], year, month)(x) ensures AboveGroup(g[i])(x) {
      var j :| 0 <= j < |g| && g[j] == x;
      assert j != i;
    }
  }

  /** The groups above g[i] are as many as the averaged groups above av[i]. */
  lemma AboveCount(g: seq<Group>, av: seq<Averaged>, i: nat)
    requires Ranked(g, av) && i < |g|
    ensures |Filter(g, AboveGroup(g[i]))| == |Filter(av, Above(av[i]))|
  {
    FilterCorresponding(g, av, AboveGroup(g[i]), Above(av[i]));
  }

  /** The date a kept group is given: the first day of the month after its own. */
  function PeriodStart(k: GroupKey): (d: Day)
    ensures ValidDay(d) && 1677 <= d.year <= 2263 && d.day == 1
  {
    FirstOfNextMonth(k.year, k.month)
  }

  /** `index + pd.DateOffset(1)`: PeriodStart is the day after the month's label. */
  lemma PeriodStartIsDayAfterLabel(k: GroupKey)
    ensures PeriodStart(k) == AddDays(MonthLabel(k), 1)
  {
    MonthEndNextDay(k.year, k.month);
  }

  /** Distinct months start on distinct days. */
  lemma PeriodStartInjective(a: GroupKey, b: GroupKey)
    requires PeriodStart(a) == PeriodStart(b)
    ensures SameMonth(a, b)
  {
  }

  // ---------------------------------------------------------------------------
  // extract_stocks_by_date

  function StartsOn(d: Day): Group -> bool {
    (g: Group) => PeriodStart(g.key) == d
  }

  /** `filtered_df.xs(d, level=0).index.tolist()`: the symbols dated d, in index order. */
  function SymbolsOn(selected: seq<Group>, d: Day): (r: seq<string>)
    ensures |r| == |Filter(selected, StartsOn(d))|
    ensures forall i :: 0 <= i < |r| ==> r[i] == Filter(selected, StartsOn(d))[i].key.symbol
  {
    var rows := Filter(selected, StartsOn(d));
    seq(|rows|, i requires 0 <= i < |rows| => rows[i].key.symbol)
  }

  /** The date of every kept row, in order. */
  function StartDates(selected: seq<Group>): (r: seq<Day>)
    ensures |r| == |selected|
    ensures forall i :: 0 <= i < |r| ==> r[i] == PeriodStart(selected[i].key)
    ensures forall d :: d in r ==> ValidDay(d) && 1677 <= d.year <= 2263
  {
    assert forall i :: 0 <= i < |selected| ==> ValidDay(PeriodStart(selected[i].key));
    seq(|selected|, i requires 0 <= i < |selected| => PeriodStart(selected[i].key))
  }

  /** A key function that gives distinct dates distinct keys. */
  predicate InjectiveOn(key: Day -> string, dates: seq<Day>) {
    forall j, k :: 0 <= j < k < |dates| ==> key(dates[j]) != key(dates[k])
  }

  /** `d.strftime('%Y-%m-%d')` writes distinct days of four-digit years as distinct texts. */
  lemma IsoDatesDistinct(dates: seq<Day>)
    requires forall d :: d in dates ==> ValidDay(d) && 1677 <= d.year <= 2263
    requires forall j, k :: 0 <= j < k < |dates| ==> dates[j] != dates[k]
    ensures InjectiveOn(IsoDate, dates)
  {
    forall j, k | 0 <= j < k < |dates| ensures IsoDate(dates[j]) != IsoDate(dates[k]) {
      assert dates[j] in dates && dates[k] in dates;
      if IsoDate(dates[j]) == IsoDate(dates[k]) {
        IsoDateInjective(dates[j], dates[k]);
      }
    }
  }

  function SymbolsOf(selected: seq<Group>): Day -> seq<string> {
    (d: Day) => SymbolsOn(selected, d)
  }

  /**
   * `fixed_dates` as extract_stocks_by_date leaves it: one entry per date of
   * the kept rows, under key(date), holding val(date); here the key is the
   * date's text and the value the symbols of that date in index order.
   */
  predicate PortfolioOf(fixedDates: map<string, seq<string>>, selected: seq<Group>, key: Day -> string, val: Day -> seq<string>) {
    fixedDates.Keys == (set g | g in selected :: key(PeriodStart(g.key))) &&
    (forall g :: g in selected ==> fixedDates[key(PeriodStart(g.key))] == val(PeriodStart(g.key))) &&
    |fixedDates| == |set g | g in selected :: PeriodStart(g.key)|
  }

  /** `for d in ds: m[key(d)] = val(d)` from an empty dict: a later date overwrites an earlier one under the same key. */
  function DictOf(ds: seq<Day>, key: Day -> string, val: Day -> seq<string>): (m: map<string, seq<string>>)
    ensures |ds| > 0 ==> key(ds[|ds| - 1]) in m && m[key(ds[|ds| - 1])] == val(ds[|ds| - 1])
  {
    if |ds| == 0 then map[]
    else DictOf(ds[..|ds| - 1], key, val)[key(ds[|ds| - 1]) := val(ds[|ds| - 1])]
  }

  /** One more iteration is one more assignment. */
  lemma DictStep(ds: seq<Day>, i: nat, key: Day -> string, val: Day -> seq<string>)
    requires i < |ds|
    ensures DictOf(ds[..i + 1], key, val) == DictOf(ds[..i], key, val)[key(ds[i]) := val(ds[i])]
  {
    assert ds[..i + 1][..i] == ds[..i];
  }

  /** The dict has a key for every date and for nothing else. */
  lemma {:induction false} DictOfKeys(ds: seq<Day>, key: Day -> string, val: Day -> seq<string>)
    ensures DictOf(ds, key, val).Keys == set d | d in ds :: key(d)
  {
    if |ds| > 0 {
      var p := ds[..|ds| - 1];
      DictOfKeys(p, key, val);
      assert ds == p + [ds[|ds| - 1]];
      assert (set d | d in ds :: key(d)) == (set d | d in p :: key(d)) + {key(ds[|ds| - 1])};
    }
  }

  /** With distinct keys no assignment is overwritten: one entry per date. */
  lemma {:induction false} DictOfSize(ds: seq<Day>, key: Day -> string, val: Day -> seq<string>)
    requires InjectiveOn(key, ds)
    ensures |DictOf(ds, key, val)| == |ds|
  {
    if |ds| > 0 {
      var p := ds[..|ds| - 1];
      assert InjectiveOn(key, p);
      DictOfSize(p, key, val);
      DictOfKeys(p, key, val);
      assert key(ds[|ds| - 1]) !in DictOf(p, key, val) by {
        forall d | d in p ensures key(d) != key(ds[|ds| - 1]) {
          var j :| 0 <= j < |p| && p[j] == d;
        }
      }
    }
  }

  /** With distinct keys every date's entry holds that date's value. */
  lemma {:induction false} DictOfValues(ds: seq<Day>, key: Day -> string, val: Day -> seq<string>)
    requires InjectiveOn(key, ds)
    ensures forall j :: 0 <= j < |ds| ==> key(ds[j]) in DictOf(ds, key, val) && DictOf(ds, key, val)[key(ds[j])] == val(ds[j])
  {
    if |ds| > 0 {
      var p := ds[..|ds| - 1];
      assert InjectiveOn(key, p);
      DictOfValues(p, key, val);
      forall j | 0 <= j < |ds| ensures key(ds[j]) in DictOf(ds, key, val) && DictOf(ds, key, val)[key(ds[j])] == val(ds[j]) {
        if j < |p| {
          assert p[j] == ds[j];
        }
      }
    }
  }

  /** extract_stocks_by_date: one assignment per distinct date of the kept rows, in order of first appearance. */
  method ExtractStocksByDate(selected: seq<Group>) returns (fixedDates: map<string, seq<string>>)
    ensures fixedDates == DictOf(Distinct(StartDates(selected)), IsoDate, SymbolsOf(selected))
    ensures PortfolioOf(fixedDates, selected, IsoDate, SymbolsOf(selected))
  {
    var dates := Distinct(StartDates(selected));
    fixedDates := map[];
    var i := 0;
    while i < |dates|
      invariant i <= |dates| && fixedDates == DictOf(dates[..i], IsoDate, SymbolsOf(selected))
    {
      DictStep(dates, i, IsoDate, SymbolsOf(selected));
      fixedDates := fixedDates[IsoDate(dates[i]) := SymbolsOn(selected, dates[i])];
      i := i + 1;
    }
    assert dates[..|dates|] == dates;
    IsoDatePortfolio(selected);
  }

  /** Keyed by the dates' texts, the dictionary of the distinct dates is the portfolio of the kept rows. */
  lemma IsoDatePortfolio(selected: seq<Group>)
    ensures PortfolioOf(DictOf(Distinct(StartDates(selected)), IsoDate, SymbolsOf(selected)), selected, IsoDate, SymbolsOf(selected))
  {
    IsoDatesDistinct(Distinct(StartDates(selected)));
    DatesPortfolio(selected, IsoDate, SymbolsOf(selected));
  }

  /** Filing every distinct date under an injective key gives the portfolio of the kept rows. */
  lemma DatesPortfolio(selected: seq<Group>, key: Day -> string, val: Day -> seq<string>)
    requires InjectiveOn(key, Distinct(StartDates(selected)))
    ensures PortfolioOf(DictOf(Distinct(StartDates(selected)), key, val), selected, key, val)
  {
    var starts := StartDates(selected);
    var dates := Distinct(starts);
    DictOfKeys(dates, key, val);
    DictOfSize(dates, key, val);
    DictValuesOfSelected(selected, key, val);
    StartsOfSelected(selected);
    DistinctLength(starts);
    DateKeys(selected, key);
  }

  /** The set of dates of the kept rows. */
  lemma StartsOfSelected(selected: seq<Group>)
    ensures (set d | d in StartDates(selected)) == set g | g in selected :: PeriodStart(g.key)
  {
    var starts := StartDates(selected);
    forall d | d in starts ensures d in set g | g in selected :: PeriodStart(g.key) {
      var k :| 0 <= k < |starts| && starts[k] == d;
      assert selected[k] in selected;
    }
    forall g | g in selected ensures PeriodStart(g.key) in starts {
      var k :| 0 <= k < |selected| && selected[k] == g;
      assert starts[k] == PeriodStart(g.key);
    }
  }

  /** The keys of the distinct dates are the keys of the kept rows' dates. */
  lemma DateKeys(selected: seq<Group>, key: Day -> string)
    ensures (set d | d in Distinct(StartDates(selected)) :: key(d)) == set g | g in selected :: key(PeriodStart(g.key))
  {
    var dates := Distinct(StartDates(selected));
    forall d | d in dates ensures exists g :: g in selected && StartOf(g) == d {
      var k :| 0 <= k < |selected| && StartDates(selected)[k] == d;
      assert selected[k] in selected;
    }
    forall g | g in selected ensures StartOf(g) in dates {
      var k :| 0 <= k < |selected| && selected[k] == g;
      assert StartDates(selected)[k] in StartDates(selected);
    }
    KeysOfImage(Distinct(StartDates(selected)), selected, StartOf, key);
  }

  function StartOf(g: Group): Day {
    PeriodStart(g.key)
  }

  /** Keying the image of a sequence under at is keying each element's image. */
  lemma KeysOfImage(dates: seq<Day>, selected: seq<Group>, at: Group -> Day, key: Day -> string)
    requires forall d :: d in dates ==> exists g :: g in selected && at(g) == d
    requires forall g :: g in selected ==> at(g) in dates
    ensures (set d | d in dates :: key(d)) == set g | g in selected :: key(at(g))
  {
    forall d | d in dates ensures key(d) in set g | g in selected :: key(at(g)) {
      var g :| g in selected && at(g) == d;
    }
  }

  /** Every kept row's date is filed, with the value of that date. */
  lemma DictValuesOfSelected(selected: seq<Group>, key: Day -> string, val: Day -> seq<string>)
    requires InjectiveOn(key, Distinct(StartDates(selected)))
    ensures forall g :: g in selected ==>
      key(PeriodStart(g.key)) in DictOf(Distinct(StartDates(selected)), key, val) &&
      DictOf(Distinct(StartDates(selected)), key, val)[key(PeriodStart(g.key))] == val(PeriodStart(g.key))
  {
    var dates := Distinct(StartDates(selected));
    DictOfValues(dates, key, val);
    StartsOfSelected(selected);
    forall g | g in selected ensures key(PeriodStart(g.key)) in DictOf(dates, key, val) && DictOf(dates, key, val)[key(PeriodStart(g.key))] == val(PeriodStart(g.key)) {
      assert PeriodStart(g.key) in StartDates(selected);
      var j :| 0 <= j < |dates| && dates[j] == PeriodStart(g.key);
    }
  }

  /** Within one date the symbols come in ascending order, as `xs` keeps the order of the index. */
  lemma SymbolsAscending(binned: seq<Binned>, d: Day)
    ensures var syms := SymbolsOn(SelectTop5(Aggregate(binned)), d);
      forall i, j :: 0 <= i < j < |syms| ==> CompareStrings(syms[i], syms[j]) < 0
  {
    var g := Aggregate(binned);
    var keys := GroupKeys(binned);
    GroupKeysAscending(binned);
    assert forall i :: 0 <= i < |g| ==> g[i].key == keys[i];
    var before := (a: Group, b: Group) => KeyOrder(a.key, b.key) < 0.0;
    FilterOrdered(g, IsSelected, before);
    var on := Filter(SelectTop5(g), StartsOn(d));
    FilterOrdered(SelectTop5(g), StartsOn(d), before);
    var syms := SymbolsOn(SelectTop5(g), d);
    forall i, j | 0 <= i < j < |syms| ensures CompareStrings(syms[i], syms[j]) < 0 {
      assert on[i] in on && on[j] in on;
      PeriodStartInjective(on[i].key, on[j].key);
    }
  }

  // ---------------------------------------------------------------------------
  // run_analysis

  /** A record of `top_stocks`: a kept group's date as `%Y-%m-%d`, its symbol, mean engagement and rank. */
  datatype TopStock = TopStock(date: string, symbol: string, engagement: real, rank: real)

  /** `filtered_df.reset_index()` with the dates written out, one record per kept group, in index order. */
  function TopStocks(selected: seq<Group>): (r: seq<TopStock>)
    ensures |r| == |selected|
    ensures forall i :: 0 <= i < |r| ==>
      r[i].symbol == selected[i].key.symbol && r[i].engagement == selected[i].engagement && r[i].rank == selected[i].rank
  {
    seq(|selected|, i requires 0 <= i < |selected| =>
      var g := selected[i];
      TopStock(IsoDate(PeriodStart(g.key)), g.key.symbol, g.engagement, g.rank))
  }

  /** Every record's date is a plain `YYYY-MM-DD` text of the day after its month's label. */
  lemma TopStockDates(selected: seq<Group>, i: nat)
    requires i < |selected|
    ensures IsBareDateText(TopStocks(selected)[i].date)
    ensures BareDateOf(TopStocks(selected)[i].date) == AddDays(MonthLabel(selected[i].key), 1)
  {
    IsoDateIsBareDate(PeriodStart(selected[i].key));
    PeriodStartIsDayAfterLabel(selected[i].key);
  }

  /** Every record's date is a key of the portfolio, and its symbol is listed under it. */
  lemma TopStocksInPortfolio(selected: seq<Group>, fixedDates: map<string, seq<string>>, i: nat)
    requires PortfolioOf(fixedDates, selected, IsoDate, SymbolsOf(selected))
    requires i < |selected|
    ensures TopStocks(selected)[i].date in fixedDates
    ensures TopStocks(selected)[i].symbol in fixedDates[TopStocks(selected)[i].date]
  {
    var g := selected[i];
    var d := PeriodStart(g.key);
    assert g in selected;
    var on := Filter(selected, StartsOn(d));
    assert g in on;
    var k :| 0 <= k < |on| && on[k] == g;
    assert SymbolsOn(selected, d)[k] == g.key.symbol;
  }

  /** The symbol of every kept row, in order; None is NaN. */
  function RowSymbols(loaded: seq<Rated>): (r: seq<Option<string>>)
    ensures |r| == |loaded|
    ensures forall i :: 0 <= i < |r| ==> r[i] == loaded[i].row.symbol
  {
    seq(|loaded|, i requires 0 <= i < |loaded| => loaded[i].row.symbol)
  }

  /**
   * `index.get_level_values('symbol').unique()`: each symbol of the kept rows
   * once, in order of first appearance. NaN is among them when a kept row has
   * no symbol, as `unique` keeps NaN.
   */
  function Tickers(loaded: seq<Rated>): (t: seq<Option<string>>)
    ensures forall s :: s in t <==> exists x :: x in loaded && x.row.symbol == s
    ensures forall i, j :: 0 <= i < j < |t| ==> t[i] != t[j]
  {
    var syms := RowSymbols(loaded);
    forall s | s in syms ensures exists x :: x in loaded && x.row.symbol == s {
      var k :| 0 <= k < |syms| && syms[k] == s;
      assert loaded[k] in loaded;
    }
    forall x | x in loaded ensures x.row.symbol in syms {
      var k :| 0 <= k < |loaded| && loaded[k] == x;
      assert syms[k] == x.row.symbol;
    }
    Distinct(syms)
  }

  /** `num_tickers` counts the distinct symbols of the rows with more than 20 likes and more than 10 comments. */
  lemma TickerCount(rows: seq<SentimentRow>)
    ensures |Tickers(LoadSentimentData(rows))| == |set row | row in rows && Engaged(row) :: row.symbol|
  {
    var loaded := LoadSentimentData(rows);
    var syms := RowSymbols(loaded);
    DistinctLength(syms);
    assert (set s | s in syms) == set row | row in rows && Engaged(row) :: row.symbol by {
      forall s | s in syms ensures s in set row | row in rows && Engaged(row) :: row.symbol {
        var k :| 0 <= k < |syms| && syms[k] == s;
        assert loaded[k] in loaded;
        LoadedRows(rows, loaded[k].row);
      }
      forall row | row in rows && Engaged(row) ensures row.symbol in syms {
        LoadedRows(rows, row);
        var x :| x in loaded && x.row == row;
        var k :| 0 <= k < |loaded| && loaded[k] == x;
        assert syms[k] == row.symbol;
      }
    }
  }

  datatype Metadata = Metadata(period: string, numTickers: nat, numPeriods: nat)

  /**
   * What run_analysis returns, with the portfolio that the returns
   * computation receives in place of the returns themselves.
   */
  datatype Analysis = Analysis(fixedDates: map<string, seq<string>>, topStocks: seq<TopStock>, metadata: Metadata)

  /** The groups select_top_5 keeps from the rows. */
  function Selection(rows: seq<SentimentRow>): seq<Group> {
    SelectTop5(Aggregate(BinnedRows(LoadSentimentData(rows))))
  }

  /** Every symbol of a group is counted in `tickers`. */
  lemma GroupSymbolsAreTickers(loaded: seq<Rated>, k: GroupKey)
    requires k in GroupKeys(BinnedRows(loaded))
    ensures Some(k.symbol) in Tickers(loaded)
  {
    GroupKeysOfRows(BinnedRows(loaded), k);
  }

  /**
   * The converse fails: a kept row whose date is NaT counts in `num_tickers`
   * but lies in no month, so no group and no portfolio date has its symbol.
   */
  lemma UndatedRowCountsOnlyAsTicker()
    ensures var rows := [SentimentRow(None, Some("AAPL"), Some(30.0), Some(15.0))];
      Aggregate(BinnedRows(LoadSentimentData(rows))) == [] &&
      |set row | row in rows && Engaged(row) :: row.symbol| == 1
  {
    var rows := [SentimentRow(None, Some("AAPL"), Some(30.0), Some(15.0))];
    assert Engaged(rows[0]);
    assert (set row | row in rows && Engaged(row) :: row.symbol) == {Some("AAPL")};
    var loaded := LoadSentimentData(rows);
    assert rows[1..] == [];
    assert Filter(rows, Engaged) == [rows[0]];
    assert !InBin(loaded[0]) && loaded[1..] == [];
    assert Filter(loaded, InBin) == [];
  }

  /**
   * Likewise a kept row with an empty symbol cell: its NaN counts in
   * `num_tickers`, but `groupby` drops the NaN key, so it forms no group.
   */
  lemma UnnamedRowCountsOnlyAsTicker()
    ensures var rows := [SentimentRow(Some(Day(2024, 1, 15)), None, Some(30.0), Some(15.0))];
      Aggregate(BinnedRows(LoadSentimentData(rows))) == [] &&
      |set row | row in rows && Engaged(row) :: row.symbol| == 1
  {
    var rows := [SentimentRow(Some(Day(2024, 1, 15)), None, Some(30.0), Some(15.0))];
    assert Engaged(rows[0]);
    assert (set row | row in rows && Engaged(row) :: row.symbol) == {None};
    var loaded := LoadSentimentData(rows);
    assert rows[1..] == [];
    assert Filter(rows, Engaged) == [rows[0]];
    assert |loaded| == 1 && loaded[0].row == rows[0];
    assert !InBin(loaded[0]) && loaded[1..] == [];
    assert Filter(loaded, InBin) == [];
    assert BinnedRows(loaded) == [];
  }

  /**
   * run_analysis, from the CSV rows; None is the ValueError of
   * `pd.to_datetime` on a date it cannot convert.
   */
  method RunAnalysis(csv: seq<CsvRow>, startDate: string, endDate: string) returns (a: Option<Analysis>)
    ensures a.None? <==> exists i :: 0 <= i < |csv| && csv[i].date.Unreadable?
    ensures a.Some? ==> var rows := ToDatetime(csv).value;
      PortfolioOf(a.value.fixedDates, Selection(rows), IsoDate, SymbolsOf(Selection(rows)))
    ensures a.Some? ==> a.value.topStocks == TopStocks(Selection(ToDatetime(csv).value))
    ensures a.Some? ==> a.value.metadata.period == startDate + " - " + endDate
    ensures a.Some? ==> var rows := ToDatetime(csv).value;
      a.value.metadata.numTickers == |set row | row in rows && Engaged(row) :: row.symbol|
    ensures a.Some? ==> var rows := ToDatetime(csv).value;
      a.value.metadata.numPeriods == |a.value.fixedDates| == |set g | g in Selection(rows) :: PeriodStart(g.key)|
  {
    var parsed := ToDatetime(csv);
    if parsed.None? {
      return None;
    }
    var rows := parsed.value;
    var loaded := LoadSentimentData(rows);
    var aggregated := Aggregate(BinnedRows(loaded));
    var selected := SelectTop5(aggregated);
    var fixedDates := ExtractStocksByDate(selected);
    var tickers := Tickers(loaded);
    TickerCount(rows);
    a := Some(Analysis(fixedDates, TopStocks(selected), Metadata(startDate + " - " + endDate, |tickers|, |fixedDates|)));
  }
}
