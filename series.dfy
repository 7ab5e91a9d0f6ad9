/** The daily rate series and the two LINQ pipelines of the statistics client over it:
    OrderBy(x => x.Date), and the weekly aggregation AggregateWeeklyByIsoWeek, which keeps
    the latest observation of every ISO 8601 week. */
module Series {
  import opened Calendar
  import opened Decimals
  import opened Linq

  /** BanRepSeriesData: one observation of the rate. */
  datatype SeriesData = SeriesData(date: DateOnly, value: Decimal)

  /** The sort key x => x.Date; dates compare as their day numbers. */
  function Key(o: SeriesData): int {
    DayNumber(o.date)
  }

  /** The grouping key d => IsoWeekKey(d.Date). */
  function WeekKey(o: SeriesData): string {
    IsoWeekKey(o.date)
  }

  /** OrderBy(x => x.Date). */
  function SortByDate(s: seq<SeriesData>): (r: seq<SeriesData>)
  {
    OrderBy(s, Key)
  }

  /** AggregateWeeklyByIsoWeek: GroupBy(IsoWeekKey), the latest of each group, by date. */
  function AggregateWeekly(daily: seq<SeriesData>): (weekly: seq<SeriesData>)
  {
    LatestPerGroup(daily, WeekKey, Key)
  }

  /** The sort orders by date, keeps every observation, and keeps observations of the
      same day in their input order. */
  lemma SortByDateSorts(s: seq<SeriesData>)
    ensures forall i, j | 0 <= i < j < |SortByDate(s)| :: Key(SortByDate(s)[i]) <= Key(SortByDate(s)[j])
    ensures multiset(SortByDate(s)) == multiset(s)
    ensures forall n :: WithKey(SortByDate(s), Key, n) == WithKey(s, Key, n)
  {
    OrderBySorts(s, Key);
    forall n
      ensures WithKey(SortByDate(s), Key, n) == WithKey(s, Key, n)
    {
      OrderByIsStable(s, Key, n);
    }
  }

  /** At most one observation per ISO week; each is an input observation and the
      latest-dated one of its week. */
  lemma WeeklyPicksLatest(daily: seq<SeriesData>)
    ensures forall i, j | 0 <= i < j < |AggregateWeekly(daily)| ::
      WeekKey(AggregateWeekly(daily)[i]) != WeekKey(AggregateWeekly(daily)[j])
    ensures forall i | 0 <= i < |AggregateWeekly(daily)| :: AggregateWeekly(daily)[i] in daily
    ensures forall i, j | 0 <= i < |AggregateWeekly(daily)| && 0 <= j < |daily|
      && WeekKey(daily[j]) == WeekKey(AggregateWeekly(daily)[i])
      :: Key(daily[j]) <= Key(AggregateWeekly(daily)[i])
  {
    LatestPerGroupPicksLatest(daily, WeekKey, Key);
  }

  /** Every ISO week of the daily series has its observation in the weekly one. */
  lemma WeeklyCoversEveryWeek(daily: seq<SeriesData>)
    ensures forall j | 0 <= j < |daily| :: WeekKey(daily[j]) in Map(AggregateWeekly(daily), WeekKey)
  {
    LatestPerGroupCoversGroups(daily, WeekKey, Key);
  }

  /** Two observations of one day share their ISO week. */
  lemma SameDaySameWeek()
    ensures forall a: SeriesData, b: SeriesData :: Key(a) == Key(b) ==> WeekKey(a) == WeekKey(b)
  {
    forall a: SeriesData, b: SeriesData | Key(a) == Key(b)
      ensures WeekKey(a) == WeekKey(b)
    {
      IsoWeekIsCalendarWeek(a.date, b.date);
    }
  }

  /** The weekly series has strictly ascending dates. */
  lemma WeeklyStrictlyAscending(daily: seq<SeriesData>)
    ensures forall i, j | 0 <= i < j < |AggregateWeekly(daily)| ::
      Key(AggregateWeekly(daily)[i]) < Key(AggregateWeekly(daily)[j])
  {
    SameDaySameWeek();
    LatestPerGroupStrictlyAscending(daily, WeekKey, Key);
  }

  /** Aggregating a weekly series again returns it unchanged. */
  lemma WeeklyIdempotent(daily: seq<SeriesData>)
    ensures AggregateWeekly(AggregateWeekly(daily)) == AggregateWeekly(daily)
  {
    LatestPerGroupIdempotent(daily, WeekKey, Key);
  }

  /** 2024-12-30, 2024-12-31 and 2025-01-02 share ISO week 2025-W01, 2025-01-07 is in
      2025-W02: whatever the values, the weekly series of observations on these four days
      is the observations of 2025-01-02 and 2025-01-07. */
  lemma WeeklyExample(a: SeriesData, b: SeriesData, c: SeriesData, d: SeriesData)
    requires a.date == Date(2024, 12, 30) && b.date == Date(2024, 12, 31)
    requires c.date == Date(2025, 1, 2) && d.date == Date(2025, 1, 7)
    ensures AggregateWeekly([a, b, c, d]) == [c, d]
  {
    ExampleKeys(a, b, c, d);
    SameDaySameWeek();
    ExampleOutcome([a, b, c, d], a, b, c, d, WeekKey, Key);
  }

  /** The reasoning of WeeklyExample, with the keys as opaque functions: three elements
      of one group and a later one of another group leave the latest of the three and
      the fourth. */
  lemma ExampleOutcome<T>(s: seq<T>, a: T, b: T, c: T, d: T, gkey: T -> string, key: T -> int)
    requires |s| == 4 && s[0] == a && s[1] == b && s[2] == c && s[3] == d
    requires gkey(a) == gkey(b) == gkey(c) != gkey(d)
    requires key(a) < key(b) < key(c) < key(d)
    requires forall x, y :: key(x) == key(y) ==> gkey(x) == gkey(y)
    ensures LatestPerGroup(s, gkey, key) == [c, d]
  {
    var w := LatestPerGroup(s, gkey, key);
    assert DistinctBy(w, gkey) && forall i | 0 <= i < |w| :: w[i] == c || w[i] == d by {
      LatestPerGroupPicksLatest(s, gkey, key);
      OnlyLatest(w, s, a, b, c, d, gkey, key);
    }
    assert gkey(c) in Map(w, gkey) && gkey(d) in Map(w, gkey) by {
      LatestPerGroupCoversGroups(s, gkey, key);
      assert gkey(s[2]) == gkey(c) && gkey(s[3]) == gkey(d);
    }
    assert forall i, j | 0 <= i < j < |w| :: key(w[i]) < key(w[j]) by {
      LatestPerGroupStrictlyAscending(s, gkey, key);
    }
    PairShape(w, c, d, gkey, key);
  }

  /** Elements of [a, b, c, d] that are the latest of their group are c or d. */
  lemma OnlyLatest<T>(w: seq<T>, s: seq<T>, a: T, b: T, c: T, d: T, gkey: T -> string, key: T -> int)
    requires |s| == 4 && s[0] == a && s[1] == b && s[2] == c && s[3] == d
    requires gkey(a) == gkey(b) == gkey(c) && key(a) < key(b) < key(c)
    requires forall i | 0 <= i < |w| :: w[i] in s
    requires forall i, j | 0 <= i < |w| && 0 <= j < |s| && gkey(s[j]) == gkey(w[i]) :: key(s[j]) <= key(w[i])
    ensures forall i | 0 <= i < |w| :: w[i] == c || w[i] == d
  {
    forall i | 0 <= i < |w|
      ensures w[i] == c || w[i] == d
    {
      var k :| 0 <= k < |s| && s[k] == w[i];
      assert gkey(w[i]) == gkey(s[2]) ==> key(s[2]) <= key(w[i]);
    }
  }

  /** A sequence of c's and d's, one per group, covering both groups, in ascending key
      order, is [c, d]. */
  lemma PairShape<T>(w: seq<T>, c: T, d: T, gkey: T -> string, key: T -> int)
    requires gkey(c) != gkey(d) && key(c) < key(d)
    requires forall i | 0 <= i < |w| :: w[i] == c || w[i] == d
    requires DistinctBy(w, gkey)
    requires gkey(c) in Map(w, gkey) && gkey(d) in Map(w, gkey)
    requires forall i, j | 0 <= i < j < |w| :: key(w[i]) < key(w[j])
    ensures w == [c, d]
  {
    var i :| 0 <= i < |w| && Map(w, gkey)[i] == gkey(c);
    var j :| 0 <= j < |w| && Map(w, gkey)[j] == gkey(d);
    assert w[i] == c && w[j] == d;
    assert key(w[i]) < key(w[j]);
    assert 2 <= |w|;
    PairEnds(w, c, d, gkey, key, i, j);
  }

  /** The first and last elements of such a sequence are c and d, and there is no third. */
  lemma PairEnds<T>(w: seq<T>, c: T, d: T, gkey: T -> string, key: T -> int, i: nat, j: nat)
    requires 2 <= |w| && i < |w| && j < |w| && w[i] == c && w[j] == d
    requires gkey(c) != gkey(d) && key(c) < key(d)
    requires forall k | 0 <= k < |w| :: w[k] == c || w[k] == d
    requires DistinctBy(w, gkey)
    requires forall k, l | 0 <= k < l < |w| :: key(w[k]) < key(w[l])
    ensures w == [c, d]
  {
    var first, second, last := w[0], w[1], w[|w| - 1];
    assert first == c;
    assert second == d;
    assert last == d;
  }

  lemma ExampleKeys(a: SeriesData, b: SeriesData, c: SeriesData, d: SeriesData)
    requires a.date == Date(2024, 12, 30) && b.date == Date(2024, 12, 31)
    requires c.date == Date(2025, 1, 2) && d.date == Date(2025, 1, 7)
    ensures WeekKey(a) == WeekKey(b) == WeekKey(c) != WeekKey(d)
    ensures Key(a) < Key(b) < Key(c) < Key(d)
  {
    IsoWeekExamples();
    IsoWeekKeyMatches(a.date, c.date);
    IsoWeekKeyMatches(b.date, c.date);
    IsoWeekKeyMatches(c.date, d.date);
  }
}
