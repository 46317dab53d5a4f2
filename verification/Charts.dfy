/**
 * The timeseries of a database (Timeseries and TimeseriesBySource): the rows their queries return
 * and, whatever wrote to the database, why the merged buckets are those of a raw scan.
 */
module Charts {
  import opened Wrappers
  import opened Generations
  import opened Aggregates
  import opened Rollup
  import opened Columns
  import opened Database
  import opened SplitQuery
  import opened Reports
  import T = TimeBuckets

  /** A timeseries query: the database, the normalized filter, hourly or daily facts, and the parts chosen for them. */
  datatype Ask = Ask(db: Snapshot, f: Filter, hourly: bool, parts: seq<Part>) {

    /** The rollup is in step, and the parts are those of factsSQL. */
    ghost predicate Valid() {
      && InSync(UsageDaily, db) && ValidToken(f)
      && if hourly || f.conversation != "" then parts == [WherePart(hourly)] else Partitions(parts, f)
    }

    /** The sums the query returns for a group of cells. */
    ghost function Sums(keep: Cell -> bool): Measures { FactsTotal(UsageDaily, db, f, parts, keep).sums }

    ghost predicate HasGroup(keep: Cell -> bool) { AnyFact(UsageDaily, db, f, parts, keep) }

    /** The matching generations, scanned. */
    ghost function Scanned(keep: Cell -> bool): Agg { Scan(UsageDaily, db, f, hourly, keep) }

    ghost predicate Matches(id: Id) { id in db.gens && Where(f, db.tokens, db.gens[id]) }

    /** The hour or the day a row's facts belong to. */
    function Time(id: Id): int
      requires id in db.gens
    {
      BucketOf(db.gens[id], hourly)
    }

    /** The cell of the result a row belongs to. */
    function CellOf(id: Id): Cell
      requires id in db.gens
    {
      Cell(BucketOf(db.gens[id], hourly), KeyOf(UsageDaily, db.gens[id]))
    }

    /** The matching generations of a bucket. */
    ghost function RowsIn(b: T.Bucket, start: int): set<Id> {
      set id | id in db.gens && Matches(id) && T.BucketStart(Time(id), b) == start
    }

    /** Those of one source among them. */
    ghost function RowsOfSource(b: T.Bucket, start: int, source: string): set<Id> {
      set id | id in db.gens && Matches(id) && T.BucketStart(Time(id), b) == start && db.gens[id].source == source
    }
  }

  /** The cells of some hours or days, of one bucket, and of some sources at one time. */
  function At(times: set<int>): Cell -> bool { (c: Cell) => c.bucket in times }

  function InBucket(b: T.Bucket, start: int): Cell -> bool { (c: Cell) => T.BucketStart(c.bucket, b) == start }

  function OfSources(time: int, names: set<string>): Cell -> bool {
    (c: Cell) => c.bucket == time && c.key.source in names
  }

  function Times(days: seq<T.DayRow>): set<int> { set i | 0 <= i < |days| :: days[i].start }

  /** SELECT bucket, sums FROM facts GROUP BY bucket ORDER BY bucket. */
  ghost predicate IsTimeQuery(q: Ask, days: seq<T.DayRow>) {
    && (forall i, j :: 0 <= i < j < |days| ==> days[i].start < days[j].start)
    && (forall time :: time in Times(days) <==> q.HasGroup(At({time})))
    && (forall i :: 0 <= i < |days| ==> days[i].sums == q.Sums(At({days[i].start})))
  }

  /** SELECT bucket, source, token sums FROM facts GROUP BY bucket, source. */
  ghost predicate IsSourceQuery(q: Ask, sources: seq<T.SourcePoint>) {
    && T.Distinct(sources)
    && (forall time, source :: (time, source) in T.PairsOf(sources) <==> q.HasGroup(OfSources(time, {source})))
    && (forall j :: 0 <= j < |sources| ==>
          sources[j].tokens == T.TokensOf(q.Sums(OfSources(sources[j].start, {sources[j].source}))))
  }

  lemma SumsAreScanned(q: Ask, keep: Cell -> bool)
    requires q.Valid()
    ensures q.Sums(keep) == q.Scanned(keep).sums
  {
    hide InSync, Partitions, FactsTotal, Scan;
    SplitQueryEqualsScan(UsageDaily, q.db, q.f, q.hourly, q.parts, keep);
  }

  lemma GroupsHaveRows(q: Ask, keep: Cell -> bool)
    requires q.Valid()
    ensures q.HasGroup(keep)
            <==> exists id :: q.Matches(id) && keep(q.CellOf(id))
  {
    hide InSync, Partitions, AnyFact, Where;
    GroupHasRow(UsageDaily, q.db, q.f, q.hourly, q.parts, keep);
    var rows := ScannedRows(UsageDaily, q.db, q.f, q.hourly, keep);
    if id :| id in rows { assert q.Matches(id); }
    if id :| q.Matches(id) && keep(q.CellOf(id)) {
      assert id in rows;
    }
  }

  // The series.

  /** The query has a row for exactly the hours or days with a matching generation. */
  lemma TimeHasRow(q: Ask, days: seq<T.DayRow>, time: int)
    requires q.Valid() && IsTimeQuery(q, days)
    ensures time in Times(days) <==> exists id :: q.Matches(id) && q.Time(id) == time
  {
    hide q.Valid, q.HasGroup, Where, q.Sums;
    GroupsHaveRows(q, At({time}));
  }

  lemma RowHasTime(q: Ask, days: seq<T.DayRow>, id: Id)
    requires q.Valid() && IsTimeQuery(q, days) && q.Matches(id)
    ensures exists i :: 0 <= i < |days| && days[i].start == q.Time(id)
  {
    hide Where;
    TimeHasRow(q, days, q.Time(id));
    assert q.Time(id) in Times(days);
  }

  /** The query's rows are what the merge into buckets expects: in order, and of whole days. */
  lemma TimesAreAscending(q: Ask, days: seq<T.DayRow>, b: T.Bucket)
    requires q.Valid() && IsTimeQuery(q, days) && (b.Week? || b.Month? ==> !q.hourly)
    ensures T.Ascending(days, b)
  {
    hide q.Valid, q.HasGroup, Where, q.Sums;
    forall i | 0 <= i < |days| ensures T.Aligned(days[i].start, b) {
      assert days[i].start in Times(days);
      TimeHasRow(q, days, days[i].start);
      var id :| q.Matches(id) && q.Time(id) == days[i].start;
      WholeDay(q.db.gens[id].timestamp);
    }
  }

  lemma WholeDay(timestamp: nat)
    ensures DayOf(timestamp) % DAY_MS == 0
  {
  }

  lemma {:induction false} TimesScan(q: Ask, days: seq<T.DayRow>, n: nat, b: T.Bucket, start: int)
    requires n <= |days| && forall i, j :: 0 <= i < j < |days| ==> days[i].start < days[j].start
    requires forall i :: 0 <= i < |days| ==> days[i].sums == q.Scanned(At({days[i].start})).sums
    ensures T.SumOf(days[..n], b, start) == q.Scanned(At(T.DaysOf(days, n, b, start))).sums
  {
    hide Scan, T.SumOf, T.BucketStart;
    if n == 0 {
      assert T.DaysOf(days, 0, b, start) == {} && days[..0] == [];
      ScanNothing(UsageDaily, q.db, q.f, q.hourly, At({}));
      T.SumOfEmpty(b, start);
    } else {
      var i := n - 1;
      TimesScan(q, days, i, b, start);
      T.SumOfOne(days, i, b, start);
      var before, after := T.DaysOf(days, i, b, start), T.DaysOf(days, n, b, start);
      if T.BucketStart(days[i].start, b) == start {
        assert after == before + {days[i].start};
        ScanUnion(UsageDaily, q.db, q.f, q.hourly, At(before), At({days[i].start}), At(after));
      } else {
        assert after == before;
        T.PlusZero(T.SumOf(days[..i], b, start));
      }
    }
  }

  lemma BucketScan(q: Ask, days: seq<T.DayRow>, b: T.Bucket, start: int)
    requires q.Valid() && IsTimeQuery(q, days)
    ensures T.SumOf(days, b, start) == q.Scanned(InBucket(b, start)).sums
  {
    hide q.Valid, q.HasGroup, q.Sums, Where, Scan, T.BucketStart, T.SumOf;
    forall i | 0 <= i < |days| ensures days[i].sums == q.Scanned(At({days[i].start})).sums {
      SumsAreScanned(q, At({days[i].start}));
    }
    assert days[..|days|] == days;
    TimesScan(q, days, |days|, b, start);
    forall id | id in q.db.gens && Where(q.f, q.db.tokens, q.db.gens[id])
      ensures q.Time(id) in T.DaysOf(days, |days|, b, start) <==> T.BucketStart(q.Time(id), b) == start
    {
      RowHasTime(q, days, id);
    }
    ScanSame(UsageDaily, q.db, q.f, q.hourly, At(T.DaysOf(days, |days|, b, start)), InBucket(b, start));
  }

  lemma BucketsHaveRows(q: Ask, days: seq<T.DayRow>, b: T.Bucket, start: int)
    requires q.Valid() && IsTimeQuery(q, days)
    ensures start in T.BucketsOf(days, b) <==> q.RowsIn(b, start) != {}
  {
    hide q.Valid, q.Sums, q.HasGroup, Where;
    if start in T.BucketsOf(days, b) {
      var i :| 0 <= i < |days| && T.BucketStart(days[i].start, b) == start;
      assert days[i].start in Times(days);
      TimeHasRow(q, days, days[i].start);
      var id :| q.Matches(id) && q.Time(id) == days[i].start;
      assert id in q.RowsIn(b, start);
    }
    if id :| id in q.RowsIn(b, start) {
      RowHasTime(q, days, id);
      var i :| 0 <= i < |days| && days[i].start == q.Time(id);
      assert T.BucketStart(days[i].start, b) in T.BucketsOf(days, b);
    }
  }

  /** A point shows the sums and counts of the rows' columns, and their cost when one is known. */
  ghost predicate Shows(p: T.Point, gens: Table, rows: set<Id>)
    requires rows <= gens.Keys
  {
    && IsTotalOf(p.counts.(cost := p.costTotal.GetOr(0.0)), gens, rows)
    && (p.costTotal.Some? <==> WithCost(gens, rows) != {})
  }

  lemma BucketTotals(q: Ask, b: T.Bucket, start: int)
    ensures IsTotalOf(q.Scanned(InBucket(b, start)).sums, q.db.gens, q.RowsIn(b, start))
  {
    hide Where, T.BucketStart, IsTotalOf, Scan;
    ScanTotalsColumns(UsageDaily, q.db, q.f, q.hourly, InBucket(b, start));
    assert ScannedRows(UsageDaily, q.db, q.f, q.hourly, InBucket(b, start)) == q.RowsIn(b, start);
  }

  lemma PointShows(p: T.Point, sums: Measures, gens: Table, rows: set<Id>)
    requires rows <= gens.Keys && IsTotalOf(sums, gens, rows)
    requires p.counts == T.Counts(sums) && p.costTotal == if sums.known > 0 then Some(sums.cost) else None
    ensures Shows(p, gens, rows)
  {
    if WithCost(gens, rows) == {} { NoKnownCost(gens, rows); }
    hide Sum, CostSum, CostsFrom, WithCost;
  }

  lemma NoKnownCost(gens: Table, rows: set<Id>)
    requires rows <= gens.Keys && WithCost(gens, rows) == {}
    ensures CostSum(gens, rows) == 0.0
  {
  }

  /**
   * A timeseries of a database in any reachable state, by whatever buckets: they are those with a
   * matching generation, in order, and each shows the sums and counts of its generations' columns,
   * and their known cost.
   */
  lemma SeriesEqualsScan(s: Store, q: Ask, days: seq<T.DayRow>, b: T.Bucket, out: seq<T.Point>)
    requires s.Valid() && q.db == UsageOf(s) && ValidToken(q.f)
    requires if q.hourly || q.f.conversation != "" then q.parts == [WherePart(q.hourly)] else Partitions(q.parts, q.f)
    requires IsTimeQuery(q, days) && T.IsSeries(days, b, out)
    ensures forall k :: 0 <= k < |out| ==> Shows(out[k], s.gens, q.RowsIn(b, out[k].start))
    ensures forall start :: start in T.StartsOf(out) <==> q.RowsIn(b, start) != {}
  {
    StoreInSync(s);
    assert q.Valid();
    hide q.Valid, q.RowsIn, q.Scanned, IsTimeQuery, Partitions, T.SumOf, Shows;
    forall k | 0 <= k < |out| ensures Shows(out[k], s.gens, q.RowsIn(b, out[k].start)) {
      BucketScan(q, days, b, out[k].start);
      BucketTotals(q, b, out[k].start);
      PointShows(out[k], q.Scanned(InBucket(b, out[k].start)).sums, s.gens, q.RowsIn(b, out[k].start));
    }
    forall start { BucketsHaveRows(q, days, b, start); }
  }

  /** A bucket's rows are the matching generations of its span of time. */
  lemma RowsInSpan(q: Ask, b: T.Bucket, start: int, end: int)
    requires (q.hourly <==> b.Hour?) && T.Spans(start, end, b)
    ensures q.RowsIn(b, start) == set id | id in q.db.gens && q.Matches(id) && start <= q.db.gens[id].timestamp < end
  {
    hide Where, T.Spans, T.BucketStart;
    forall id | id in q.db.gens
      ensures T.BucketStart(q.Time(id), b) == start <==> start <= q.db.gens[id].timestamp < end
    {
      T.BucketIsSpan(q.db.gens[id].timestamp, start, end, b);
    }
  }

  // The series by source.

  /** The sources of the first n rows of a time. */
  function NamesAt(sources: seq<T.SourcePoint>, n: nat, time: int): set<string>
    requires n <= |sources|
  {
    set j | 0 <= j < n && sources[j].start == time :: sources[j].source
  }

  lemma {:induction false} SourcesScan(q: Ask, sources: seq<T.SourcePoint>, n: nat, time: int)
    requires n <= |sources| && T.Distinct(sources)
    requires forall j :: 0 <= j < |sources| ==>
               sources[j].tokens == T.TokensOf(q.Scanned(OfSources(sources[j].start, {sources[j].source})).sums)
    ensures T.SumIn(sources[..n], {time}) == T.TokensOf(q.Scanned(OfSources(time, NamesAt(sources, n, time))).sums)
  {
    hide Scan, T.SumIn, T.TokensOf, T.Tokens.Plus, Measures.Plus;
    if n == 0 {
      assert NamesAt(sources, 0, time) == {} && sources[..0] == [];
      ScanNothing(UsageDaily, q.db, q.f, q.hourly, OfSources(time, {}));
      NoSources(time);
    } else {
      var i, row := n - 1, sources[n - 1];
      SourcesScan(q, sources, i, time);
      assert sources[..n] == sources[..i] + [row];
      T.SumInAppended(sources[..i], row, {time});
      var before, after := NamesAt(sources, i, time), NamesAt(sources, n, time);
      if row.start == time {
        var old_, own := OfSources(time, before), OfSources(time, {row.source});
        assert after == before + {row.source} && row.source !in before;
        ScanUnion(UsageDaily, q.db, q.f, q.hourly, old_, own, OfSources(time, after));
        T.TokensPlus(q.Scanned(old_).sums, q.Scanned(own).sums);
      } else {
        assert after == before;
        T.TokensLaws(T.SumIn(sources[..i], {time}), T.NO_TOKENS, T.NO_TOKENS);
      }
    }
  }

  lemma NoSources(time: int)
    ensures T.SumIn([], {time}) == T.TokensOf(NOTHING.sums)
  {
  }

  /** The query by source has a row for exactly the times and sources of the matching generations. */
  lemma SourceHasRow(q: Ask, sources: seq<T.SourcePoint>, time: int, source: string)
    requires q.Valid() && IsSourceQuery(q, sources)
    ensures (time, source) in T.PairsOf(sources)
            <==> exists id :: q.Matches(id) && q.Time(id) == time && q.db.gens[id].source == source
  {
    hide q.Valid, q.HasGroup, q.Sums, Where;
    GroupsHaveRows(q, OfSources(time, {source}));
  }

  lemma TimeIsItsSources(q: Ask, sources: seq<T.SourcePoint>, time: int)
    requires q.Valid() && IsSourceQuery(q, sources)
    ensures T.SumIn(sources, {time}) == T.TokensOf(q.Scanned(At({time})).sums)
  {
    hide q.Valid, q.HasGroup, q.Sums, Where, Scan, T.SumIn, T.TokensOf;
    forall j | 0 <= j < |sources|
      ensures sources[j].tokens == T.TokensOf(q.Scanned(OfSources(sources[j].start, {sources[j].source})).sums)
    {
      SumsAreScanned(q, OfSources(sources[j].start, {sources[j].source}));
    }
    assert sources[..|sources|] == sources;
    SourcesScan(q, sources, |sources|, time);
    var names := NamesAt(sources, |sources|, time);
    forall id | q.Matches(id) && q.Time(id) == time ensures q.db.gens[id].source in names {
      SourceHasRow(q, sources, time, q.db.gens[id].source);
    }
    ScanSame(UsageDaily, q.db, q.f, q.hourly, OfSources(time, names), At({time}));
  }

  /** Both queries group the same facts: a row is the sum of its sources' rows, and they have the same times. */
  lemma QueriesShareFacts(q: Ask, days: seq<T.DayRow>, sources: seq<T.SourcePoint>)
    requires q.Valid() && IsTimeQuery(q, days) && IsSourceQuery(q, sources)
    ensures T.SameFacts(days, sources)
  {
    hide q.Valid, q.HasGroup, Where, Scan;
    forall i | 0 <= i < |days| ensures T.TokensOf(days[i].sums) == T.SumIn(sources, {days[i].start}) {
      SumsAreScanned(q, At({days[i].start}));
      TimeIsItsSources(q, sources, days[i].start);
    }
    forall j | 0 <= j < |sources| ensures exists i :: 0 <= i < |days| && days[i].start == sources[j].start {
      assert (sources[j].start, sources[j].source) in T.PairsOf(sources);
      SourceHasRow(q, sources, sources[j].start, sources[j].source);
      var id :| q.Matches(id) && q.Time(id) == sources[j].start;
      RowHasTime(q, days, id);
    }
    assert forall i :: 0 <= i < |days| ==> T.TokensOf(days[i].sums) == T.SumIn(sources, {days[i].start});
  }

  /** The cells of some times or of one bucket that belong to one source. */
  function OfSourceAt(times: set<int>, source: string): Cell -> bool {
    (c: Cell) => c.bucket in times && c.key.source == source
  }

  function OfSourceIn(b: T.Bucket, start: int, source: string): Cell -> bool {
    (c: Cell) => T.BucketStart(c.bucket, b) == start && c.key.source == source
  }

  /** The times of a bucket among the first n rows of a source. */
  function TimesOf(sources: seq<T.SourcePoint>, n: nat, b: T.Bucket, start: int, source: string): set<int>
    requires n <= |sources|
  {
    set j | 0 <= j < n && T.BucketStart(sources[j].start, b) == start && sources[j].source == source ::
      sources[j].start
  }

  lemma {:induction false} SourceTimesScan(q: Ask, sources: seq<T.SourcePoint>, n: nat, b: T.Bucket, start: int,
                                           source: string)
    requires n <= |sources| && T.Distinct(sources)
    requires forall j :: 0 <= j < |sources| ==>
               sources[j].tokens == T.TokensOf(q.Scanned(OfSources(sources[j].start, {sources[j].source})).sums)
    ensures T.SumOfSource(sources[..n], b, start, source)
            == T.TokensOf(q.Scanned(OfSourceAt(TimesOf(sources, n, b, start, source), source)).sums)
  {
    hide Scan, T.SumOfSource, T.TokensOf, T.BucketStart, T.Tokens.Plus, Measures.Plus;
    if n == 0 {
      assert sources[..0] == [] && TimesOf(sources, 0, b, start, source) == {};
      ScanNothing(UsageDaily, q.db, q.f, q.hourly, OfSourceAt({}, source));
      NoRowsOfSource(b, start, source);
    } else {
      var i, row := n - 1, sources[n - 1];
      SourceTimesScan(q, sources, i, b, start, source);
      assert sources[..i + 1] == sources[..n];
      T.SumOfSourceOne(sources, i, b, start, source);
      var before, after := TimesOf(sources, i, b, start, source), TimesOf(sources, n, b, start, source);
      if T.BucketStart(row.start, b) == start && row.source == source {
        var old_, own := OfSourceAt(before, source), OfSources(row.start, {source});
        assert after == before + {row.start} && row.start !in before;
        ScanUnion(UsageDaily, q.db, q.f, q.hourly, old_, own, OfSourceAt(after, source));
        T.TokensPlus(q.Scanned(old_).sums, q.Scanned(own).sums);
      } else {
        assert after == before;
        T.TokensLaws(T.SumOfSource(sources[..i], b, start, source), T.NO_TOKENS, T.NO_TOKENS);
      }
    }
  }

  lemma NoRowsOfSource(b: T.Bucket, start: int, source: string)
    ensures T.SumOfSource([], b, start, source) == T.TokensOf(NOTHING.sums)
  {
  }

  lemma SourceBucketScan(q: Ask, sources: seq<T.SourcePoint>, b: T.Bucket, start: int, source: string)
    requires q.Valid() && IsSourceQuery(q, sources)
    ensures T.SumOfSource(sources, b, start, source) == T.TokensOf(q.Scanned(OfSourceIn(b, start, source)).sums)
  {
    hide q.Valid, q.HasGroup, q.Sums, Where, Scan, T.BucketStart, T.SumOfSource, T.TokensOf;
    forall j | 0 <= j < |sources|
      ensures sources[j].tokens == T.TokensOf(q.Scanned(OfSources(sources[j].start, {sources[j].source})).sums)
    {
      SumsAreScanned(q, OfSources(sources[j].start, {sources[j].source}));
    }
    assert sources[..|sources|] == sources;
    SourceTimesScan(q, sources, |sources|, b, start, source);
    var times := TimesOf(sources, |sources|, b, start, source);
    forall id | q.Matches(id) && q.db.gens[id].source == source
      ensures q.Time(id) in times <==> T.BucketStart(q.Time(id), b) == start
    {
      SourceHasRow(q, sources, q.Time(id), source);
    }
    ScanSame(UsageDaily, q.db, q.f, q.hourly, OfSourceAt(times, source), OfSourceIn(b, start, source));
  }

  lemma SourceBucketsHaveRows(q: Ask, sources: seq<T.SourcePoint>, b: T.Bucket, start: int, source: string)
    requires q.Valid() && IsSourceQuery(q, sources)
    ensures (start, source) in T.KeysOf(sources, b) <==> q.RowsOfSource(b, start, source) != {}
  {
    hide q.Valid, q.Sums, q.HasGroup, Where, T.BucketStart;
    if (start, source) in T.KeysOf(sources, b) {
      var j :| 0 <= j < |sources| && T.BucketStart(sources[j].start, b) == start && sources[j].source == source;
      assert (sources[j].start, source) in T.PairsOf(sources);
      SourceHasRow(q, sources, sources[j].start, source);
      var id :| q.Matches(id) && q.Time(id) == sources[j].start && q.db.gens[id].source == source;
      assert id in q.RowsOfSource(b, start, source);
    }
    if id :| id in q.RowsOfSource(b, start, source) {
      SourceHasRow(q, sources, q.Time(id), source);
      var j :| 0 <= j < |sources| && sources[j].start == q.Time(id) && sources[j].source == source;
      assert (T.BucketStart(sources[j].start, b), source) in T.KeysOf(sources, b);
    }
  }

  /** A source's point shows the number of the rows and the sums of their token columns. */
  ghost predicate ShowsTokens(t: T.Tokens, gens: Table, rows: set<Id>)
    requires rows <= gens.Keys
  {
    && t.requests == |rows|
    && t.input == Sum(gens, rows, Input) && t.output == Sum(gens, rows, Output)
    && t.cacheRead == Sum(gens, rows, CacheRead) && t.cacheCreation == Sum(gens, rows, CacheCreation)
    && t.reasoning == Sum(gens, rows, Reasoning)
  }

  lemma SourceTotals(q: Ask, b: T.Bucket, start: int, source: string)
    ensures ShowsTokens(T.TokensOf(q.Scanned(OfSourceIn(b, start, source)).sums), q.db.gens,
                        q.RowsOfSource(b, start, source))
  {
    hide Where, T.BucketStart, Scan, Sum;
    ScanTotalsColumns(UsageDaily, q.db, q.f, q.hourly, OfSourceIn(b, start, source));
    assert ScannedRows(UsageDaily, q.db, q.f, q.hourly, OfSourceIn(b, start, source))
           == q.RowsOfSource(b, start, source);
  }

  /**
   * A timeseries by source of a database in any reachable state: it has a point for exactly the
   * buckets and sources of the matching generations, which shows the sums of their token columns.
   */
  lemma SourceSeriesEqualsScan(s: Store, q: Ask, sources: seq<T.SourcePoint>, b: T.Bucket,
                               bySource: seq<T.SourcePoint>)
    requires s.Valid() && q.db == UsageOf(s) && ValidToken(q.f)
    requires if q.hourly || q.f.conversation != "" then q.parts == [WherePart(q.hourly)] else Partitions(q.parts, q.f)
    requires IsSourceQuery(q, sources) && T.IsSourceMerge(sources, b, bySource)
    ensures forall k :: 0 <= k < |bySource| ==>
              ShowsTokens(bySource[k].tokens, s.gens, q.RowsOfSource(b, bySource[k].start, bySource[k].source))
    ensures forall start, source ::
              (start, source) in T.PairsOf(bySource) <==> q.RowsOfSource(b, start, source) != {}
  {
    StoreInSync(s);
    assert q.Valid();
    hide q.Valid, q.RowsOfSource, q.Scanned, IsSourceQuery, Partitions, ShowsTokens, T.SumOfSource, T.TokensOf;
    forall k | 0 <= k < |bySource|
      ensures ShowsTokens(bySource[k].tokens, s.gens, q.RowsOfSource(b, bySource[k].start, bySource[k].source))
    {
      SourceBucketScan(q, sources, b, bySource[k].start, bySource[k].source);
      SourceTotals(q, b, bySource[k].start, bySource[k].source);
    }
    forall start, source
      ensures (start, source) in T.PairsOf(bySource) <==> q.RowsOfSource(b, start, source) != {}
    {
      SourceBucketsHaveRows(q, sources, b, start, source);
    }
  }

  /**
   * The two timeseries of a database in any reachable state agree: in every bucket the sources'
   * points sum to the tokens and requests of the bucket's point, and show no other bucket.
   */
  lemma SourceSeriesAgrees(s: Store, q: Ask, days: seq<T.DayRow>, sources: seq<T.SourcePoint>,
                           b: T.Bucket, out: seq<T.Point>, bySource: seq<T.SourcePoint>)
    requires s.Valid() && q.db == UsageOf(s) && ValidToken(q.f)
    requires if q.hourly || q.f.conversation != "" then q.parts == [WherePart(q.hourly)] else Partitions(q.parts, q.f)
    requires IsTimeQuery(q, days) && IsSourceQuery(q, sources)
    requires T.IsSeries(days, b, out) && T.IsSourceMerge(sources, b, bySource)
    ensures forall k :: 0 <= k < |out| ==> T.TokensOf(out[k].counts) == T.SumIn(bySource, {out[k].start})
    ensures forall k :: 0 <= k < |bySource| ==> bySource[k].start in T.StartsOf(out)
  {
    StoreInSync(s);
    assert q.Valid();
    hide q.Valid, IsTimeQuery, IsSourceQuery, Partitions, T.IsSeries, T.IsSourceMerge, T.SameFacts, T.StartsOf;
    QueriesShareFacts(q, days, sources);
    T.SeriesAgree(days, sources, b, out, bySource);
  }
}
