/**
 * Week and month buckets, merged from UTC day rows (internal/storage/queries.go and
 * mergeSourceDays in internal/storage/conversations.go).
 */
module TimeBuckets {
  import opened Wrappers
  import opened Text
  import opened Generations
  import opened Aggregates

  datatype Bucket = Hour | Day | Week | Month

  // The UTC calendar, in days since 1970-01-01 and months since January 1970.

  predicate IsLeap(year: int) { year % 4 == 0 && (year % 100 != 0 || year % 400 == 0) }

  function DaysIn(month: int): (n: nat)
    ensures 28 <= n <= 31
  {
    var m := month % 12;
    if m == 1 then (if IsLeap(1970 + month / 12) then 29 else 28) else if m in {3, 5, 8, 10} then 30 else 31
  }

  /** The first day of a month. */
  function First(month: int): int
    decreases if month < 0 then -month else month
  {
    if month == 0 then 0
    else if month > 0 then First(month - 1) + DaysIn(month - 1)
    else First(month + 1) - DaysIn(month)
  }

  lemma FirstNext(month: int)
    ensures First(month + 1) == First(month) + DaysIn(month)
  {
  }

  lemma {:induction false} FirstIncreases(a: int, b: int)
    requires a < b
    ensures First(a) < First(b)
    decreases b - a
  {
    FirstNext(a);
    if a + 1 == b {
    } else {
      FirstIncreases(a + 1, b);
    }
  }

  /** The month a day lies in, searched from the given one. */
  function MonthOf(day: int, from: int): (month: int)
    ensures First(month) <= day < First(month + 1)
    decreases if day < First(from) then First(from) - day else if day >= First(from + 1) then day - First(from) else 0
  {
    FirstNext(from - 1);
    FirstNext(from);
    FirstNext(from + 1);
    if day < First(from) then MonthOf(day, from - 1)
    else if day >= First(from + 1) then MonthOf(day, from + 1)
    else from
  }

  /** Sunday is 0; the epoch was a Thursday. */
  function Weekday(day: int): int { (day + 4) % 7 }

  function BucketStart(ms: int, b: Bucket): int {
    match b
    case Week => ms - (Weekday(ms / DAY_MS) + 6) % 7 * DAY_MS
    case Month => First(MonthOf(ms / DAY_MS, 0)) * DAY_MS
    case _ => ms
  }

  /** Only rows of whole days are merged. */
  predicate Aligned(ms: int, b: Bucket) { b.Week? || b.Month? ==> ms % DAY_MS == 0 }

  lemma MonthOfUnique(day: int, month: int)
    requires First(month) <= day < First(month + 1)
    ensures MonthOf(day, 0) == month
  {
    var m := MonthOf(day, 0);
    if m < month {
      if m + 1 < month { FirstIncreases(m + 1, month); }
    } else if m > month {
      if month + 1 < m { FirstIncreases(month + 1, m); }
    }
  }

  lemma DayOfStart(day: int)
    ensures day * DAY_MS / DAY_MS == day && day * DAY_MS % DAY_MS == 0
  {
  }

  lemma WholeDays(ms: int)
    requires ms % DAY_MS == 0
    ensures ms == ms / DAY_MS * DAY_MS
  {
  }

  /** A bucket starts at its own start, no later than its days, and on a Monday or on the first of a month. */
  lemma BucketStartIsStart(ms: int, b: Bucket)
    requires Aligned(ms, b)
    ensures BucketStart(ms, b) <= ms && Aligned(BucketStart(ms, b), b)
    ensures BucketStart(BucketStart(ms, b), b) == BucketStart(ms, b)
    ensures b.Week? ==> Weekday(BucketStart(ms, b) / DAY_MS) == 1 && ms < BucketStart(ms, b) + 7 * DAY_MS
  {
    if b.Month? {
      MonthStartIsStart(ms);
    } else if b.Week? {
      WeekStartIsStart(ms);
    }
  }

  lemma MonthStartIsStart(ms: int)
    requires ms % DAY_MS == 0
    ensures var start := BucketStart(ms, Month);
            start <= ms && start % DAY_MS == 0 && BucketStart(start, Month) == start
  {
    var m := MonthOf(ms / DAY_MS, 0);
    FirstNext(m);
    MonthOfUnique(First(m), m);
    DayOfStart(First(m));
    WholeDays(ms);
    hide First, MonthOf;
  }

  lemma WeekStartIsStart(ms: int)
    requires ms % DAY_MS == 0
    ensures var start := BucketStart(ms, Week);
            && start <= ms < start + 7 * DAY_MS && start % DAY_MS == 0
            && Weekday(start / DAY_MS) == 1 && BucketStart(start, Week) == start
  {
    var day := ms / DAY_MS;
    var offset := (Weekday(day) + 6) % 7;
    WholeDays(ms);
    DayOfStart(day - offset);
    assert BucketStart(ms, Week) == (day - offset) * DAY_MS;
    assert Weekday(day - offset) == 1;
  }

  /** A later day never lies in an earlier bucket. */
  lemma BucketStartMonotone(ms: int, later: int, b: Bucket)
    requires Aligned(ms, b) && Aligned(later, b) && ms <= later
    ensures BucketStart(ms, b) <= BucketStart(later, b)
  {
    if b.Month? {
      var m, n := MonthOf(ms / DAY_MS, 0), MonthOf(later / DAY_MS, 0);
      if n < m {
        if n + 1 < m { FirstIncreases(n + 1, m); }
      } else if m < n {
        FirstIncreases(m, n);
      }
    } else if b.Week? {
      BucketStartIsStart(ms, b);
      BucketStartIsStart(later, b);
      WeekMonotone(ms / DAY_MS, later / DAY_MS);
    }
  }

  lemma WeekMonotone(day: int, later: int)
    requires day <= later
    ensures day - (Weekday(day) + 6) % 7 <= later - (Weekday(later) + 6) % 7
  {
  }

  // Buckets on the calendar.

  /** The first day of a month from 1 to 12 of a year, in days since 1970-01-01, by the Gregorian calendar's cycles. */
  function CivilDay(year: int, month: int): int {
    var past := year - 1;
    365 * past + past / 4 - past / 100 + past / 400 + (367 * month - 362) / 12
    + (if month <= 2 then 0 else if year % 4 == 0 && (year % 100 != 0 || year % 400 == 0) then -1 else -2) - 719162
  }

  function NextMonth(year: int, month: int): int {
    if month == 12 then CivilDay(year + 1, 1) else CivilDay(year, month + 1)
  }

  lemma IndexSplits(year: int, month: int)
    requires 1 <= month <= 12
    ensures var index := (year - 1970) * 12 + month - 1; index / 12 == year - 1970 && index % 12 == month - 1
  {
  }

  lemma DaysBefore(month: int)
    requires 1 <= month <= 12
    ensures (367 * month - 362) / 12 == [0, 31, 61, 92, 122, 153, 183, 214, 245, 275, 306, 336][month - 1]
  {
  }

  lemma EveryFourth(year: int)
    ensures year / 4 == (year - 1) / 4 + if year % 4 == 0 then 1 else 0
  {
  }

  lemma EveryHundredth(year: int)
    ensures year / 100 == (year - 1) / 100 + if year % 100 == 0 then 1 else 0
    ensures year % 100 == 0 ==> year % 4 == 0
  {
    if year % 100 == 0 { assert year == 4 * (year / 100 * 25); }
  }

  lemma EveryFourHundredth(year: int)
    ensures year / 400 == (year - 1) / 400 + if year % 400 == 0 then 1 else 0
    ensures year % 400 == 0 ==> year % 100 == 0
  {
    if year % 400 == 0 { assert year == 100 * (year / 400 * 4); }
  }

  lemma LeapDays(year: int)
    ensures var past := year - 1;
            year / 4 - year / 100 + year / 400
            == past / 4 - past / 100 + past / 400 + if IsLeap(year) then 1 else 0
  {
    EveryFourth(year);
    EveryHundredth(year);
    EveryFourHundredth(year);
  }

  lemma CivilNext(year: int, month: int)
    requires 1 <= month <= 12
    ensures NextMonth(year, month) == CivilDay(year, month) + DaysIn((year - 1970) * 12 + month - 1)
  {
    IndexSplits(year, month);
    DaysBefore(month);
    if month == 12 {
      DaysBefore(1);
      LeapDays(year);
    } else {
      DaysBefore(month + 1);
    }
  }

  /** The first day of a month counted from January 1970. */
  function CivilAt(index: int): int { CivilDay(1970 + index / 12, index % 12 + 1) }

  lemma CivilAtNext(index: int)
    ensures CivilAt(index + 1) == CivilAt(index) + DaysIn(index)
    ensures CivilAt(index + 1) == NextMonth(1970 + index / 12, index % 12 + 1)
  {
    CivilNext(1970 + index / 12, index % 12 + 1);
    assert index == index / 12 * 12 + index % 12;
    hide CivilDay, DaysIn;
  }

  lemma EpochIsCivil()
    ensures First(0) == CivilAt(0)
  {
  }

  /** Counting months day by day is the calendar. */
  lemma {:induction false} FirstIsCivil(index: int)
    ensures First(index) == CivilAt(index)
    decreases if index < 0 then -index else index
  {
    hide CivilAt, DaysIn, NextMonth, First;
    FirstNext(index);
    FirstNext(index - 1);
    CivilAtNext(index);
    CivilAtNext(index - 1);
    if index == 0 {
      EpochIsCivil();
    } else {
      FirstIsCivil(if index < 0 then index + 1 else index - 1);
    }
  }

  /** Whole hours and days, weeks from Monday to Monday, and months of the calendar. */
  ghost predicate Spans(start: int, end: int, b: Bucket) {
    match b
    case Hour => start % HOUR_MS == 0 && end == start + HOUR_MS
    case Day => start % DAY_MS == 0 && end == start + DAY_MS
    case Week => start % (7 * DAY_MS) == 4 * DAY_MS && end == start + 7 * DAY_MS
    case Month =>
      exists year, month :: 1 <= month <= 12 && start == CivilDay(year, month) * DAY_MS
                            && end == NextMonth(year, month) * DAY_MS
  }

  /** The start of the bucket a timestamp is counted in: that of its hour, or that of its day's bucket. */
  function StartOf(ms: int, b: Bucket): int {
    BucketStart(if b.Hour? then ms / HOUR_MS * HOUR_MS else ms / DAY_MS * DAY_MS, b)
  }

  lemma MonthIsCivil(year: int, month: int)
    requires 1 <= month <= 12
    ensures var index := (year - 1970) * 12 + month - 1;
            First(index) == CivilDay(year, month) && First(index + 1) == NextMonth(year, month)
  {
    hide First, CivilDay, NextMonth, DaysIn;
    var index := (year - 1970) * 12 + month - 1;
    IndexSplits(year, month);
    FirstIsCivil(index);
    FirstIsCivil(index + 1);
    CivilAtNext(index);
  }

  lemma MonthHolds(day: int, year: int, month: int)
    requires 1 <= month <= 12
    ensures First(MonthOf(day, 0)) == CivilDay(year, month)
            <==> CivilDay(year, month) <= day < NextMonth(year, month)
  {
    hide First, CivilDay, NextMonth, MonthOf;
    var index, m := (year - 1970) * 12 + month - 1, MonthOf(day, 0);
    MonthIsCivil(year, month);
    if First(index) <= day < First(index + 1) {
      MonthOfUnique(day, index);
    } else if m < index {
      FirstIncreases(m, index);
    } else if index < m {
      FirstIncreases(index, m);
    }
  }

  /** A timestamp is counted in the bucket whose span it lies in. */
  lemma BucketIsSpan(ms: int, start: int, end: int, b: Bucket)
    requires Spans(start, end, b)
    ensures StartOf(ms, b) == start <==> start <= ms < end
  {
    match b
    case Hour => assert ms / HOUR_MS * HOUR_MS == start <==> start <= ms < start + HOUR_MS;
    case Day => assert ms / DAY_MS * DAY_MS == start <==> start <= ms < start + DAY_MS;
    case Week => WeekIsSpan(ms, start);
    case Month =>
      var year, month :| 1 <= month <= 12 && start == CivilDay(year, month) * DAY_MS
                         && end == NextMonth(year, month) * DAY_MS;
      MonthHolds(ms / DAY_MS, year, month);
      DayOfStart(ms / DAY_MS);
      DayWithin(ms, CivilDay(year, month));
      DayWithin(ms, NextMonth(year, month));
      hide MonthOf, CivilDay, NextMonth;
  }

  lemma DayWithin(ms: int, day: int)
    ensures day * DAY_MS <= ms <==> day <= ms / DAY_MS
  {
  }

  /** Weeks start on the days that are four modulo seven. */
  lemma WeekStarts(start: int)
    requires start % (7 * DAY_MS) == 4 * DAY_MS
    ensures start == start / DAY_MS * DAY_MS && start / DAY_MS % 7 == 4
  {
    var weeks := start / (7 * DAY_MS);
    assert start == (7 * weeks + 4) * DAY_MS;
    DayOfStart(7 * weeks + 4);
  }

  lemma MondayStarts(monday: int)
    requires monday % 7 == 4
    ensures monday * DAY_MS % (7 * DAY_MS) == 4 * DAY_MS
  {
    var weeks := monday / 7;
    assert monday * DAY_MS == weeks * (7 * DAY_MS) + 4 * DAY_MS;
  }

  /** The Monday of a day. */
  function Monday(day: int): (monday: int)
    ensures monday % 7 == 4 && monday <= day < monday + 7
  {
    day - (Weekday(day) + 6) % 7
  }

  lemma StartOfWeek(ms: int)
    ensures StartOf(ms, Week) == Monday(ms / DAY_MS) * DAY_MS
  {
    DayOfStart(ms / DAY_MS);
    hide Weekday;
  }

  lemma WeekIsSpan(ms: int, start: int)
    requires start % (7 * DAY_MS) == 4 * DAY_MS
    ensures StartOf(ms, Week) == start <==> start <= ms < start + 7 * DAY_MS
  {
    var day, monday := ms / DAY_MS, start / DAY_MS;
    WeekStarts(start);
    StartOfWeek(ms);
    DayWithin(ms, monday);
    DayWithin(ms, monday + 7);
    hide StartOf, Monday;
    assert Monday(day) == monday <==> monday <= day < monday + 7;
  }

  lemma SomeMonth(ms: int)
    ensures exists end :: Spans(StartOf(ms, Month), end, Month) && StartOf(ms, Month) <= ms < end
  {
    var m := MonthOf(ms / DAY_MS, 0);
    var year, month := 1970 + m / 12, m % 12 + 1;
    FirstIsCivil(m);
    FirstIsCivil(m + 1);
    CivilAtNext(m);
    DayOfStart(ms / DAY_MS);
    DayWithin(ms, First(m));
    DayWithin(ms, First(m + 1));
    hide MonthOf, First, CivilDay, NextMonth, DaysIn;
    assert 1 <= month <= 12 && StartOf(ms, Month) == CivilDay(year, month) * DAY_MS;
    assert Spans(StartOf(ms, Month), NextMonth(year, month) * DAY_MS, Month);
  }

  lemma SomeWeek(ms: int)
    ensures Spans(StartOf(ms, Week), StartOf(ms, Week) + 7 * DAY_MS, Week)
    ensures StartOf(ms, Week) <= ms < StartOf(ms, Week) + 7 * DAY_MS
  {
    var monday := Monday(ms / DAY_MS);
    StartOfWeek(ms);
    MondayStarts(monday);
    DayWithin(ms, monday);
    DayWithin(ms, monday + 7);
    hide StartOf, Monday;
  }

  /** Every timestamp lies in some bucket. */
  lemma SomeBucket(ms: int, b: Bucket)
    ensures exists end :: Spans(StartOf(ms, b), end, b) && StartOf(ms, b) <= ms < end
  {
    match b
    case Hour => assert Spans(StartOf(ms, b), StartOf(ms, b) + HOUR_MS, b);
    case Day => assert Spans(StartOf(ms, b), StartOf(ms, b) + DAY_MS, b);
    case Week => SomeWeek(ms);
    case Month => SomeMonth(ms);
  }

  // Merging day rows.

  /** One row of the day query: GROUP BY bucket ORDER BY bucket. */
  datatype DayRow = DayRow(start: int, sums: Measures)

  /** One bucket of a timeseries. The cost total is separate from the counts, and absent when no cost is known. */
  datatype Point = Point(start: int, counts: Measures, costTotal: Option<real>)

  ghost predicate Ascending(days: seq<DayRow>, b: Bucket) {
    && (forall i :: 0 <= i < |days| ==> Aligned(days[i].start, b))
    && (forall i, j :: 0 <= i < j < |days| ==> days[i].start < days[j].start)
  }

  /** The sum of the days of one bucket. */
  function SumOf(days: seq<DayRow>, b: Bucket, start: int): Measures {
    if days == [] then ZERO
    else SumOf(days[..|days| - 1], b, start).Plus(
           if BucketStart(days[|days| - 1].start, b) == start then days[|days| - 1].sums else ZERO)
  }

  function Counts(m: Measures): Measures { m.(cost := 0.0) }

  /** The bucket's point: every count is the exact sum of its days, and the cost is known when any cost is. */
  function PointOf(days: seq<DayRow>, b: Bucket, start: int): Point {
    var m := SumOf(days, b, start);
    Point(start, Counts(m), if m.known > 0 then Some(m.cost) else None)
  }

  function BucketsOf(days: seq<DayRow>, b: Bucket): set<int> {
    set i | 0 <= i < |days| :: BucketStart(days[i].start, b)
  }

  function StartsOf(out: seq<Point>): set<int> { set k | 0 <= k < |out| :: out[k].start }

  ghost predicate Increasing(out: seq<Point>) { forall i, j :: 0 <= i < j < |out| ==> out[i].start < out[j].start }

  /** Strictly increasing bucket starts, one for every bucket that has a day, each with the point of its days. */
  ghost predicate IsSeries(days: seq<DayRow>, b: Bucket, out: seq<Point>) {
    && Increasing(out) && StartsOf(out) == BucketsOf(days, b)
    && (forall k :: 0 <= k < |out| ==> out[k] == PointOf(days, b, out[k].start))
  }

  lemma SumOfOne(days: seq<DayRow>, i: nat, b: Bucket, start: int)
    requires i < |days|
    ensures SumOf(days[..i + 1], b, start)
            == SumOf(days[..i], b, start).Plus(if BucketStart(days[i].start, b) == start then days[i].sums else ZERO)
  {
    assert days[..i + 1][..i] == days[..i];
  }

  lemma PlusZero(m: Measures)
    ensures m.Plus(ZERO) == m && ZERO.Plus(m) == m
  {
  }

  lemma BucketsOfOne(days: seq<DayRow>, i: nat, b: Bucket)
    requires i < |days|
    ensures BucketsOf(days[..i + 1], b) == BucketsOf(days[..i], b) + {BucketStart(days[i].start, b)}
  {
    hide BucketStart;
    forall j | 0 <= j < i ensures days[..i + 1][j] == days[..i][j] {}
    assert days[..i + 1][i] == days[i];
  }

  lemma {:induction false} SumOfNone(days: seq<DayRow>, b: Bucket, start: int)
    requires start !in BucketsOf(days, b)
    ensures SumOf(days, b, start) == ZERO
  {
    hide BucketsOf, BucketStart, SumOf;
    if days == [] {
      SumOfEmpty(b, start);
    } else {
      var i := |days| - 1;
      assert days[..i + 1] == days;
      BucketsOfOne(days, i, b);
      SumOfOne(days, i, b, start);
      assert start !in BucketsOf(days[..i], b) && BucketStart(days[i].start, b) != start;
      SumOfNone(days[..i], b, start);
      PlusZero(ZERO);
      assert SumOf(days[..i], b, start) == ZERO;
      assert SumOf(days[..i + 1], b, start) == ZERO.Plus(ZERO);
      assert SumOf(days, b, start) == ZERO;
    }
  }

  lemma SumOfEmpty(b: Bucket, start: int)
    ensures SumOf([], b, start) == ZERO
  {
  }

  /** The merge after some days: all buckets but the last are closed. */
  ghost predicate Merging(days: seq<DayRow>, b: Bucket, out: seq<Point>, cost: real) {
    && Increasing(out) && StartsOf(out) == BucketsOf(days, b)
    && (forall k :: 0 <= k < |out| - 1 ==> out[k] == PointOf(days, b, out[k].start))
    && (out != [] ==>
          var last := out[|out| - 1];
          && last.counts == Counts(SumOf(days, b, last.start)) && last.costTotal == None
          && cost == SumOf(days, b, last.start).cost)
  }

  /** Closing the last bucket. */
  function Closed(out: seq<Point>, cost: real): seq<Point> {
    if out == [] || out[|out| - 1].counts.known <= 0 then out
    else out[|out| - 1 := out[|out| - 1].(costTotal := Some(cost))]
  }

  lemma ClosedStarts(out: seq<Point>, cost: real)
    ensures |Closed(out, cost)| == |out| && forall k :: 0 <= k < |out| ==> Closed(out, cost)[k].start == out[k].start
    ensures StartsOf(Closed(out, cost)) == StartsOf(out) && (Increasing(out) ==> Increasing(Closed(out, cost)))
  {
    var closed := Closed(out, cost);
    assert forall k :: 0 <= k < |out| ==> closed[k].start == out[k].start;
    assert StartsOf(closed) <= StartsOf(out) && StartsOf(out) <= StartsOf(closed) by {
      forall k | 0 <= k < |out| ensures out[k].start in StartsOf(closed) { assert closed[k].start == out[k].start; }
    }
  }

  lemma ClosedIsSeries(days: seq<DayRow>, b: Bucket, out: seq<Point>, cost: real)
    requires Merging(days, b, out, cost)
    ensures IsSeries(days, b, Closed(out, cost))
  {
    ClosedStarts(out, cost);
    hide SumOf, StartsOf, BucketsOf, Increasing;
  }

  /** Adding a day changes the sums of its own bucket only. */
  ghost predicate DayAdded(days: seq<DayRow>, i: nat, b: Bucket)
    requires i < |days|
  {
    forall s :: SumOf(days[..i + 1], b, s)
                == if s == BucketStart(days[i].start, b) then SumOf(days[..i], b, s).Plus(days[i].sums)
                   else SumOf(days[..i], b, s)
  }

  lemma AddDay(days: seq<DayRow>, i: nat, b: Bucket)
    requires i < |days|
    ensures DayAdded(days, i, b)
  {
    forall s { SumOfOne(days, i, b, s); }
    forall s { PlusZero(SumOf(days[..i], b, s)); }
  }

  function AddedToLast(out: seq<Point>, m: Measures): seq<Point>
    requires out != []
  {
    var last := out[|out| - 1];
    out[|out| - 1 := last.(counts := last.counts.Plus(Counts(m)))]
  }

  lemma AddedToLastStarts(out: seq<Point>, m: Measures)
    requires out != []
    ensures var next := AddedToLast(out, m);
            && (forall k :: 0 <= k < |out| ==> next[k].start == out[k].start)
            && StartsOf(next) == StartsOf(out) && (Increasing(out) ==> Increasing(next))
  {
    var next := AddedToLast(out, m);
    assert forall k :: 0 <= k < |out| ==> next[k].start == out[k].start;
    assert StartsOf(next) <= StartsOf(out) && StartsOf(out) <= StartsOf(next) by {
      forall k | 0 <= k < |out| ensures out[k].start in StartsOf(next) { assert next[k].start == out[k].start; }
    }
  }

  lemma SameBucket(days: seq<DayRow>, i: nat, b: Bucket, out: seq<Point>, cost: real)
    requires i < |days| && Merging(days[..i], b, out, cost) && DayAdded(days, i, b)
    requires out != [] && out[|out| - 1].start == BucketStart(days[i].start, b)
    ensures Merging(days[..i + 1], b, AddedToLast(out, days[i].sums), cost + days[i].sums.cost)
  {
    AddedToLastStarts(out, days[i].sums);
    BucketsOfOne(days, i, b);
    assert out[|out| - 1].start in StartsOf(out);
    hide SumOf, BucketStart, StartsOf, BucketsOf;
    forall k | 0 <= k < |out| - 1 ensures out[k].start < out[|out| - 1].start {}
  }

  lemma NewBucket(days: seq<DayRow>, i: nat, b: Bucket, out: seq<Point>, cost: real)
    requires i < |days| && Ascending(days, b) && Merging(days[..i], b, out, cost) && DayAdded(days, i, b)
    requires out == [] || out[|out| - 1].start != BucketStart(days[i].start, b)
    ensures var start := BucketStart(days[i].start, b);
            Merging(days[..i + 1], b, AddedToLast(Closed(out, cost) + [Point(start, ZERO, None)], days[i].sums),
                    0.0 + days[i].sums.cost)
  {
    var start, closed := BucketStart(days[i].start, b), Closed(out, cost);
    var next := AddedToLast(closed + [Point(start, ZERO, None)], days[i].sums);
    BucketIsLater(days, i, b, out);
    ClosedIsSeries(days[..i], b, out, cost);
    SumOfNone(days[..i], b, start);
    BucketsOfOne(days, i, b);
    Appended(closed, start, days[i].sums);
    hide SumOf, BucketStart, StartsOf, BucketsOf, Increasing, Closed;
    PlusZero(days[i].sums);
    forall k | 0 <= k < |closed| ensures next[k] == PointOf(days[..i + 1], b, next[k].start) {
      assert next[k] == closed[k];
    }
  }

  lemma Appended(closed: seq<Point>, start: int, m: Measures)
    requires Increasing(closed) && forall s :: s in StartsOf(closed) ==> s < start
    ensures var next := AddedToLast(closed + [Point(start, ZERO, None)], m);
            && Increasing(next) && StartsOf(next) == StartsOf(closed) + {start}
            && |next| == |closed| + 1 && next[..|closed|] == closed && next[|closed|] == Point(start, Counts(m), None)
            && (forall k :: 0 <= k < |closed| ==> next[k] == closed[k] && closed[k].start < start)
  {
    var next := AddedToLast(closed + [Point(start, ZERO, None)], m);
    PlusZero(Counts(m));
    forall k | 0 <= k < |closed| ensures next[k] == closed[k] && closed[k].start < start {
      assert closed[k].start in StartsOf(closed);
    }
    assert StartsOf(next) == StartsOf(closed) + {start} by {
      assert next[|closed|].start == start;
      forall k | 0 <= k < |closed| ensures closed[k].start in StartsOf(next) {
        assert next[k].start == closed[k].start;
      }
    }
  }

  /** Days come in order, so a new bucket is later than all before. */
  lemma BucketIsLater(days: seq<DayRow>, i: nat, b: Bucket, out: seq<Point>)
    requires i < |days| && Ascending(days, b) && Increasing(out) && StartsOf(out) == BucketsOf(days[..i], b)
    requires out == [] || out[|out| - 1].start != BucketStart(days[i].start, b)
    ensures forall s :: s in BucketsOf(days[..i], b) ==> s < BucketStart(days[i].start, b)
  {
    var start := BucketStart(days[i].start, b);
    forall j | 0 <= j < i ensures BucketStart(days[..i][j].start, b) <= start {
      BucketStartMonotone(days[j].start, days[i].start, b);
    }
    hide BucketStart;
    forall s | s in BucketsOf(days[..i], b) ensures s < start {
      var k :| 0 <= k < |out| && out[k].start == s;
      assert out[|out| - 1].start in StartsOf(out);
      assert s <= out[|out| - 1].start;
    }
  }

  /** mergeDays, and for hour and day buckets the rows as they are. */
  method Timeseries(days: seq<DayRow>, b: Bucket) returns (out: seq<Point>)
    requires Ascending(days, b)
    ensures IsSeries(days, b, out)
  {
    hide IsSeries, Merging, Ascending, SumOf, BucketStart, DayAdded, StartsOf, BucketsOf;
    if b.Hour? || b.Day? {
      out := [];
      for i := 0 to |days|
        invariant |out| == i && forall k :: 0 <= k < i ==> out[k] == Direct(days[k])
      {
        out := out + [Direct(days[i])];
      }
      DirectIsSeries(days, b, out);
      return;
    }
    out := [];
    var cost := 0.0;
    MergingNone(b);
    for i := 0 to |days|
      invariant Merging(days[..i], b, out, cost)
    {
      var d := days[i];
      var start := BucketStart(d.start, b);
      AddDay(days, i, b);
      if out == [] || out[|out| - 1].start != start {
        NewBucket(days, i, b, out, cost);
        out := Closed(out, cost);
        out := out + [Point(start, ZERO, None)];
        cost := 0.0;
      } else {
        SameBucket(days, i, b, out, cost);
      }
      var cur := |out| - 1;
      out := out[cur := out[cur].(counts := out[cur].counts.Plus(Counts(d.sums)))];
      cost := cost + d.sums.cost;
    }
    assert days[..|days|] == days;
    ClosedIsSeries(days, b, out, cost);
    out := Closed(out, cost);
  }

  /** An hour or day row is its own bucket. */
  function Direct(d: DayRow): Point {
    Point(d.start, Counts(d.sums), if d.sums.known > 0 then Some(d.sums.cost) else None)
  }

  lemma {:induction false} SumOfDirect(days: seq<DayRow>, b: Bucket, k: nat)
    requires Ascending(days, b) && (b.Hour? || b.Day?) && k < |days|
    ensures SumOf(days, b, days[k].start) == days[k].sums
  {
    var i := |days| - 1;
    assert days[..i + 1] == days;
    SumOfOne(days, i, b, days[k].start);
    if k == i {
      SumOfNone(days[..i], b, days[k].start);
    } else {
      SumOfDirect(days[..i], b, k);
    }
    PlusZero(days[k].sums);
  }

  lemma DirectIsSeries(days: seq<DayRow>, b: Bucket, out: seq<Point>)
    requires Ascending(days, b) && (b.Hour? || b.Day?)
    requires |out| == |days| && forall k :: 0 <= k < |out| ==> out[k] == Direct(days[k])
    ensures IsSeries(days, b, out)
  {
    forall k | 0 <= k < |out|
      ensures out[k] == PointOf(days, b, out[k].start) && out[k].start == BucketStart(days[k].start, b)
    {
      SumOfDirect(days, b, k);
    }
    hide SumOf;
    assert forall s :: s in StartsOf(out) <==> s in BucketsOf(days, b);
  }

  lemma MergingNone(b: Bucket)
    ensures Merging([], b, [], 0.0)
  {
  }

  // Merging the day rows of each source.

  datatype Tokens = Tokens(
    requests: int, input: int, output: int, cacheRead: int, cacheCreation: int, reasoning: int)
  {
    function Plus(o: Tokens): Tokens {
      Tokens(requests + o.requests, input + o.input, output + o.output, cacheRead + o.cacheRead,
             cacheCreation + o.cacheCreation, reasoning + o.reasoning)
    }
  }

  const NO_TOKENS := Tokens(0, 0, 0, 0, 0, 0)

  function TokensOf(m: Measures): Tokens {
    Tokens(m.requests, m.input, m.output, m.cacheRead, m.cacheCreation, m.reasoning)
  }

  /** One bucket of one source. */
  datatype SourcePoint = SourcePoint(start: int, source: string, tokens: Tokens)

  /** The sum of a source's rows in a bucket. */
  function SumOfSource(days: seq<SourcePoint>, b: Bucket, start: int, source: string): Tokens {
    if days == [] then NO_TOKENS
    else
      var last := days[|days| - 1];
      SumOfSource(days[..|days| - 1], b, start, source).Plus(
        if BucketStart(last.start, b) == start && last.source == source then last.tokens else NO_TOKENS)
  }

  /** The sum of the rows whose start is in the set. */
  function SumIn(rows: seq<SourcePoint>, starts: set<int>): Tokens {
    if rows == [] then NO_TOKENS
    else
      var last := rows[|rows| - 1];
      SumIn(rows[..|rows| - 1], starts).Plus(if last.start in starts then last.tokens else NO_TOKENS)
  }

  /** The sum of all sources' rows in a bucket. */
  function SumOfSources(days: seq<SourcePoint>, b: Bucket, start: int): Tokens {
    if days == [] then NO_TOKENS
    else
      var last := days[|days| - 1];
      SumOfSources(days[..|days| - 1], b, start).Plus(
        if BucketStart(last.start, b) == start then last.tokens else NO_TOKENS)
  }

  /** The key of the index map. */
  function IndexKey(start: int, source: string): string { FormatInt(start) + "\0" + source }

  lemma IndexKeyInjective(start: int, source: string, start': int, source': string)
    requires IndexKey(start, source) == IndexKey(start', source')
    ensures start == start' && source == source'
  {
    forall i | 0 <= i < |FormatInt(start)| ensures FormatInt(start)[i] != '\0' { FormatIntChars(start, i); }
    forall i | 0 <= i < |FormatInt(start')| ensures FormatInt(start')[i] != '\0' { FormatIntChars(start', i); }
    SplitAtFirst(FormatInt(start), FormatInt(start'), '\0', source, source');
    FormatIntInjective(start, start');
  }

  function KeysOf(days: seq<SourcePoint>, b: Bucket): set<(int, string)> {
    set i | 0 <= i < |days| :: (BucketStart(days[i].start, b), days[i].source)
  }

  function PairsOf(out: seq<SourcePoint>): set<(int, string)> {
    set k | 0 <= k < |out| :: (out[k].start, out[k].source)
  }

  /** The index maps each row's key to its position. */
  ghost predicate Indexes(idx: map<string, nat>, out: seq<SourcePoint>) {
    && (forall k :: 0 <= k < |out| ==>
          IndexKey(out[k].start, out[k].source) in idx && idx[IndexKey(out[k].start, out[k].source)] == k)
    && (forall key :: key in idx ==> idx[key] < |out| && key == IndexKey(out[idx[key]].start, out[idx[key]].source))
  }

  ghost predicate Distinct(out: seq<SourcePoint>) {
    forall i, j :: 0 <= i < j < |out| ==> out[i].start != out[j].start || out[i].source != out[j].source
  }

  /** One row for each bucket and source that has a day, holding the exact sum of its days. */
  ghost predicate IsSourceMerge(days: seq<SourcePoint>, b: Bucket, out: seq<SourcePoint>) {
    && Distinct(out) && PairsOf(out) == KeysOf(days, b)
    && (forall k :: 0 <= k < |out| ==> out[k].tokens == SumOfSource(days, b, out[k].start, out[k].source))
    && (forall start :: SumIn(out, {start}) == SumOfSources(days, b, start))
  }

  lemma TokensLaws(a: Tokens, b: Tokens, c: Tokens)
    ensures a.Plus(NO_TOKENS) == a && NO_TOKENS.Plus(a) == a
    ensures a.Plus(b).Plus(c) == a.Plus(c).Plus(b) == a.Plus(b.Plus(c))
  {
  }

  lemma SumOfSourceOne(days: seq<SourcePoint>, i: nat, b: Bucket, start: int, source: string)
    requires i < |days|
    ensures SumOfSource(days[..i + 1], b, start, source)
            == SumOfSource(days[..i], b, start, source).Plus(
                 if BucketStart(days[i].start, b) == start && days[i].source == source then days[i].tokens
                 else NO_TOKENS)
    ensures SumOfSources(days[..i + 1], b, start)
            == SumOfSources(days[..i], b, start).Plus(
                 if BucketStart(days[i].start, b) == start then days[i].tokens else NO_TOKENS)
  {
    hide BucketStart;
    assert days[..i + 1][..i] == days[..i];
  }

  lemma KeysOfOne(days: seq<SourcePoint>, i: nat, b: Bucket)
    requires i < |days|
    ensures KeysOf(days[..i + 1], b) == KeysOf(days[..i], b) + {(BucketStart(days[i].start, b), days[i].source)}
  {
    hide BucketStart;
    forall j | 0 <= j < i ensures days[..i + 1][j] == days[..i][j] {}
    assert days[..i + 1][i] == days[i];
  }

  lemma OtherSource(days: seq<SourcePoint>, i: nat, b: Bucket, start: int, source: string)
    requires i < |days| && (start, source) != (BucketStart(days[i].start, b), days[i].source)
    ensures SumOfSource(days[..i + 1], b, start, source) == SumOfSource(days[..i], b, start, source)
  {
    SumOfSourceOne(days, i, b, start, source);
    TokensLaws(SumOfSource(days[..i], b, start, source), NO_TOKENS, NO_TOKENS);
  }

  lemma {:induction false} SumOfSourceNone(days: seq<SourcePoint>, b: Bucket, start: int, source: string)
    requires (start, source) !in KeysOf(days, b)
    ensures SumOfSource(days, b, start, source) == NO_TOKENS
  {
    if days == [] {
    } else {
      hide BucketStart, KeysOf, SumOfSource, SumOfSources, Tokens.Plus;
      var i := |days| - 1;
      assert days[..i + 1] == days;
      KeysOfOne(days, i, b);
      OtherSource(days, i, b, start, source);
      SumOfSourceNone(days[..i], b, start, source);
    }
  }

  lemma {:induction false} SumInUpdate(rows: seq<SourcePoint>, k: nat, t: Tokens, starts: set<int>)
    requires k < |rows|
    ensures SumIn(rows[k := rows[k].(tokens := rows[k].tokens.Plus(t))], starts)
            == SumIn(rows, starts).Plus(if rows[k].start in starts then t else NO_TOKENS)
  {
    var next, i := rows[k := rows[k].(tokens := rows[k].tokens.Plus(t))], |rows| - 1;
    if k == i {
      assert next[..i] == rows[..i];
    } else {
      assert next[..i] == rows[..i][k := rows[k].(tokens := rows[k].tokens.Plus(t))];
      SumInUpdate(rows[..i], k, t, starts);
    }
  }

  /** A row of a known bucket and source is added to it. */
  lemma MergeKnown(days: seq<SourcePoint>, i: nat, b: Bucket, out: seq<SourcePoint>, k: nat)
    requires i < |days| && k < |out| && IsSourceMerge(days[..i], b, out)
    requires out[k].start == BucketStart(days[i].start, b) && out[k].source == days[i].source
    ensures IsSourceMerge(days[..i + 1], b, out[k := out[k].(tokens := out[k].tokens.Plus(days[i].tokens))])
  {
    hide BucketStart, KeysOf, SumOfSource, SumOfSources, SumIn;
    var next := out[k := out[k].(tokens := out[k].tokens.Plus(days[i].tokens))];
    assert forall j :: 0 <= j < |out| ==> next[j].start == out[j].start && next[j].source == out[j].source;
    KeysOfOne(days, i, b);
    PairsOfSame(out, next);
    assert (out[k].start, out[k].source) in PairsOf(out);
    hide PairsOf;
    forall j | 0 <= j < |next| ensures next[j].tokens == SumOfSource(days[..i + 1], b, next[j].start, next[j].source) {
      SumOfSourceOne(days, i, b, next[j].start, next[j].source);
      TokensLaws(out[j].tokens, days[i].tokens, NO_TOKENS);
      assert j != k ==> out[j].start != out[k].start || out[j].source != out[k].source;
    }
    forall start ensures SumIn(next, {start}) == SumOfSources(days[..i + 1], b, start) {
      SumInUpdate(out, k, days[i].tokens, {start});
      SumOfSourceOne(days, i, b, start, days[i].source);
    }
  }

  lemma PairsOfSame(out: seq<SourcePoint>, next: seq<SourcePoint>)
    requires |out| == |next|
    requires forall j :: 0 <= j < |out| ==> next[j].start == out[j].start && next[j].source == out[j].source
    ensures PairsOf(next) == PairsOf(out)
  {
    forall j | 0 <= j < |out|
      ensures (out[j].start, out[j].source) in PairsOf(next) && (next[j].start, next[j].source) in PairsOf(out)
    {
      assert (next[j].start, next[j].source) == (out[j].start, out[j].source);
    }
  }

  /** A row of a new bucket or source is appended. */
  lemma MergeNew(days: seq<SourcePoint>, i: nat, b: Bucket, out: seq<SourcePoint>)
    requires i < |days| && IsSourceMerge(days[..i], b, out)
    requires (BucketStart(days[i].start, b), days[i].source) !in PairsOf(out)
    ensures IsSourceMerge(days[..i + 1], b, out + [days[i].(start := BucketStart(days[i].start, b))])
  {
    hide BucketStart, KeysOf, SumOfSource, SumOfSources, SumIn, Tokens.Plus;
    var start, source := BucketStart(days[i].start, b), days[i].source;
    var row := days[i].(start := start);
    var next := out + [row];
    KeysOfOne(days, i, b);
    PairsOfAppended(out, row);
    FirstOfSource(days, i, b);
    hide PairsOf;
    forall j | 0 <= j < |out| ensures out[j].tokens == SumOfSource(days[..i + 1], b, out[j].start, out[j].source) {
      OtherSource(days, i, b, out[j].start, out[j].source);
    }
    forall s ensures SumIn(next, {s}) == SumOfSources(days[..i + 1], b, s) {
      SumInAppended(out, row, {s});
      SumOfSourceOne(days, i, b, s, source);
    }
  }

  lemma FirstOfSource(days: seq<SourcePoint>, i: nat, b: Bucket)
    requires i < |days| && (BucketStart(days[i].start, b), days[i].source) !in KeysOf(days[..i], b)
    ensures SumOfSource(days[..i + 1], b, BucketStart(days[i].start, b), days[i].source) == days[i].tokens
  {
    hide KeysOf;
    SumOfSourceNone(days[..i], b, BucketStart(days[i].start, b), days[i].source);
    SumOfSourceOne(days, i, b, BucketStart(days[i].start, b), days[i].source);
    hide BucketStart, SumOfSource;
    TokensLaws(days[i].tokens, NO_TOKENS, NO_TOKENS);
  }

  lemma SumInAppended(out: seq<SourcePoint>, row: SourcePoint, starts: set<int>)
    ensures SumIn(out + [row], starts) == SumIn(out, starts).Plus(if row.start in starts then row.tokens else NO_TOKENS)
  {
    hide Tokens.Plus;
    var next := out + [row];
    assert next[..|next| - 1] == out && next[|next| - 1] == row;
  }

  lemma PairsOfAppended(out: seq<SourcePoint>, row: SourcePoint)
    ensures PairsOf(out + [row]) == PairsOf(out) + {(row.start, row.source)}
    ensures (row.start, row.source) !in PairsOf(out) ==>
              forall j :: 0 <= j < |out| ==> out[j].start != row.start || out[j].source != row.source
  {
    var next := out + [row];
    forall j | 0 <= j < |out|
      ensures (out[j].start, out[j].source) in PairsOf(next) && (out[j].start, out[j].source) in PairsOf(out)
    {
      assert next[j] == out[j];
    }
    assert next[|out|] == row;
  }

  /** mergeSourceDays: rows in order of first occurrence, later ones added in place. */
  method MergeSourceDays(days: seq<SourcePoint>, b: Bucket) returns (out: seq<SourcePoint>)
    ensures IsSourceMerge(days, b, out)
  {
    hide IsSourceMerge, BucketStart, IndexKey;
    out := [];
    var idx: map<string, nat> := map[];
    MergeNone(b);
    for i := 0 to |days|
      invariant IsSourceMerge(days[..i], b, out) && Indexes(idx, out)
    {
      var d := days[i];
      var start := BucketStart(d.start, b);
      var key := IndexKey(start, d.source);
      if key in idx {
        var k := idx[key];
        IndexKeyInjective(start, d.source, out[k].start, out[k].source);
        MergeKnown(days, i, b, out, k);
        out := out[k := out[k].(tokens := out[k].tokens.Plus(d.tokens))];
        continue;
      }
      NotIndexed(idx, out, start, d.source);
      MergeNew(days, i, b, out);
      d := d.(start := start);
      idx := idx[key := |out|];
      out := out + [d];
    }
    assert days[..|days|] == days;
  }

  lemma MergeNone(b: Bucket)
    ensures IsSourceMerge([], b, [])
  {
  }

  lemma NotIndexed(idx: map<string, nat>, out: seq<SourcePoint>, start: int, source: string)
    requires Indexes(idx, out) && IndexKey(start, source) !in idx
    ensures (start, source) !in PairsOf(out)
  {
  }

  // Both series show the same totals.

  /** The rows of both queries group the same facts: a day's row is the sum of its sources' rows. */
  ghost predicate SameFacts(days: seq<DayRow>, sources: seq<SourcePoint>) {
    && (forall i, j :: 0 <= i < j < |days| ==> days[i].start < days[j].start)
    && (forall i :: 0 <= i < |days| ==> TokensOf(days[i].sums) == SumIn(sources, {days[i].start}))
    && (forall j :: 0 <= j < |sources| ==> exists i :: 0 <= i < |days| && days[i].start == sources[j].start)
  }

  /** The first n days of a bucket. */
  function DaysOf(days: seq<DayRow>, n: nat, b: Bucket, start: int): set<int>
    requires n <= |days|
  {
    set i | 0 <= i < n && BucketStart(days[i].start, b) == start :: days[i].start
  }

  lemma TokensInterchange(a: Tokens, b: Tokens, t: Tokens, u: Tokens)
    ensures a.Plus(b).Plus(t.Plus(u)) == a.Plus(t).Plus(b.Plus(u))
  {
  }

  lemma {:induction false} SumInAdd(rows: seq<SourcePoint>, some: set<int>, day: int)
    requires day !in some
    ensures SumIn(rows, some + {day}) == SumIn(rows, some).Plus(SumIn(rows, {day}))
  {
    if rows == [] {
      TokensLaws(NO_TOKENS, NO_TOKENS, NO_TOKENS);
    } else {
      hide Tokens.Plus;
      var rest, last := rows[..|rows| - 1], rows[|rows| - 1];
      SumInAdd(rest, some, day);
      var t := if last.start in some then last.tokens else NO_TOKENS;
      var u := if last.start in {day} then last.tokens else NO_TOKENS;
      TokensInterchange(SumIn(rest, some), SumIn(rest, {day}), t, u);
      TokensLaws(last.tokens, NO_TOKENS, NO_TOKENS);
      TokensLaws(NO_TOKENS, NO_TOKENS, NO_TOKENS);
      assert (if last.start in some + {day} then last.tokens else NO_TOKENS) == t.Plus(u);
    }
  }

  lemma {:induction false} SumInBucket(rows: seq<SourcePoint>, starts: set<int>, b: Bucket, start: int)
    requires forall j :: 0 <= j < |rows| ==> (rows[j].start in starts <==> BucketStart(rows[j].start, b) == start)
    ensures SumIn(rows, starts) == SumOfSources(rows, b, start)
  {
    hide BucketStart;
    if rows == [] {
    } else {
      SumInBucket(rows[..|rows| - 1], starts, b, start);
    }
  }

  lemma {:induction false} SumInNone(rows: seq<SourcePoint>)
    ensures SumIn(rows, {}) == NO_TOKENS
  {
    if rows == [] {
    } else {
      SumInNone(rows[..|rows| - 1]);
    }
  }

  lemma {:induction false} DaysSum(days: seq<DayRow>, sources: seq<SourcePoint>, n: nat, b: Bucket, start: int)
    requires SameFacts(days, sources) && n <= |days|
    ensures TokensOf(SumOf(days[..n], b, start)) == SumIn(sources, DaysOf(days, n, b, start))
  {
    hide BucketStart, SumIn, SumOf, Tokens.Plus, Measures.Plus, TokensOf;
    if n == 0 {
      NoDays(days, sources, b, start);
    } else {
      var i, d := n - 1, days[n - 1];
      DaysSum(days, sources, i, b, start);
      SumOfOne(days, i, b, start);
      var before, after := DaysOf(days, i, b, start), DaysOf(days, n, b, start);
      if BucketStart(d.start, b) == start {
        TokensPlus(SumOf(days[..i], b, start), d.sums);
        assert after == before + {d.start};
        SumInAdd(sources, before, d.start);
        assert days[..i + 1] == days[..n];
      } else {
        PlusZero(SumOf(days[..i], b, start));
        assert after == before && days[..i + 1] == days[..n];
      }
    }
  }

  lemma NoDays(days: seq<DayRow>, sources: seq<SourcePoint>, b: Bucket, start: int)
    ensures TokensOf(SumOf(days[..0], b, start)) == SumIn(sources, DaysOf(days, 0, b, start))
  {
    SumInNone(sources);
    assert DaysOf(days, 0, b, start) == {};
  }

  lemma TokensPlus(a: Measures, b: Measures)
    ensures TokensOf(a.Plus(b)) == TokensOf(a).Plus(TokensOf(b))
  {
  }

  /**
   * The timeseries and the timeseries by source agree: in every bucket, the sources' points sum to
   * the tokens and requests of the bucket's point, and both series show the same buckets.
   */
  lemma SeriesAgree(days: seq<DayRow>, sources: seq<SourcePoint>, b: Bucket, out: seq<Point>,
                    bySource: seq<SourcePoint>)
    requires SameFacts(days, sources) && IsSeries(days, b, out) && IsSourceMerge(sources, b, bySource)
    ensures forall k :: 0 <= k < |out| ==> TokensOf(out[k].counts) == SumIn(bySource, {out[k].start})
    ensures forall k :: 0 <= k < |bySource| ==> bySource[k].start in StartsOf(out)
  {
    hide SumOf, SumIn, SumOfSources, SumOfSource, BucketStart;
    forall k | 0 <= k < |out| ensures TokensOf(out[k].counts) == SumIn(bySource, {out[k].start}) {
      var start := out[k].start;
      assert days[..|days|] == days;
      DaysSum(days, sources, |days|, b, start);
      SumInBucket(sources, DaysOf(days, |days|, b, start), b, start);
      assert SumIn(bySource, {start}) == SumOfSources(sources, b, start);
    }
    forall k | 0 <= k < |bySource| ensures bySource[k].start in StartsOf(out) {
      assert (bySource[k].start, bySource[k].source) in PairsOf(bySource);
      var j :| 0 <= j < |sources| && BucketStart(sources[j].start, b) == bySource[k].start;
      var i :| 0 <= i < |days| && days[i].start == sources[j].start;
      assert BucketStart(days[i].start, b) in BucketsOf(days, b);
    }
  }
}
