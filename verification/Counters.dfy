/**
 * The ingestion counters as values: what a save, a restore and a restart make of the day's totals
 * (internal/ingest/pipeline.go over internal/storage/stats_snapshot.go), and what that means over
 * whole runs.
 */
module Counters {
  import opened Wrappers
  import opened Sums

  /** A UTC day, as its number. */
  type Day = int

  datatype Kind = RejectedKind | IgnoredKind | NormErrorKind | DedupKind | HttpRejectKind

  datatype Key = Key(kind: Kind, reason: string)

  datatype Stats = Stats(
    received: nat, normalized: nat, stored: nat, deduplicated: nat, rejected: nat, ignored: nat,
    normErrors: nat, ingErrors: nat)
  {
    function Add(o: Stats): Stats {
      Stats(received + o.received, normalized + o.normalized, stored + o.stored, deduplicated + o.deduplicated,
            rejected + o.rejected, ignored + o.ignored, normErrors + o.normErrors, ingErrors + o.ingErrors)
    }
  }

  const NO_STATS := Stats(0, 0, 0, 0, 0, 0, 0, 0)

  /** The counters together with their breakdown by reason. */
  datatype Totals = Totals(stats: Stats, reasons: map<Key, nat>)

  const NOTHING := Totals(NO_STATS, map[])

  /** One counter, or one cell of the breakdown. */
  datatype Cell =
    | Received | Normalized | Stored | Deduplicated | Rejected | Ignored | NormErrors | IngErrors
    | Reason(key: Key)

  function Value(t: Totals, c: Cell): nat {
    match c
    case Received => t.stats.received
    case Normalized => t.stats.normalized
    case Stored => t.stats.stored
    case Deduplicated => t.stats.deduplicated
    case Rejected => t.stats.rejected
    case Ignored => t.stats.ignored
    case NormErrors => t.stats.normErrors
    case IngErrors => t.stats.ingErrors
    case Reason(key) => At(t.reasons, key)
  }

  function AddReasons(a: map<Key, nat>, b: map<Key, nat>): map<Key, nat> {
    map k | k in a.Keys + b.Keys :: At(a, k) + At(b, k)
  }

  /** Zero entries are not persisted. */
  function Trimmed(m: map<Key, nat>): map<Key, nat> {
    map k | k in m && m[k] > 0 :: m[k]
  }

  function Added(a: Totals, b: Totals): Totals { Totals(a.stats.Add(b.stats), AddReasons(a.reasons, b.reasons)) }

  lemma AddedValue(a: Totals, b: Totals, c: Cell)
    ensures Value(Added(a, b), c) == Value(a, c) + Value(b, c)
  {
  }

  // The books balance.

  function OfKind(m: map<Key, nat>, kind: Kind): map<Key, nat> {
    map k | k in m && k.kind == kind :: m[k]
  }

  ghost function KindTotal(m: map<Key, nat>, kind: Kind): nat { Sum(OfKind(m, kind)) }

  /** Every received record went one way, and each kind's reasons sum to that kind's counter. */
  ghost predicate Balanced(t: Totals) {
    && t.stats.received == t.stats.normalized + t.stats.rejected + t.stats.ignored + t.stats.normErrors
    && KindTotal(t.reasons, RejectedKind) == t.stats.rejected
    && KindTotal(t.reasons, IgnoredKind) == t.stats.ignored
    && KindTotal(t.reasons, NormErrorKind) == t.stats.normErrors
    && KindTotal(t.reasons, DedupKind) == t.stats.deduplicated
  }

  lemma KindTotalSame(a: map<Key, nat>, b: map<Key, nat>, kind: Kind)
    requires forall k :: At(a, k) == At(b, k)
    ensures KindTotal(a, kind) == KindTotal(b, kind)
  {
    forall k ensures At(OfKind(a, kind), k) == At(OfKind(b, kind), k) { assert At(a, k) == At(b, k); }
    SumSame(OfKind(a, kind), OfKind(b, kind));
  }

  lemma KindTotalSet(m: map<Key, nat>, key: Key, n: nat, kind: Kind)
    ensures KindTotal(m[key := n], kind)
            == if key.kind == kind then KindTotal(m, kind) - At(m, key) + n else KindTotal(m, kind)
  {
    if key.kind == kind {
      assert OfKind(m[key := n], kind) == OfKind(m, kind)[key := n];
      SumUpdate(OfKind(m, kind), key, n);
    } else {
      assert OfKind(m[key := n], kind) == OfKind(m, kind);
    }
  }

  lemma {:induction false} KindTotalAdd(a: map<Key, nat>, b: map<Key, nat>, kind: Kind)
    ensures KindTotal(AddReasons(a, b), kind) == KindTotal(a, kind) + KindTotal(b, kind)
    decreases |b|
  {
    hide KindTotal, AddReasons;
    if b == map[] {
      AddNoReasons(a, kind);
    } else {
      var key :| key in b;
      var rest := b - {key};
      assert rest.Keys == b.Keys - {key};
      KindTotalAdd(a, rest, kind);
      AddReasonsOne(a, b, key);
      KindTotalSet(rest, key, b[key], kind);
      KindTotalSet(AddReasons(a, rest), key, At(a, key) + b[key], kind);
    }
  }

  lemma AddNoReasons(a: map<Key, nat>, kind: Kind)
    ensures AddReasons(a, map[]) == a && KindTotal(map[], kind) == 0
  {
    assert OfKind(map[], kind) == map[];
  }

  lemma AddReasonsOne(a: map<Key, nat>, b: map<Key, nat>, key: Key)
    requires key in b
    ensures (b - {key})[key := b[key]] == b && At(b - {key}, key) == 0
    ensures AddReasons(a, b) == AddReasons(a, b - {key})[key := At(a, key) + b[key]]
    ensures At(AddReasons(a, b - {key}), key) == At(a, key)
  {
  }

  lemma AddedBalanced(a: Totals, b: Totals)
    requires Balanced(a) && Balanced(b)
    ensures Balanced(Added(a, b))
  {
    forall kind
      ensures KindTotal(AddReasons(a.reasons, b.reasons), kind)
              == KindTotal(a.reasons, kind) + KindTotal(b.reasons, kind)
    {
      KindTotalAdd(a.reasons, b.reasons, kind);
    }
  }

  // The persisted days and the process.

  /** stats_daily and stats_daily_reasons. */
  datatype Tables = Tables(stats: map<Day, Stats>, reasons: map<Day, map<Key, nat>>)

  /** The day's rows; a missing row reads as zeros. */
  function DayTotals(t: Tables, day: Day): Totals {
    Totals(if day in t.stats then t.stats[day] else NO_STATS, if day in t.reasons then t.reasons[day] else map[])
  }

  function Days(t: Tables): set<Day> { t.stats.Keys + t.reasons.Keys }

  /** The persisted total of a counter or reason over all days. */
  ghost function Persisted(t: Tables, c: Cell): nat {
    Sum(map d | d in Days(t) :: Value(DayTotals(t, d), c))
  }

  /** UpsertDailySnapshot: replaces everything stored for the day. */
  function Snapshotted(t: Tables, day: Day, totals: Totals): Tables {
    Tables(t.stats[day := totals.stats], t.reasons[day := totals.reasons])
  }

  /** The database and the running process: its session counters, and the base restored for baseDay. */
  datatype World = World(tables: Tables, session: Totals, base: Totals, baseDay: Option<Day>)

  /** The totals a save writes: the persisted base plus this session. */
  function Snapshot(w: World): Totals {
    Totals(w.base.stats.Add(w.session.stats), Trimmed(AddReasons(w.base.reasons, w.session.reasons)))
  }

  /** Save. A failed write changes nothing in the database and keeps the session's counts. */
  function Saved(w: World, today: Day, ok: bool): World {
    if w.baseDay.Some? && w.baseDay.value != today then
      if ok then World(Snapshotted(w.tables, w.baseDay.value, Snapshot(w)), NOTHING, NOTHING, Some(today)) else w
    else
      w.(baseDay := Some(today), tables := if ok then Snapshotted(w.tables, today, Snapshot(w)) else w.tables)
  }

  /** RestoreBase. */
  function Restored(w: World, today: Day): World {
    w.(base := DayTotals(w.tables, today), baseDay := Some(today))
  }

  /** A crash or an exit, then a new process that restores its base. */
  function Restarted(w: World, today: Day): World {
    Restored(World(w.tables, NOTHING, NOTHING, None), today)
  }

  /** Raises one cell of the session. */
  function Raised(t: Totals, c: Cell, n: nat): Totals {
    match c
    case Received => t.(stats := t.stats.(received := t.stats.received + n))
    case Normalized => t.(stats := t.stats.(normalized := t.stats.normalized + n))
    case Stored => t.(stats := t.stats.(stored := t.stats.stored + n))
    case Deduplicated => t.(stats := t.stats.(deduplicated := t.stats.deduplicated + n))
    case Rejected => t.(stats := t.stats.(rejected := t.stats.rejected + n))
    case Ignored => t.(stats := t.stats.(ignored := t.stats.ignored + n))
    case NormErrors => t.(stats := t.stats.(normErrors := t.stats.normErrors + n))
    case IngErrors => t.(stats := t.stats.(ingErrors := t.stats.ingErrors + n))
    case Reason(key) => t.(reasons := t.reasons[key := At(t.reasons, key) + n])
  }

  /** No cell has gone down. */
  ghost predicate Grown(before: Totals, after: Totals) { forall c :: Value(before, c) <= Value(after, c) }

  datatype Op =
    | Count(session: Totals)     // batches and rejections have brought the session's counters here
    // read is what the snapshot read, counter by counter; reached is where they stood at the reset, or at the end
    | Save(today: Day, ok: bool, read: Totals, reached: Totals)
    | Restart(today: Day)

  /** The save of a rollover, which resets the session's counters once the old day is written. */
  predicate RollsOver(w: World, today: Day, ok: bool) { w.baseDay.Some? && w.baseDay.value != today && ok }

  /** A save while batches go on counting: Saved on what it read. Only a rollover drops what came after. */
  function SavedMeanwhile(w: World, today: Day, ok: bool, read: Totals, reached: Totals): World {
    var after := Saved(w.(session := read), today, ok);
    if RollsOver(w, today, ok) then after else after.(session := reached)
  }

  function Step(w: World, op: Op): World {
    match op
    case Count(session) => w.(session := session)
    case Save(today, ok, read, reached) => SavedMeanwhile(w, today, ok, read, reached)
    case Restart(today) => Restarted(w, today)
  }

  function Run(w: World, ops: seq<Op>): World {
    if ops == [] then w else Step(Run(w, ops[..|ops| - 1]), ops[|ops| - 1])
  }

  /** What the process holds beyond what is stored for its day. */
  function Unsaved(w: World, c: Cell): int
    requires w.baseDay.Some?
  {
    Value(w.base, c) + Value(w.session, c) - Value(DayTotals(w.tables, w.baseDay.value), c)
  }

  /** A restored process: its totals include all that is stored for its day, and no later day is stored. */
  ghost predicate Inv(w: World) {
    && w.baseDay.Some?
    && (forall c :: Unsaved(w, c) >= 0)
    && (forall d :: d in Days(w.tables) ==> d <= w.baseDay.value)
  }

  predicate Dated(op: Op) { op.Save? || op.Restart? }

  /** The UTC days of the run's saves and restarts never go back. */
  ghost predicate InOrder(from: Day, ops: seq<Op>) {
    && (forall i :: 0 <= i < |ops| && Dated(ops[i]) ==> from <= ops[i].today)
    && (forall i, j :: 0 <= i <= j < |ops| && Dated(ops[i]) && Dated(ops[j]) ==> ops[i].today <= ops[j].today)
  }

  /** Counting only ever adds. */
  ghost predicate Counts(w: World, op: Op) {
    && (op.Count? ==> Grown(w.session, op.session))
    && (op.Save? ==> Grown(w.session, op.read) && Grown(op.read, op.reached))
  }

  ghost predicate CountsOnly(w: World, ops: seq<Op>) {
    ops != [] ==> CountsOnly(w, ops[..|ops| - 1]) && Counts(Run(w, ops[..|ops| - 1]), ops[|ops| - 1])
  }

  function MadeBy(w: World, op: Op, c: Cell): int {
    match op
    case Count(session) => Value(session, c) - Value(w.session, c)
    case Save(_, _, _, reached) => Value(reached, c) - Value(w.session, c)
    case Restart(_) => 0
  }

  /** What an operation loses: all that is unsaved in a crash, and in a rollover what its snapshot did not see. */
  function LostBy(w: World, op: Op, c: Cell): int
    requires w.baseDay.Some?
  {
    match op
    case Count(_) => 0
    case Save(today, ok, read, reached) => if RollsOver(w, today, ok) then Value(reached, c) - Value(read, c) else 0
    case Restart(_) => Unsaved(w, c)
  }

  /** All counts made in a run. */
  function Made(w: World, ops: seq<Op>, c: Cell): int {
    if ops == [] then 0 else Made(w, ops[..|ops| - 1], c) + MadeBy(Run(w, ops[..|ops| - 1]), ops[|ops| - 1], c)
  }

  /** The counts a run lost in crashes and in the windows of its rollovers. */
  function Lost(w: World, ops: seq<Op>, c: Cell): int
    requires w.baseDay.Some?
  {
    if ops == [] then 0
    else
      StaysRestored(w, ops[..|ops| - 1]);
      Lost(w, ops[..|ops| - 1], c) + LostBy(Run(w, ops[..|ops| - 1]), ops[|ops| - 1], c)
  }

  lemma {:induction false} StaysRestored(w: World, ops: seq<Op>)
    requires w.baseDay.Some?
    ensures Run(w, ops).baseDay.Some?
  {
    if ops == [] {
    } else {
      StaysRestored(w, ops[..|ops| - 1]);
    }
  }

  lemma SnapshotValue(w: World, c: Cell)
    ensures Value(Snapshot(w), c) == Value(w.base, c) + Value(w.session, c)
  {
    hide AddReasons;
    AddedValue(w.base, w.session, c);
    TrimmedAt(AddReasons(w.base.reasons, w.session.reasons));
  }

  lemma TrimmedAt(m: map<Key, nat>)
    ensures forall k :: At(Trimmed(m), k) == At(m, k)
  {
  }

  lemma SnapshottedDay(t: Tables, day: Day, totals: Totals, d: Day)
    ensures DayTotals(Snapshotted(t, day, totals), d) == if d == day then totals else DayTotals(t, d)
  {
  }

  lemma SnapshottedPersisted(t: Tables, day: Day, totals: Totals, c: Cell)
    ensures Persisted(Snapshotted(t, day, totals), c)
            == Persisted(t, c) - Value(DayTotals(t, day), c) + Value(totals, c)
  {
    hide Value, DayTotals, Days, Snapshotted;
    var before := map d | d in Days(t) :: Value(DayTotals(t, d), c);
    var next := Snapshotted(t, day, totals);
    SnapshottedDays(t, day, totals);
    forall d ensures DayTotals(next, d) == if d == day then totals else DayTotals(t, d) {
      SnapshottedDay(t, day, totals, d);
    }
    NoRowNoCount(t, day, c);
    assert (map d | d in Days(next) :: Value(DayTotals(next, d), c)) == before[day := Value(totals, c)];
    SumUpdate(before, day, Value(totals, c));
  }

  lemma SnapshottedDays(t: Tables, day: Day, totals: Totals)
    ensures Days(Snapshotted(t, day, totals)) == Days(t) + {day}
  {
  }

  lemma NoRowNoCount(t: Tables, day: Day, c: Cell)
    ensures day !in Days(t) ==> Value(DayTotals(t, day), c) == 0
  {
  }

  /** One operation conserves every counter: persisted, unsaved and lost counts grow by the counts made. */
  lemma StepConserves(w: World, op: Op, c: Cell)
    requires Inv(w) && Counts(w, op) && (Dated(op) ==> w.baseDay.value <= op.today)
    ensures Step(w, op).baseDay.Some?
    ensures Persisted(Step(w, op).tables, c) + Unsaved(Step(w, op), c) + LostBy(w, op, c)
            == Persisted(w.tables, c) + Unsaved(w, c) + MadeBy(w, op, c)
    ensures Unsaved(Step(w, op), c) >= 0
  {
    assert Unsaved(w, c) >= 0;
    match op
    case Count(session) => assert Value(w.session, c) <= Value(session, c);
    case Save(today, ok, read, reached) => SaveMeanwhileConserves(w, today, ok, read, reached, c);
    case Restart(today) => RestartConserves(w, today, c);
  }

  lemma SaveMeanwhileConserves(w: World, today: Day, ok: bool, read: Totals, reached: Totals, c: Cell)
    requires Inv(w) && w.baseDay.value <= today && Grown(w.session, read) && Grown(read, reached)
    ensures var after, op := SavedMeanwhile(w, today, ok, read, reached), Save(today, ok, read, reached);
            after.baseDay.Some? && Unsaved(after, c) >= 0
            && Persisted(after.tables, c) + Unsaved(after, c) + LostBy(w, op, c)
               == Persisted(w.tables, c) + Unsaved(w, c) + MadeBy(w, op, c)
  {
    var seen := w.(session := read);
    forall d: Cell ensures Unsaved(seen, d) >= 0 {
      assert Unsaved(w, d) >= 0 && Value(w.session, d) <= Value(read, d);
    }
    SaveConserves(seen, today, ok, c);
    assert Value(w.session, c) <= Value(read, c) <= Value(reached, c);
    hide Value, DayTotals, Snapshot, Snapshotted, Persisted, Days;
  }

  lemma SaveConserves(w: World, today: Day, ok: bool, c: Cell)
    requires Inv(w) && w.baseDay.value <= today
    ensures var after := Saved(w, today, ok);
            after.baseDay.Some? && Unsaved(after, c) >= 0
            && Persisted(after.tables, c) + Unsaved(after, c) == Persisted(w.tables, c) + Unsaved(w, c)
  {
    SnapshotValue(w, c);
    SnapshottedPersisted(w.tables, w.baseDay.value, Snapshot(w), c);
    SnapshottedDay(w.tables, w.baseDay.value, Snapshot(w), today);
    assert Unsaved(w, c) >= 0;
    if today != w.baseDay.value { NoRowNoCount(w.tables, today, c); }
    assert Value(NOTHING, c) == 0;
    hide Value, DayTotals, Snapshot, Snapshotted, Persisted, Days;
  }

  lemma RestartConserves(w: World, today: Day, c: Cell)
    ensures var after := Restarted(w, today);
            after.baseDay.Some? && after.tables == w.tables && Unsaved(after, c) == 0
  {
    assert Value(NOTHING, c) == 0;
    hide Value, DayTotals;
  }

  lemma StepInv(w: World, op: Op)
    requires Inv(w) && Counts(w, op) && (Dated(op) ==> w.baseDay.value <= op.today)
    ensures Inv(Step(w, op))
  {
    forall c ensures Step(w, op).baseDay.Some? && Unsaved(Step(w, op), c) >= 0 { StepConserves(w, op, c); }
    hide Unsaved;
    forall d | d in Days(Step(w, op).tables) ensures d <= Step(w, op).baseDay.value {
      assert d in Days(w.tables) || d == w.baseDay.value;
    }
  }

  lemma {:induction false} BaseDayIsPast(w: World, ops: seq<Op>, limit: Day)
    requires w.baseDay.Some? && w.baseDay.value <= limit
    requires forall i :: 0 <= i < |ops| && Dated(ops[i]) ==> ops[i].today <= limit
    ensures Run(w, ops).baseDay.Some? && Run(w, ops).baseDay.value <= limit
  {
    if ops == [] {
    } else {
      BaseDayIsPast(w, ops[..|ops| - 1], limit);
    }
  }

  lemma {:induction false} RunInv(w: World, ops: seq<Op>)
    requires Inv(w) && InOrder(w.baseDay.value, ops) && CountsOnly(w, ops)
    ensures Inv(Run(w, ops))
  {
    if ops == [] {
    } else {
      var before, op := ops[..|ops| - 1], ops[|ops| - 1];
      assert forall i :: 0 <= i < |before| ==> before[i] == ops[i];
      RunInv(w, before);
      if Dated(op) { BaseDayIsPast(w, before, op.today); }
      StepInv(Run(w, before), op);
    }
  }

  /**
   * Over any run of counts, saves, failed saves, crashes and restarts whose UTC days never go back,
   * with batches counting through every save: for each counter and each reason, the persisted totals
   * over all days, the unsaved counts and the lost counts add up to all counts made, and no row
   * exists for a day after baseDay. Counts are lost in crashes, and between the snapshot and the
   * reset of a rollover, and nowhere else.
   */
  lemma {:induction false} Conservation(w: World, ops: seq<Op>, c: Cell)
    requires Inv(w) && InOrder(w.baseDay.value, ops) && CountsOnly(w, ops)
    ensures Inv(Run(w, ops))
    ensures Persisted(Run(w, ops).tables, c) + Unsaved(Run(w, ops), c) + Lost(w, ops, c)
            == Persisted(w.tables, c) + Unsaved(w, c) + Made(w, ops, c)
  {
    RunInv(w, ops);
    if ops == [] {
    } else {
      var before, op := ops[..|ops| - 1], ops[|ops| - 1];
      assert forall i :: 0 <= i < |before| ==> before[i] == ops[i];
      Conservation(w, before, c);
      if Dated(op) { BaseDayIsPast(w, before, op.today); }
      StepConserves(Run(w, before), op, c);
    }
  }

  /** A save never takes anything away from a persisted row. */
  lemma SaveOnlyAdds(w: World, today: Day, ok: bool, d: Day, c: Cell)
    requires Inv(w)
    ensures Value(DayTotals(w.tables, d), c) <= Value(DayTotals(Saved(w, today, ok).tables, d), c)
  {
    SnapshotValue(w, c);
    SnapshottedDay(w.tables, w.baseDay.value, Snapshot(w), d);
    assert Unsaved(w, c) >= 0;
    hide Value, DayTotals, Snapshot, Snapshotted;
  }

  /** The day's totals continue across a restart: nothing that was saved is lost or counted twice. */
  lemma RestartContinues(w: World, today: Day, c: Cell)
    requires Inv(w) && w.baseDay.value == today
    ensures var after := Restarted(Saved(w, today, true), today);
            Value(after.base, c) + Value(after.session, c) == Value(w.base, c) + Value(w.session, c)
            && Unsaved(after, c) == 0
  {
    SnapshotValue(w, c);
    SnapshottedDay(w.tables, today, Snapshot(w), today);
    assert Value(NOTHING, c) == 0;
    hide Value, DayTotals, Snapshot, Snapshotted;
  }

  /**
   * When the clock goes back to a day that is already stored, the rollover starts that day from
   * zero and the next save replaces its row. Exactly then counts are lost: two saves on the day
   * keep every count if and only if the day is the process's own or has no counts stored.
   */
  lemma RolloverKeepsIff(w: World, today: Day)
    requires w.baseDay.Some?
    ensures (forall c :: Persisted(Saved(Saved(w, today, true), today, true).tables, c)
                         == Persisted(w.tables, c) + Unsaved(w, c))
            <==> (w.baseDay.value == today || forall c :: Value(DayTotals(w.tables, today), c) == 0)
  {
    forall c
      ensures Persisted(Saved(Saved(w, today, true), today, true).tables, c)
              == Persisted(w.tables, c) + Unsaved(w, c)
                 - (if w.baseDay.value == today then 0 else Value(DayTotals(w.tables, today), c))
    {
      RolloverLoses(w, today, c);
    }
  }

  lemma RolloverLoses(w: World, today: Day, c: Cell)
    requires w.baseDay.Some?
    ensures Persisted(Saved(Saved(w, today, true), today, true).tables, c)
            == Persisted(w.tables, c) + Unsaved(w, c)
               - (if w.baseDay.value == today then 0 else Value(DayTotals(w.tables, today), c))
  {
    hide DayTotals, Snapshot, Snapshotted, Persisted;
    var first := Snapshotted(w.tables, w.baseDay.value, Snapshot(w));
    var next := if w.baseDay.value == today then w.(tables := first) else World(first, NOTHING, NOTHING, Some(today));
    assert Saved(w, today, true) == next;
    assert Saved(next, today, true).tables == Snapshotted(first, today, Snapshot(next));
    SnapshotValue(w, c);
    SnapshotValue(next, c);
    SnapshottedDay(w.tables, w.baseDay.value, Snapshot(w), today);
    SnapshottedPersisted(w.tables, w.baseDay.value, Snapshot(w), c);
    SnapshottedPersisted(first, today, Snapshot(next), c);
    assert Value(NOTHING, c) == 0;
  }

  /** A clock that goes back by a day loses the ten records stored for the earlier day. */
  lemma ClockBackLosesCounts()
    ensures var w := World(Tables(map[4 := NO_STATS.(received := 10)], map[4 := map[]]), NOTHING, NOTHING, Some(5));
            Inv(w) && Persisted(w.tables, Received) == 10
            && Persisted(Saved(Saved(w, 4, true), 4, true).tables, Received) == 0
  {
    var w := World(Tables(map[4 := NO_STATS.(received := 10)], map[4 := map[]]), NOTHING, NOTHING, Some(5));
    RolloverLoses(w, 4, Received);
    var rows := map d | d in Days(w.tables) :: Value(DayTotals(w.tables, d), Received);
    assert rows == map[4 := 10];
    SumRemove(rows, 4);
    assert rows - {4} == map[];
  }

  // The persisted books balance too.

  ghost predicate DaysBalanced(t: Tables) { forall d :: Balanced(DayTotals(t, d)) }

  lemma SavedBalanced(w: World, today: Day, ok: bool)
    requires Balanced(w.session) && Balanced(w.base) && DaysBalanced(w.tables)
    ensures var after := Saved(w, today, ok);
            Balanced(after.session) && Balanced(after.base) && DaysBalanced(after.tables)
  {
    hide Balanced, DayTotals, Snapshot, Snapshotted;
    SnapshotBalanced(w);
    NothingBalanced();
    var day := if w.baseDay.Some? then w.baseDay.value else today;
    forall d ensures Balanced(DayTotals(Saved(w, today, ok).tables, d)) {
      SnapshottedDay(w.tables, day, Snapshot(w), d);
    }
  }

  lemma SnapshotBalanced(w: World)
    requires Balanced(w.session) && Balanced(w.base)
    ensures Balanced(Snapshot(w))
  {
    AddedBalanced(w.base, w.session);
    var all := AddReasons(w.base.reasons, w.session.reasons);
    forall kind ensures KindTotal(Trimmed(all), kind) == KindTotal(all, kind) {
      KindTotalSame(Trimmed(all), all, kind);
    }
  }

  lemma NothingBalanced()
    ensures Balanced(NOTHING)
  {
    forall kind ensures KindTotal(map[], kind) == 0 {
      AddNoReasons(map[], kind);
    }
  }
}
