/**
 * The pricing protocol (internal/pricing/service.go): ingest threads commit and then notify, one
 * worker wakes, refreshes the catalog, pages through the queue and writes prices back under a
 * revision check, and a timer retries after a failed cold start. Each step below is atomic; a
 * run is any sequence of enabled steps.
 */
module PricingService {
  import opened Wrappers
  import opened Text
  import opened Generations
  import opened Merge
  import opened Database
  import opened Catalog
  import opened Pricing

  const CACHE_TTL_MS: int := 86400000
  const RETRY_MS: int := 300000

  /** A row of the page being priced, as it was read. */
  datatype Snap = Snap(id: Id, row: Row)

  datatype Worker =
    | Starting
    | Idle
    | Refreshing
    | Scanning(todo: seq<Snap>, after: Id, history: bool)
    | Settling
    | Stopped

  /** The fields of the service that only its worker uses. */
  datatype Memory = Memory(catalog: Prices, fetched: Option<int>, retryAt: Option<int>, loaded: bool,
                           backfillDone: bool)

  datatype State = State(
    rows: Table,
    saved: Option<(Prices, int)>,   // the pricing_catalog table
    jobDone: bool,                  // the historical job's row in pricing_jobs
    owing: set<int>,                // ingest threads between their commit and their notify
    wake: bool,                     // the one-slot channel
    timer: bool,                    // the retry timer is armed
    worker: Worker,
    mem: Memory,
    manual: map<string, ManualPrice>,
    failed: bool)                   // a database operation of the worker has failed

  datatype Step =
    | Commit(thread: int, batch: seq<Record>)
    | Notify(thread: int)
    | AdoptTokens(token: int)
    | Start(readFails: bool)
    | TimerFires
    | Wake
    | Refresh(now: int, later: int, fetch: Option<Prices>, loadFails: bool, saveFails: bool)
    | ReadPage(ids: seq<Id>, now: int)
    | ApplyNext
    | WorkerError
    | Settle(readFails: bool)
    | Cancel

  /** needsPricing: the batch has a record without a harness cost. */
  predicate NeedsPricing(batch: seq<Record>) { exists i :: 0 <= i < |batch| && batch[i].cost.None? }

  predicate HasPending(rows: Table) { exists id :: id in rows && rows[id].pending }

  function Book(s: State): PriceBook { PriceBook(s.mem.catalog, s.mem.fetched, s.manual) }

  predicate FreshCatalog(m: Memory, now: int) { m.fetched.Some? && now < m.fetched.value + CACHE_TTL_MS }

  ghost predicate Enabled(s: State, step: Step) {
    match step
    case Commit(thread, batch) => thread !in s.owing && forall i :: 0 <= i < |batch| ==> batch[i].id != ""
    case Notify(thread) => thread in s.owing
    case AdoptTokens(_) => true
    case Start(_) => s.worker.Starting?
    case TimerFires => s.worker.Idle? && s.timer
    case Wake => s.worker.Idle? && s.wake
    case Refresh(_, _, fetch, _, _) => s.worker.Refreshing? && (fetch.Some? ==> fetch.value != map[])
    case ReadPage(ids, _) =>
      s.worker.Scanning? && s.worker.todo == [] && IsPage(s.rows, s.worker.after, s.worker.history, ids)
    case ApplyNext => s.worker.Scanning? && s.worker.todo != []
    case WorkerError => s.worker.Scanning?
    case Settle(_) => s.worker.Settling?
    case Cancel => !s.worker.Stopped?
  }

  /** The cached catalog is read once per process. */
  function LoadedMemory(m: Memory, saved: Option<(Prices, int)>): Memory {
    if m.loaded then m
    else if saved.None? then m.(loaded := true)
    else Memory(saved.value.0, Some(saved.value.1), m.retryAt, true, m.backfillDone)
  }

  /** refresh after loading: fetches unless the catalog is fresh or a failed fetch is cooling down. */
  predicate Fetches(m: Memory, now: int) { !FreshCatalog(m, now) && (m.retryAt.Some? ==> now >= m.retryAt.value) }

  /** refresh: what the worker remembers afterwards. */
  function RefreshedMemory(m: Memory, saved: Option<(Prices, int)>, now: int, later: int, fetch: Option<Prices>,
                           loadFails: bool, saveFails: bool): Memory {
    if !m.loaded && loadFails then m
    else
      var l := LoadedMemory(m, saved);
      if !Fetches(l, now) then l
      else if fetch.None? || saveFails then l.(retryAt := Some(now + RETRY_MS))
      else Memory(fetch.value, Some(later), None, true, l.backfillDone)
  }

  /** refresh: a fetched catalog is saved before it is used. */
  function Refreshed(s: State, now: int, later: int, fetch: Option<Prices>, loadFails: bool, saveFails: bool): State {
    var loads := s.mem.loaded || !loadFails;
    var fetches := loads && Fetches(LoadedMemory(s.mem, s.saved), now) && fetch.Some?;
    s.(mem := RefreshedMemory(s.mem, s.saved, now, later, fetch, loadFails, saveFails),
       saved := if fetches && !saveFails then Some((fetch.value, later)) else s.saved,
       failed := s.failed || !loads || (fetches && saveFails),
       worker := Scanning([], "", false))
  }

  ghost function Snaps(rows: Table, ids: seq<Id>): seq<Snap>
    requires forall i :: 0 <= i < |ids| ==> ids[i] in rows
  {
    seq(|ids|, i requires 0 <= i < |ids| => Snap(ids[i], rows[ids[i]]))
  }

  /** PendingPricing or MissingHistoricalCosts came back: price the page, go on to the historical job, or finish. */
  ghost function AfterPage(s: State, page: seq<Snap>, now: int): Worker
    requires s.worker.Scanning?
  {
    if page != [] then Scanning(page, s.worker.after, s.worker.history)
    else if s.worker.history || s.mem.backfillDone || s.jobDone || !FreshCatalog(s.mem, now) then Settling
    else Scanning([], "", true)
  }

  ghost function PageRead(s: State, page: seq<Snap>, now: int): State
    requires s.worker.Scanning?
  {
    var jobEnds := page == [] && s.worker.history;
    var jobSeenDone := page == [] && !s.worker.history && s.jobDone && FreshCatalog(s.mem, now);
    s.(worker := AfterPage(s, page, now), jobDone := s.jobDone || jobEnds,
       mem := s.mem.(backfillDone := s.mem.backfillDone || jobEnds || jobSeenDone))
  }

  /** A queued row is left alone while there is no catalog and no price for it. */
  predicate Skips(s: State, snap: Snap, history: bool) {
    !history && s.mem.catalog == map[] && Enriched(Book(s), snap.row).cost.None?
  }

  /** One row of the page: skipped, or priced and written back. */
  function Applied(s: State): State
    requires s.worker.Scanning? && s.worker.todo != []
  {
    var snap, history := s.worker.todo[0], s.worker.history;
    s.(worker := Scanning(s.worker.todo[1..], snap.id, history),
       rows := if Skips(s, snap, history) || snap.id !in s.rows then s.rows
               else s.rows[snap.id := Priced(s.rows[snap.id], Enriched(Book(s), snap.row))])
  }

  /** After processing: the old timer is stopped, and re-armed while a cold cache leaves rows pending. */
  function Settled(s: State, readFails: bool): State {
    var checks := s.mem.catalog == map[] && s.mem.retryAt.Some?;
    s.(worker := Idle, timer := checks && !readFails && HasPending(s.rows), failed := s.failed || (checks && readFails))
  }

  ghost function Next(s: State, step: Step): State
    requires Enabled(s, step)
  {
    match step
    case Commit(thread, batch) =>
      s.(rows := Loaded(s.rows, batch), owing := if NeedsPricing(batch) then s.owing + {thread} else s.owing)
    case Notify(thread) => s.(owing := s.owing - {thread}, wake := true)
    case AdoptTokens(token) => s.(rows := map id | id in s.rows :: Adopted(s.rows[id], token))
    case Start(readFails) =>
      if readFails then s.(worker := Idle, failed := true) else s.(worker := Idle, wake := s.wake || HasPending(s.rows))
    case TimerFires => s.(timer := false, wake := true)
    case Wake => s.(wake := false, worker := Refreshing)
    case Refresh(now, later, fetch, loadFails, saveFails) =>
      Refreshed(s, now, later, fetch, loadFails, saveFails)
    case ReadPage(ids, now) => PageRead(s, Snaps(s.rows, ids), now)
    case ApplyNext => Applied(s)
    case WorkerError => s.(worker := Settling, failed := true)
    case Settle(readFails) => Settled(s, readFails)
    case Cancel => s.(worker := Stopped)
  }

  /** A process start, over whatever rows earlier runs left. */
  ghost predicate Init(s: State) {
    && (forall id :: id in s.rows ==> id != "" && PriceOk(s.rows[id]))
    && (s.saved.Some? ==> s.saved.value.0 != map[])
    && ManualIsFlat(s.manual)
    && s.owing == {} && !s.wake && !s.timer && s.worker.Starting?
    && s.mem == Memory(map[], None, None, false, false) && !s.failed
  }

  // Safety of prices, with and without database errors.

  /** A page entry either still is its row, or a merge has moved the row on to a later revision. */
  ghost predicate SnapOk(rows: Table, snap: Snap) {
    snap.id in rows && rows[snap.id].revision >= snap.row.revision
    && (rows[snap.id].revision == snap.row.revision ==> Unmoved(rows[snap.id], snap.row))
  }

  ghost predicate PageOk(s: State) {
    s.worker.Scanning? ==>
      && (forall i :: 0 <= i < |s.worker.todo| ==> SnapOk(s.rows, s.worker.todo[i]))
      && (forall i, j :: 0 <= i < j < |s.worker.todo| ==> Less(s.worker.todo[i].id, s.worker.todo[j].id))
      && (forall i :: 0 <= i < |s.worker.todo| ==> Less(s.worker.after, s.worker.todo[i].id))
  }

  ghost predicate RowsOk(s: State) { forall id :: id in s.rows ==> id != "" && PriceOk(s.rows[id]) }

  ghost predicate Safe(s: State) { RowsOk(s) && PageOk(s) && ManualIsFlat(s.manual) }

  lemma {:induction false} LoadedRow(rows: Table, batch: seq<Record>, id: Id)
    requires forall id :: id in rows ==> id != "" && PriceOk(rows[id])
    requires forall i :: 0 <= i < |batch| ==> batch[i].id != ""
    ensures var after := Loaded(rows, batch);
            && (id in after ==> id != "" && PriceOk(after[id]))
            && (id in rows ==> id in after && after[id].revision >= rows[id].revision
                               && (after[id].revision == rows[id].revision ==> after[id] == rows[id])
                               && (rows[id].rates.Some? ==> after[id].harness || after[id].rates == rows[id].rates)
                               && (rows[id].harness ==> after[id].harness))
            && (id in after && after[id].pending && !NeedsPricing(batch) ==> id in rows && after[id] == rows[id])
  {
    if batch == [] {
    } else {
      var prefix, last := batch[..|batch| - 1], batch[|batch| - 1];
      LoadedRow(rows, prefix, id);
      var before := Loaded(rows, prefix);
      if last.id == id {
        InsertedPriceOk(last);
        if id in before { MergedPriceOk(before[id], last); }
      }
      if !NeedsPricing(batch) {
        assert last.cost.Some?;
        assert !NeedsPricing(prefix) by {
          forall i | 0 <= i < |prefix| ensures prefix[i].cost.Some? { assert prefix[i] == batch[i]; }
        }
      }
    }
  }

  lemma CommitSafe(s: State, thread: int, batch: seq<Record>)
    requires Safe(s) && Enabled(s, Commit(thread, batch))
    ensures Safe(Next(s, Commit(thread, batch)))
  {
    var after := Loaded(s.rows, batch);
    forall id | id in after ensures id != "" && PriceOk(after[id]) { LoadedRow(s.rows, batch, id); }
    if s.worker.Scanning? {
      forall i | 0 <= i < |s.worker.todo| ensures SnapOk(after, s.worker.todo[i]) {
        assert SnapOk(s.rows, s.worker.todo[i]);
        LoadedRow(s.rows, batch, s.worker.todo[i].id);
      }
    }
  }

  lemma AdoptSafe(s: State, token: int)
    requires Safe(s)
    ensures Safe(Next(s, AdoptTokens(token)))
  {
    hide Estimate;
    forall id | id in s.rows ensures PriceOk(Adopted(s.rows[id], token)) { AdoptedPriceOk(s.rows[id], token); }
    if s.worker.Scanning? {
      forall i | 0 <= i < |s.worker.todo| ensures SnapOk(Next(s, AdoptTokens(token)).rows, s.worker.todo[i]) {
        assert SnapOk(s.rows, s.worker.todo[i]);
      }
    }
  }

  lemma PageReadSafe(s: State, ids: seq<Id>, now: int)
    requires Safe(s) && s.worker.Scanning? && s.worker.todo == []
            && IsPage(s.rows, s.worker.after, s.worker.history, ids)
    ensures Safe(PageRead(s, Snaps(s.rows, ids), now))
  {
    hide PriceOk, Less;
    var page := Snaps(s.rows, ids);
    forall i | 0 <= i < |page| ensures SnapOk(s.rows, page[i]) && page[i].id == ids[i] {
      SnapOfRow(s.rows, ids[i]);
    }
  }

  lemma SnapOfRow(rows: Table, id: Id)
    requires id in rows
    ensures SnapOk(rows, Snap(id, rows[id]))
  {
  }

  lemma ApplySafe(s: State)
    requires Safe(s) && Enabled(s, ApplyNext)
    ensures Safe(Next(s, ApplyNext))
  {
    hide PriceOk, Enriched, Priced, Less, Loaded, Adopted, Refreshed;
    var snap, rest, next := s.worker.todo[0], s.worker.todo[1..], Next(s, ApplyNext);
    assert SnapOk(s.rows, snap);
    PricedPriceOk(Book(s), s.rows[snap.id], snap.row);
    forall i | 0 <= i < |rest| ensures SnapOk(next.rows, rest[i]) && Less(snap.id, rest[i].id) {
      assert rest[i] == s.worker.todo[i + 1];
      assert Less(s.worker.todo[0].id, s.worker.todo[i + 1].id);
      assert SnapOk(s.rows, rest[i]);
      LessTotal(snap.id, rest[i].id);
    }
    forall i, j | 0 <= i < j < |rest| ensures Less(rest[i].id, rest[j].id) {
      assert Less(s.worker.todo[i + 1].id, s.worker.todo[j + 1].id);
    }
  }

  lemma StepSafe(s: State, step: Step)
    requires Safe(s) && Enabled(s, step)
    ensures Safe(Next(s, step))
  {
    hide PriceOk, Enriched, Priced, Loaded, Adopted, IsPage, Less;
    match step
    case Commit(thread, batch) => CommitSafe(s, thread, batch);
    case AdoptTokens(token) => AdoptSafe(s, token);
    case ReadPage(ids, now) => PageReadSafe(s, ids, now);
    case ApplyNext => ApplySafe(s);
    case _ =>
  }

  /** A run: every step is enabled and leads to the next state. */
  ghost predicate IsRun(states: seq<State>, steps: seq<Step>) {
    && |states| == |steps| + 1 && Init(states[0])
    && forall i :: 0 <= i < |steps| ==> Enabled(states[i], steps[i]) && states[i + 1] == Next(states[i], steps[i])
  }

  lemma {:induction false} RunSafe(states: seq<State>, steps: seq<Step>, i: nat)
    requires IsRun(states, steps) && i < |states|
    ensures Safe(states[i])
  {
    if i == 0 {
    } else {
      RunSafe(states, steps, i - 1);
      StepSafe(states[i - 1], steps[i - 1]);
    }
  }

  /**
   * In every state of every run, even one with database errors, a row that is not queued and has
   * an OpenRouter or manual cost carries exactly the estimate of its current usage and timestamp
   * under its saved rates, whenever that estimate is defined, and its model is not a free one; a
   * free cost is zero and its model is free.
   */
  lemma PricesAreExact(states: seq<State>, steps: seq<Step>, i: nat, id: Id)
    requires IsRun(states, steps) && i < |states| && id in states[i].rows
    ensures var row := states[i].rows[id];
            && (Estimated(row) && !row.pending ==>
                  row.rates.Some? && !FreeModel(row.model.GetOr(""))
                  && (Estimate(row, row.rates.value).Some? ==> row.cost == Estimate(row, row.rates.value)))
            && (row.costSource == Free ==> row.cost == Some(0.0) && FreeModel(row.model.GetOr("")))
  {
    RunSafe(states, steps, i);
    assert PriceOk(states[i].rows[id]);
  }

  lemma RatesStayInStep(s: State, step: Step, id: Id)
    requires Safe(s) && Enabled(s, step) && id in s.rows
    ensures id in Next(s, step).rows
    ensures s.rows[id].harness ==> Next(s, step).rows[id].harness
    ensures s.rows[id].rates.Some? ==>
              Next(s, step).rows[id].harness || Next(s, step).rows[id].rates == s.rows[id].rates
  {
    hide PriceOk, Loaded, Estimate, Less, IsPage;
    match step
    case Commit(_, batch) => LoadedRow(s.rows, batch, id);
    case ApplyNext =>
      assert SnapOk(s.rows, s.worker.todo[0]);
    case _ =>
  }

  /** Saved rates never change until a harness cost clears them. */
  lemma FinalHasNoRates(row: Row)
    ensures PriceOk(row) && row.harness ==> row.rates.None?
  {
  }

  lemma {:induction false} SavedRatesStay(states: seq<State>, steps: seq<Step>, i: nat, j: nat, id: Id)
    requires IsRun(states, steps) && i <= j < |states|
    requires id in states[i].rows && states[i].rows[id].rates.Some?
    ensures id in states[j].rows
    ensures if states[j].rows[id].harness then states[j].rows[id].rates.None?
            else states[j].rows[id].rates == states[i].rows[id].rates
    decreases j - i
  {
    hide Next, Enabled, Init, PriceOk, PageOk;
    if i == j {
    } else {
      SavedRatesStay(states, steps, i, j - 1, id);
      RunSafe(states, steps, j - 1);
      RatesStayInStep(states[j - 1], steps[j - 1], id);
    }
    RunSafe(states, steps, j);
    FinalHasNoRates(states[j].rows[id]);
  }

  // Every row is the outcome of its history.

  /** What a step does to one row. */
  function EventsOf(s: State, step: Step, id: Id): seq<Event> {
    match step
    case Commit(_, batch) => DeliveriesTo(batch, id)
    case AdoptTokens(token) => [Adopt(token)]
    case ApplyNext =>
      if s.worker.Scanning? && s.worker.todo != [] && s.worker.todo[0].id == id
         && (s.worker.history || s.mem.catalog != map[] || Enriched(Book(s), s.worker.todo[0].row).cost.Some?) then
        [Price(Enriched(Book(s), s.worker.todo[0].row))]
      else []
    case _ => []
  }

  /** What the first steps of a run do to one row. */
  function History(states: seq<State>, steps: seq<Step>, i: nat, id: Id): seq<Event>
    requires i <= |steps| && i < |states|
  {
    if i == 0 then [] else History(states, steps, i - 1, id) + EventsOf(states[i - 1], steps[i - 1], id)
  }

  lemma StepIsHistory(s: State, step: Step, id: Id)
    requires Enabled(s, step)
    ensures RowOf(Next(s, step).rows, id) == Replay(RowOf(s.rows, id), EventsOf(s, step, id))
  {
    hide Loaded, Adopted, Priced, Enriched, IsPage, Less, RefreshedMemory, Inserted, Merged;
    match step
    case Commit(_, batch) => LoadedIsReplay(s.rows, batch, id);
    case AdoptTokens(token) => ReplayOne(RowOf(s.rows, id), Adopt(token));
    case ApplyNext =>
      if EventsOf(s, step, id) != [] {
        ReplayOne(RowOf(s.rows, id), Price(Enriched(Book(s), s.worker.todo[0].row)));
      }
    case _ =>
  }

  lemma ReplayOne(row: Option<Row>, e: Event)
    ensures Replay(row, [e]) == match row
              case Some(r) => Some(Happens(r, e))
              case None => if e.Deliver? then Some(Inserted(e.g)) else None
  {
    assert [e][..0] == [];
  }

  /**
   * In every state of every run, each row is what its own history makes of it: the deliveries of the
   * committed batches, the adoptions and the prices written, in the order of the steps. Everything
   * proved about histories holds of the rows the worker and the ingest threads interleave on.
   */
  lemma {:induction false} RowsAreHistories(states: seq<State>, steps: seq<Step>, i: nat, id: Id)
    requires IsRun(states, steps) && i < |states|
    ensures RowOf(states[i].rows, id) == Replay(RowOf(states[0].rows, id), History(states, steps, i, id))
  {
    hide Next, Enabled, Init, EventsOf;
    if i == 0 {
    } else {
      RowsAreHistories(states, steps, i - 1, id);
      StepIsHistory(states[i - 1], steps[i - 1], id);
      ReplayJoins(RowOf(states[0].rows, id), History(states, steps, i - 1, id),
                  EventsOf(states[i - 1], steps[i - 1], id));
    }
  }

  // The catalog in memory.

  /** What the worker has of the catalog once it has loaded it. */
  function Cached(s: State): Option<(Prices, int)> {
    if s.mem.fetched.None? then None else Some((s.mem.catalog, s.mem.fetched.value))
  }

  predicate MemoryOk(s: State) {
    if s.mem.loaded then s.saved == Cached(s) && (s.mem.fetched.None? ==> s.mem.catalog == map[])
    else s.mem.catalog == map[] && s.mem.fetched.None?
  }

  lemma RefreshedIsSaved(s: State, now: int, later: int, fetch: Option<Prices>, loadFails: bool, saveFails: bool)
    requires MemoryOk(s)
    ensures MemoryOk(Refreshed(s, now, later, fetch, loadFails, saveFails))
  {
    hide FreshCatalog;
  }

  lemma StepMemory(s: State, step: Step)
    requires MemoryOk(s) && Enabled(s, step)
    ensures MemoryOk(Next(s, step))
  {
    hide Loaded, Adopted, Priced, Enriched, IsPage, Less, Snaps, Refreshed;
    match step
    case Refresh(now, later, fetch, loadFails, saveFails) =>
      RefreshedIsSaved(s, now, later, fetch, loadFails, saveFails);
    case _ =>
  }

  /** The worker prices with what is saved: its memory is the saved catalog in every state of every run. */
  lemma {:induction false} MemoryIsSaved(states: seq<State>, steps: seq<Step>, i: nat)
    requires IsRun(states, steps) && i < |states|
    ensures MemoryOk(states[i])
  {
    hide Next, Enabled, MemoryOk;
    if i == 0 {
      assert MemoryOk(states[0]) by { StartsEmpty(states[0]); }
    } else {
      MemoryIsSaved(states, steps, i - 1);
      StepMemory(states[i - 1], steps[i - 1]);
    }
  }

  lemma StartsEmpty(s: State)
    requires Init(s)
    ensures MemoryOk(s)
  {
  }

  /**
   * A refresh fetches exactly when the saved catalog is a day old or missing and no failed fetch is
   * five minutes young: a fetched and saved catalog replaces the saved one and ends the cool-down, a
   * failed one keeps it and starts the next. Otherwise nothing changes.
   */
  lemma RefreshWhenStale(s: State, now: int, later: int, fetch: Option<Prices>, loadFails: bool, saveFails: bool)
    requires MemoryOk(s) && Enabled(s, Refresh(now, later, fetch, loadFails, saveFails))
    ensures var next := Next(s, Refresh(now, later, fetch, loadFails, saveFails));
            var due := (s.mem.loaded || !loadFails) && (s.saved.Some? ==> now >= s.saved.value.1 + CACHE_TTL_MS)
                       && (s.mem.retryAt.Some? ==> now >= s.mem.retryAt.value);
            && next.saved == (if due && fetch.Some? && !saveFails then Some((fetch.value, later)) else s.saved)
            && next.mem.retryAt == (if !due then s.mem.retryAt
                                    else if fetch.Some? && !saveFails then None
                                    else Some(now + RETRY_MS))
            && next.mem.loaded == (s.mem.loaded || !loadFails) && next.mem.backfillDone == s.mem.backfillDone
            && next.rows == s.rows && next.jobDone == s.jobDone
  {
  }

  // The worker's loop.

  /** Where each step takes the worker; those of other threads and of the timer leave it where it is. */
  lemma WorkerGoesRound(s: State, step: Step)
    requires Enabled(s, step)
    ensures var next := Next(s, step);
            match step
            case Start(_) => next.worker.Idle?
            case Wake => next.worker.Refreshing? && !next.wake
            case Refresh(_, _, _, _, _) => next.worker == Scanning([], "", false)
            case ReadPage(ids, now) =>
              if ids != [] then next.worker.Scanning? && |next.worker.todo| == |ids|
                                && next.worker.after == s.worker.after && next.worker.history == s.worker.history
              else if !s.worker.history && !s.jobDone && !s.mem.backfillDone && FreshCatalog(s.mem, now) then
                next.worker == Scanning([], "", true)
              else next.worker.Settling?
            case ApplyNext =>
              next.worker == Scanning(s.worker.todo[1..], s.worker.todo[0].id, s.worker.history)
            case WorkerError => next.worker.Settling?
            case Settle(_) => next.worker.Idle?
            case Cancel => next.worker.Stopped?
            case Notify(thread) => next.worker == s.worker && next.wake && next.owing == s.owing - {thread}
            case _ => next.worker == s.worker
  {
    hide Loaded, Adopted, Priced, Enriched, IsPage, Less, RefreshedMemory;
  }

  predicate TimerOk(s: State) {
    s.worker.Idle? && s.timer ==> s.mem.catalog == map[] && s.mem.retryAt.Some?
  }

  /**
   * No busy retry: the timer of an idle worker is armed only while it has no catalog and a failed
   * fetch cools down, and settling arms it then exactly for pending rows.
   */
  lemma TimerOnlyWhenCold(s: State, step: Step)
    requires TimerOk(s) && Enabled(s, step) && (s.worker.Starting? ==> !s.timer)
    ensures TimerOk(Next(s, step)) && (Next(s, step).worker.Starting? ==> !Next(s, step).timer)
    ensures step.Settle? && !step.readFails ==>
              (Next(s, step).timer <==> s.mem.catalog == map[] && s.mem.retryAt.Some?
                                        && exists id :: id in s.rows && s.rows[id].pending)
    ensures step.TimerFires? ==> !Next(s, step).timer && Next(s, step).wake
  {
    hide Loaded, Adopted, Priced, Enriched, IsPage, Less, RefreshedMemory;
  }

  /** The historical job is under way only until it is done. */
  predicate JobOk(s: State) { s.worker.Scanning? && s.worker.history ==> !s.jobDone && !s.mem.backfillDone }

  lemma StepJob(s: State, step: Step)
    requires JobOk(s) && Enabled(s, step)
    ensures JobOk(Next(s, step)) && (s.jobDone ==> Next(s, step).jobDone)
    ensures Next(s, step).jobDone && !s.jobDone ==>
              step.ReadPage? && step.ids == [] && s.worker.Scanning? && s.worker.history
    ensures step.ReadPage? && step.ids == [] && s.worker.Scanning? && s.worker.history ==> Next(s, step).jobDone
  {
    hide Loaded, Adopted, Priced, Enriched, Less;
  }

  /**
   * The historical job runs once: after the page that ends it no worker scans for it again, and
   * nothing else ends it.
   */
  lemma {:induction false} JobEndsOnce(states: seq<State>, steps: seq<Step>, i: nat, j: nat)
    requires IsRun(states, steps) && i < j < |states|
    requires steps[i].ReadPage? && steps[i].ids == [] && states[i].worker.Scanning? && states[i].worker.history
    ensures states[j].jobDone && !(states[j].worker.Scanning? && states[j].worker.history)
    decreases j
  {
    hide Next, Enabled, Init;
    RunJob(states, steps, j - 1);
    StepJob(states[j - 1], steps[j - 1]);
    if j == i + 1 {
    } else {
      JobEndsOnce(states, steps, i, j - 1);
    }
  }

  lemma {:induction false} RunJob(states: seq<State>, steps: seq<Step>, i: nat)
    requires IsRun(states, steps) && i < |states|
    ensures JobOk(states[i])
  {
    if i == 0 {
    } else {
      hide Next, Enabled, Init, JobOk;
      RunJob(states, steps, i - 1);
      StepJob(states[i - 1], steps[i - 1]);
    }
  }

  // Where saved rates come from.

  /** A batch gives no row rates, and leaves those that stay with their price. */
  lemma {:induction false} LoadedPrice(rows: Table, batch: seq<Record>, id: Id)
    ensures var after := Loaded(rows, batch);
            id in after && after[id].rates.Some? ==> id in rows && (after[id].harness || SamePrice(rows[id], after[id]))
  {
    if batch == [] {
    } else {
      LoadedPrice(rows, batch[..|batch| - 1], id);
    }
  }

  /** The worker gives the row rates, which it finds in its book. */
  ghost predicate GivesRates(s: State, step: Step, next: State, id: Id) {
    && step.ApplyNext? && s.worker.Scanning? && s.worker.todo != [] && s.worker.todo[0].id == id
    && id in s.rows && s.rows[id].rates.None? && id in next.rows && PricedFrom(Book(s), next.rows[id])
  }

  lemma RatesApplied(s: State, id: Id)
    requires Safe(s) && Enabled(s, ApplyNext) && id in Applied(s).rows && Applied(s).rows[id].rates.Some?
    ensures id in s.rows && (SamePrice(s.rows[id], Applied(s).rows[id]) || GivesRates(s, ApplyNext, Applied(s), id))
  {
    hide Less, Enriched, PriceOk, PricedFrom;
    var snap := s.worker.todo[0];
    assert SnapOk(s.rows, snap);
    if id == snap.id && Applied(s).rows[id] == Priced(s.rows[id], Enriched(Book(s), snap.row)) {
      RatesFromBook(Book(s), s.rows[id], snap.row);
    }
    hide Priced;
  }

  lemma RatesInStep(s: State, step: Step, id: Id)
    requires Safe(s) && Enabled(s, step) && id in Next(s, step).rows && Next(s, step).rows[id].rates.Some?
    ensures id in s.rows
    ensures SamePrice(s.rows[id], Next(s, step).rows[id]) || GivesRates(s, step, Next(s, step), id)
  {
    hide PriceOk, Less, IsPage, Loaded, RefreshedMemory, GivesRates, PageOk, Applied;
    match step
    case Commit(thread, batch) =>
      LoadedPrice(s.rows, batch, id);
      CommitSafe(s, thread, batch);
      FinalHasNoRates(Next(s, step).rows[id]);
    case ApplyNext => RatesApplied(s, id);
    case _ =>
  }

  /**
   * In every state of every run, the saved rates of a row are those it had when the process started,
   * or the worker found them since, for the model the row had then: in the catalog it had fetched
   * last, and only for a model not in it among the manual prices.
   */
  lemma {:induction false} RatesAreFromBook(states: seq<State>, steps: seq<Step>, i: nat, id: Id)
    requires IsRun(states, steps) && i < |states| && id in states[i].rows && states[i].rows[id].rates.Some?
    ensures (id in states[0].rows && SamePrice(states[0].rows[id], states[i].rows[id]))
            || exists k :: 0 <= k < i && GivesRates(states[k], steps[k], states[k + 1], id)
                           && SamePrice(states[k + 1].rows[id], states[i].rows[id])
  {
    hide Next, Enabled, Init, Safe, GivesRates;
    if i == 0 {
    } else {
      RunSafe(states, steps, i - 1);
      RatesInStep(states[i - 1], steps[i - 1], id);
      if SamePrice(states[i - 1].rows[id], states[i].rows[id]) {
        RatesAreFromBook(states, steps, i - 1, id);
      }
    }
  }

  // No row is forgotten without a price.

  /** The row is out of the queue and has no cost. */
  predicate GivenUp(row: Row) { row.cost.None? && !row.pending }

  /** The inputs whose change puts a row without a cost back into the queue. */
  predicate SameInputs(a: Row, b: Row) { a.model == b.model && SameUsage(a, b) }

  /** A batch leaves a row without a cost and out of the queue only if it found it so, with these inputs. */
  lemma {:induction false} LoadedGivenUp(rows: Table, batch: seq<Record>, id: Id)
    requires forall id :: id in rows ==> RowOk(rows[id])
    ensures var after := Loaded(rows, batch);
            && (id in after ==> RowOk(after[id]))
            && (id in after && GivenUp(after[id]) ==>
                  id in rows && GivenUp(rows[id]) && SameInputs(rows[id], after[id]))
  {
    if batch == [] {
    } else {
      var prefix, last := batch[..|batch| - 1], batch[|batch| - 1];
      LoadedGivenUp(rows, prefix, id);
      var before := Loaded(rows, prefix);
      if last.id == id {
        InsertedOk(last);
        if id in before { HappensOk(before[id], Deliver(last)); }
      }
    }
  }

  /** The worker reached the row with a catalog, unmoved since it was read, and its book gave it no price. */
  ghost predicate NoPriceAt(s: State, step: Step, id: Id) {
    && step.ApplyNext? && s.worker.Scanning? && s.worker.todo != [] && s.worker.todo[0].id == id && id in s.rows
    && Unmoved(s.rows[id], s.worker.todo[0].row) && Enriched(Book(s), s.worker.todo[0].row).cost.None?
    && (s.mem.catalog != map[] || s.worker.history)
  }

  lemma GivenUpApplied(s: State, id: Id)
    requires Safe(s) && Enabled(s, ApplyNext) && id in Applied(s).rows && GivenUp(Applied(s).rows[id])
    ensures id in s.rows && SameInputs(s.rows[id], Applied(s).rows[id])
    ensures GivenUp(s.rows[id]) || NoPriceAt(s, ApplyNext, id)
  {
    hide Estimate, Less, Enriched, PriceOk;
    assert SnapOk(s.rows, s.worker.todo[0]);
  }

  lemma GivenUpInStep(s: State, step: Step, id: Id)
    requires Safe(s) && Enabled(s, step) && id in Next(s, step).rows && GivenUp(Next(s, step).rows[id])
    ensures id in s.rows && SameInputs(s.rows[id], Next(s, step).rows[id])
    ensures GivenUp(s.rows[id]) || NoPriceAt(s, step, id)
  {
    hide PriceOk, Less, IsPage, Loaded, RefreshedMemory, NoPriceAt, PageOk, Applied;
    match step
    case Commit(_, batch) =>
      forall id | id in s.rows ensures RowOk(s.rows[id]) { PricedIsOk(s.rows[id]); }
      LoadedGivenUp(s.rows, batch, id);
    case ApplyNext => GivenUpApplied(s, id);
    case _ =>
  }

  lemma PricedIsOk(row: Row)
    requires PriceOk(row)
    ensures RowOk(row)
  {
  }

  /** From one state of a run to another, the row keeps its model and tokens. */
  ghost predicate KeepsInputs(states: seq<State>, from: nat, to: nat, id: Id)
    requires from <= to < |states|
  {
    && id in states[to].rows
    && forall m :: from <= m <= to ==> id in states[m].rows && SameInputs(states[m].rows[id], states[to].rows[id])
  }

  /**
   * No row is forgotten: in every state of every run, a row without a cost that is not queued was
   * reached by the worker since its model and tokens last changed, under a book that gave it no
   * price, or it has been like that since the process started.
   */
  lemma {:induction false} UnpricedWasTried(states: seq<State>, steps: seq<Step>, i: nat, id: Id)
    requires IsRun(states, steps) && i < |states| && id in states[i].rows && GivenUp(states[i].rows[id])
    ensures (KeepsInputs(states, 0, i, id) && GivenUp(states[0].rows[id]))
            || exists k :: 0 <= k < i && NoPriceAt(states[k], steps[k], id) && KeepsInputs(states, k, i, id)
  {
    hide Next, Enabled, Init, Safe, NoPriceAt;
    if i == 0 {
    } else {
      RunSafe(states, steps, i - 1);
      GivenUpInStep(states[i - 1], steps[i - 1], id);
      if NoPriceAt(states[i - 1], steps[i - 1], id) {
        assert KeepsInputs(states, i - 1, i, id);
      } else {
        UnpricedWasTried(states, steps, i - 1, id);
        if KeepsInputs(states, 0, i - 1, id) && GivenUp(states[0].rows[id]) {
          KeepsOn(states, 0, i - 1, id);
        } else {
          var k :| 0 <= k < i - 1 && NoPriceAt(states[k], steps[k], id) && KeepsInputs(states, k, i - 1, id);
          KeepsOn(states, k, i - 1, id);
        }
      }
    }
  }

  lemma KeepsOn(states: seq<State>, from: nat, to: nat, id: Id)
    requires from <= to < |states| - 1 && KeepsInputs(states, from, to, id)
    requires id in states[to + 1].rows && SameInputs(states[to].rows[id], states[to + 1].rows[id])
    ensures KeepsInputs(states, from, to + 1, id)
  {
  }

  // No lost wake-up.

  /** A wake-up is due: it is in the channel, or an ingest thread is about to send it. */
  predicate WakeDue(s: State) { s.wake || s.owing != {} }

  /** The rows the rest of the queue scan will still see as they are. */
  ghost predicate Ahead(s: State, id: Id)
    requires s.worker.Scanning? && id in s.rows
  {
    || (exists i ::
          0 <= i < |s.worker.todo| && s.worker.todo[i].id == id
          && s.worker.todo[i].row.revision == s.rows[id].revision)
    || Less(if s.worker.todo == [] then s.worker.after else s.worker.todo[|s.worker.todo| - 1].id, id)
  }

  /** Why pending rows are not forgotten, at each point of the worker's loop. */
  ghost predicate Covered(s: State) {
    match s.worker
    case Starting => true
    case Idle => WakeDue(s) || s.timer || !HasPending(s.rows)
    case Refreshing => true
    case Scanning(_, _, history) =>
      WakeDue(s) || s.mem.catalog == map[]
      || if history then !HasPending(s.rows) else forall id :: id in s.rows && s.rows[id].pending ==> Ahead(s, id)
    case Settling => WakeDue(s) || s.mem.catalog == map[] || !HasPending(s.rows)
    case Stopped => true
  }

  /** An empty catalog is one whose fetch failed and is cooling down, once the worker has refreshed. */
  ghost predicate CatalogOk(s: State) {
    && (s.saved.Some? ==> s.saved.value.0 != map[])
    && (s.mem.fetched.Some? ==> s.mem.catalog != map[])
    && (!s.mem.loaded ==> s.mem.catalog == map[])
    && (s.mem.loaded && s.mem.catalog == map[] ==> s.mem.retryAt.Some?)
    && (s.worker.Scanning? || s.worker.Settling? ==> s.mem.loaded)
  }

  ghost predicate Live(s: State) { Safe(s) && (s.failed || (Covered(s) && CatalogOk(s))) }

  lemma CommitLive(s: State, thread: int, batch: seq<Record>)
    requires Live(s) && Enabled(s, Commit(thread, batch))
    ensures Live(Next(s, Commit(thread, batch)))
  {
    hide Estimate, PriceOk, IsPage, Less, Adopted, Enriched, Priced;
    var next := Next(s, Commit(thread, batch));
    CommitSafe(s, thread, batch);
    if !NeedsPricing(batch) {
      forall id | id in next.rows && next.rows[id].pending ensures id in s.rows && next.rows[id] == s.rows[id] {
        LoadedRow(s.rows, batch, id);
      }
      if s.worker.Scanning? && !s.failed {
        forall id | id in next.rows && next.rows[id].pending && Ahead(s, id) ensures Ahead(next, id) {}
      }
    }
  }

  lemma AdoptLive(s: State, token: int)
    requires Live(s)
    ensures Live(Next(s, AdoptTokens(token)))
  {
    hide Estimate, PriceOk, IsPage, Less, Loaded, Adopted, Enriched, Priced;
    var next := Next(s, AdoptTokens(token));
    AdoptSafe(s, token);
    AdoptKeepsQueue(s, token);
    hide Ahead;
  }

  /** Adopting a token moves no row into or out of the queue, nor ahead of the scan or behind it. */
  lemma AdoptKeepsQueue(s: State, token: int)
    ensures var next := Next(s, AdoptTokens(token));
            && next.rows.Keys == s.rows.Keys && (HasPending(next.rows) ==> HasPending(s.rows))
            && (forall id :: id in s.rows ==> next.rows[id].pending == s.rows[id].pending)
            && (s.worker.Scanning? ==> forall id :: id in s.rows && Ahead(s, id) ==> Ahead(next, id))
  {
    hide Less;
    var next := Next(s, AdoptTokens(token));
    if HasPending(next.rows) {
      var id :| id in next.rows && next.rows[id].pending;
      assert s.rows[id].pending;
    }
    if s.worker.Scanning? {
      forall id | id in s.rows && Ahead(s, id) ensures Ahead(next, id) {}
    }
  }

  lemma RefreshLive(s: State, now: int, later: int, fetch: Option<Prices>, loadFails: bool, saveFails: bool)
    requires Live(s) && Enabled(s, Refresh(now, later, fetch, loadFails, saveFails))
    ensures Live(Next(s, Refresh(now, later, fetch, loadFails, saveFails)))
  {
    hide PriceOk, Loaded, Adopted, Enriched, Priced, IsPage;
    var next := Next(s, Refresh(now, later, fetch, loadFails, saveFails));
    forall id | id in next.rows ensures Ahead(next, id) {
      assert Less("", id);
    }
  }

  /** The page takes in all pending rows up to its last one. */
  lemma PageLive(s: State, ids: seq<Id>, now: int)
    requires Live(s) && Enabled(s, ReadPage(ids, now))
    ensures Live(Next(s, ReadPage(ids, now)))
  {
    hide PriceOk, Less, Loaded, Adopted, Enriched, Priced, Refreshed;
    var next := Next(s, ReadPage(ids, now));
    PageReadSafe(s, ids, now);
    if !s.failed && !WakeDue(s) && s.mem.catalog != map[] && !s.worker.history {
      forall id | id in s.rows && s.rows[id].pending
        ensures if ids == [] then false else Ahead(next, id)
      {
        assert Ahead(s, id);
        if id in ids {
          var i :| 0 <= i < |ids| && ids[i] == id;
          assert next.worker.todo[i] == Snap(id, s.rows[id]);
        } else {
          assert Less(ids[|ids| - 1], id);
          assert next.worker.todo[|ids| - 1].id == ids[|ids| - 1];
        }
      }
    }
  }

  lemma ApplyLive(s: State)
    requires Live(s) && Enabled(s, ApplyNext)
    ensures Live(Next(s, ApplyNext))
  {
    hide PriceOk, Enriched, Less, Loaded, Adopted, Refreshed, IsPage;
    var snap, rest, next := s.worker.todo[0], s.worker.todo[1..], Next(s, ApplyNext);
    ApplySafe(s);
    assert SnapOk(s.rows, snap);
    if !s.failed && !WakeDue(s) && s.mem.catalog != map[] {
      forall id | id in next.rows && next.rows[id].pending
        ensures s.rows[id].pending && next.rows[id] == s.rows[id]
        ensures !s.worker.history && Ahead(s, id) ==> Ahead(next, id)
      {
        if !s.worker.history && Ahead(s, id) { AheadMovesOn(s, id); }
      }
    }
  }

  /** With a catalog, a queued row that is still as it was read leaves the queue. */
  lemma FirstIsDone(s: State)
    requires Safe(s) && Enabled(s, ApplyNext) && s.mem.catalog != map[]
    requires s.rows[s.worker.todo[0].id].revision == s.worker.todo[0].row.revision
    ensures !Applied(s).rows[s.worker.todo[0].id].pending
  {
    hide Enriched;
    var snap := s.worker.todo[0];
    assert SnapOk(s.rows, snap);
    assert PriceOk(s.rows[snap.id]);
  }

  lemma AheadMovesOn(s: State, id: Id)
    requires Safe(s) && Enabled(s, ApplyNext) && id in s.rows && Ahead(s, id)
    requires s.mem.catalog != map[] && Applied(s).rows[id].pending
    ensures Ahead(Applied(s), id)
  {
    hide PriceOk, Enriched, Priced, Less, SnapOk;
    var todo, next := s.worker.todo, Applied(s);
    var rest := todo[1..];
    if i :| 0 <= i < |todo| && todo[i].id == id && todo[i].row.revision == s.rows[id].revision {
      if i == 0 { FirstIsDone(s); }
      assert Less(todo[0].id, todo[i].id);
      LessTotal(todo[0].id, id);
      assert rest[i - 1] == todo[i];
      assert next.rows[id] == s.rows[id];
    } else if rest != [] {
      assert rest[|rest| - 1] == todo[|todo| - 1];
    }
  }

  lemma StepLive(s: State, step: Step)
    requires Live(s) && Enabled(s, step)
    ensures Live(Next(s, step))
  {
    hide PriceOk, Enriched, Priced, Loaded, Adopted, IsPage, Ahead, Less, SnapOk;
    StepSafe(s, step);
    match step
    case Commit(thread, batch) => CommitLive(s, thread, batch);
    case AdoptTokens(token) => AdoptLive(s, token);
    case Refresh(now, later, fetch, loadFails, saveFails) => RefreshLive(s, now, later, fetch, loadFails, saveFails);
    case ReadPage(ids, now) => PageLive(s, ids, now);
    case ApplyNext => ApplyLive(s);
    case _ =>
  }

  lemma {:induction false} RunLive(states: seq<State>, steps: seq<Step>, i: nat)
    requires IsRun(states, steps) && i < |states|
    ensures Live(states[i])
  {
    if i == 0 {
    } else {
      RunLive(states, steps, i - 1);
      StepLive(states[i - 1], steps[i - 1]);
    }
  }

  /** A step in which a database operation of the worker fails. */
  predicate FailsInDatabase(step: Step) {
    match step
    case Start(readFails) => readFails
    case Refresh(_, _, _, loadFails, saveFails) => loadFails || saveFails
    case WorkerError => true
    case Settle(readFails) => readFails
    case _ => false
  }

  lemma StepWorks(s: State, step: Step)
    requires Enabled(s, step) && !s.failed && !FailsInDatabase(step)
    ensures !Next(s, step).failed
  {
    hide Loaded, Adopted, Priced, Enriched, IsPage, Less, RefreshedMemory, Snaps;
  }

  lemma {:induction false} RunWorks(states: seq<State>, steps: seq<Step>, i: nat)
    requires IsRun(states, steps) && i < |states| && forall k :: 0 <= k < i ==> !FailsInDatabase(steps[k])
    ensures !states[i].failed
  {
    hide Next, Enabled, FailsInDatabase;
    if i == 0 {
    } else {
      RunWorks(states, steps, i - 1);
      StepWorks(states[i - 1], steps[i - 1]);
    }
  }

  /**
   * No lost wake-up: as long as the worker's database operations succeed, whenever the worker is
   * idle and some row is pending, the wake slot is full, or an ingest thread is between its
   * commit and its notify, or the retry timer is armed.
   */
  lemma NoLostWakeup(states: seq<State>, steps: seq<Step>, i: nat)
    requires IsRun(states, steps) && i < |states| && forall k :: 0 <= k < i ==> !FailsInDatabase(steps[k])
    ensures states[i].worker.Idle? && (exists id :: id in states[i].rows && states[i].rows[id].pending) ==>
              states[i].wake || states[i].owing != {} || states[i].timer
  {
    RunWorks(states, steps, i);
    RunLive(states, steps, i);
    hide IsRun;
  }
}
