/**
 * What inserting, merging and pricing do to one row (internal/storage/usage.go and
 * internal/storage/pricing.go), and what that means over whole delivery histories.
 */
module Merge {
  import opened Wrappers
  import opened Generations

  /** insertSQL with insertArgs. */
  function Inserted(g: Record): Row {
    Row(g.timestamp, g.source, NullableString(g.serviceName), NullableString(g.provider), NullableString(g.model),
        g.input, g.output, g.cacheRead, g.cacheCreation, g.reasoning,
        g.cost, NullableString(g.conversation), NullableDuration(g.durationNs), NullableString(g.agent),
        NullableString(g.gitRepo), NullableString(g.gitBranch), NullableString(g.effort), NullableId(g.token),
        g.cost.Some?, if g.cost.Some? then Harness else Unknown, g.cost.None?, 0, None, None, None)
  }

  /** The cases of mergeSQL that put a row back into the pricing queue. */
  predicate Requeues(row: Row, g: Record) {
    || (row.model.None? && NullableString(g.model).Some?)
    || (row.input.None? && g.input.Some?)
    || (row.output.None? && g.output.Some?)
    || (row.cacheRead.None? && g.cacheRead.Some?)
    || (row.cacheCreation.None? && g.cacheCreation.Some?)
    || (row.reasoning.None? && g.reasoning.Some?)
    || (row.costSource == OpenRouter && row.timestamp > g.timestamp)
  }

  /** mergeSQL with mergeArgs: every right-hand side reads the row as it was. */
  function Merged(row: Row, g: Record): Row {
    Row(Min(row.timestamp, g.timestamp), row.source, row.serviceName,
        row.provider.OrElse(NullableString(g.provider)), row.model.OrElse(NullableString(g.model)),
        row.input.OrElse(g.input), row.output.OrElse(g.output), row.cacheRead.OrElse(g.cacheRead),
        row.cacheCreation.OrElse(g.cacheCreation), row.reasoning.OrElse(g.reasoning),
        if row.harness then row.cost else g.cost.OrElse(row.cost),
        row.conversation.OrElse(NullableString(g.conversation)), row.duration.OrElse(NullableDuration(g.durationNs)),
        row.agent.OrElse(NullableString(g.agent)), row.gitRepo.OrElse(NullableString(g.gitRepo)),
        row.gitBranch.OrElse(NullableString(g.gitBranch)), row.effort.OrElse(NullableString(g.effort)),
        row.token.OrElse(NullableId(g.token)),
        row.harness || g.cost.Some?,
        if row.harness || g.cost.Some? then Harness else row.costSource,
        if row.harness || g.cost.Some? then false else if Requeues(row, g) then true else row.pending,
        row.revision + 1,
        if g.cost.Some? then None else row.priceModel,
        if g.cost.Some? then None else row.priceFetched,
        if g.cost.Some? then None else row.rates)
  }

  /** What one delivery makes of the row already stored under the record's ID, if any. */
  function Delivered(stored: Option<Row>, g: Record): Row {
    if stored.None? then Inserted(g) else Merged(stored.value, g)
  }

  /** The values ApplyPricing writes, and the revision they were computed from. */
  datatype PriceWrite = PriceWrite(
    cost: Option<real>, source: CostSource, model: Option<string>, fetched: Option<int>, rates: Option<Rates>,
    revision: nat)

  /** ApplyPricing's UPDATE, guarded by the revision and the harness flag. */
  function Priced(row: Row, w: PriceWrite): Row {
    if row.revision == w.revision && !row.harness then
      row.(cost := w.cost, costSource := w.source, priceModel := w.model, priceFetched := w.fetched,
           rates := w.rates, pending := false)
    else row
  }

  /** SeedTokenID's adoption of unattributed rows. */
  function Adopted(row: Row, token: int): Row {
    if row.token.None? then row.(token := Some(token)) else row
  }

  /** What can happen to a stored row. */
  datatype Event = Deliver(g: Record) | Price(w: PriceWrite) | Adopt(token: int)

  function Happens(row: Row, e: Event): Row {
    match e
    case Deliver(g) => Merged(row, g)
    case Price(w) => Priced(row, w)
    case Adopt(t) => Adopted(row, t)
  }

  function After(row: Row, events: seq<Event>): Row
    decreases |events|
  {
    if events == [] then row else After(Happens(row, events[0]), events[1..])
  }

  /** What a history makes of an ID: the first delivery inserts its row, and everything else happens to that. */
  function Replay(row: Option<Row>, events: seq<Event>): Option<Row> {
    if events == [] then row
    else
      var last := events[|events| - 1];
      match Replay(row, events[..|events| - 1])
      case Some(r) => Some(Happens(r, last))
      case None => if last.Deliver? then Some(Inserted(last.g)) else None
  }

  lemma {:induction false} ReplayJoins(row: Option<Row>, before: seq<Event>, after: seq<Event>)
    ensures Replay(row, before + after) == Replay(Replay(row, before), after)
  {
    if after == [] {
      assert before + after == before;
    } else {
      ReplayJoins(row, before, after[..|after| - 1]);
      assert (before + after)[..|before + after| - 1] == before + after[..|after| - 1];
    }
  }

  /** A replayed row is the row of its history. */
  lemma {:induction false} ReplayIsAfter(row: Row, events: seq<Event>)
    ensures Replay(Some(row), events) == Some(After(row, events))
    decreases |events|
  {
    if events == [] {
    } else {
      assert events == [events[0]] + events[1..];
      ReplayJoins(Some(row), [events[0]], events[1..]);
      ReplayIsAfter(Happens(row, events[0]), events[1..]);
    }
  }

  /** Only normalized telemetry reports harness costs; pricing never writes that source. */
  predicate ValidEvent(e: Event) { e.Price? ==> e.w.source != Harness }

  predicate ValidEvents(events: seq<Event>) { forall i :: 0 <= i < |events| ==> ValidEvent(events[i]) }

  /** A harness cost is final: it is recorded, unqueued, and free of pricing provenance. */
  predicate HarnessFinal(row: Row) {
    && row.cost.Some? && row.costSource == Harness && !row.pending
    && row.priceModel.None? && row.priceFetched.None? && row.rates.None?
  }

  predicate RowOk(row: Row) { if row.harness then HarnessFinal(row) else row.costSource != Harness }

  lemma InsertedOk(g: Record)
    ensures RowOk(Inserted(g))
  {
  }

  lemma HappensOk(row: Row, e: Event)
    requires RowOk(row) && ValidEvent(e)
    ensures RowOk(Happens(row, e))
  {
  }

  lemma {:induction false} AfterOk(row: Row, events: seq<Event>)
    requires RowOk(row) && ValidEvents(events)
    ensures RowOk(After(row, events))
    decreases |events|
  {
    if events == [] {
    } else {
      HappensOk(row, events[0]);
      AfterOk(Happens(row, events[0]), events[1..]);
    }
  }

  // Harness costs.

  /** Once a harness cost is recorded, nothing replaces it, re-queues the row, or gives it provenance again. */
  lemma {:induction false} HarnessCostStays(row: Row, events: seq<Event>)
    requires RowOk(row) && row.harness && ValidEvents(events)
    ensures After(row, events).harness && HarnessFinal(After(row, events)) && After(row, events).cost == row.cost
    decreases |events|
  {
    if events == [] {
    } else {
      HappensOk(row, events[0]);
      HarnessCostStays(Happens(row, events[0]), events[1..]);
    }
  }

  // Merged columns, one by one.

  datatype Column = ProviderCol | ModelCol | InputCol | OutputCol | CacheReadCol | CacheCreationCol | ReasoningCol
                  | ConversationCol | DurationCol | AgentCol | GitRepoCol | GitBranchCol | EffortCol | TokenCol

  datatype Value = Text(s: string) | Number(n: int)

  function TextValue(v: Option<string>): Option<Value> { if v.None? then None else Some(Text(v.value)) }

  function NumberValue(v: Option<int>): Option<Value> { if v.None? then None else Some(Number(v.value)) }

  /** The stored value of a merged column. */
  function Stored(row: Row, c: Column): Option<Value> {
    match c
    case ProviderCol => TextValue(row.provider)
    case ModelCol => TextValue(row.model)
    case InputCol => NumberValue(row.input)
    case OutputCol => NumberValue(row.output)
    case CacheReadCol => NumberValue(row.cacheRead)
    case CacheCreationCol => NumberValue(row.cacheCreation)
    case ReasoningCol => NumberValue(row.reasoning)
    case ConversationCol => TextValue(row.conversation)
    case DurationCol => NumberValue(row.duration)
    case AgentCol => TextValue(row.agent)
    case GitRepoCol => TextValue(row.gitRepo)
    case GitBranchCol => TextValue(row.gitBranch)
    case EffortCol => TextValue(row.effort)
    case TokenCol => NumberValue(row.token)
  }

  function Given(s: string): Option<Value> { if s == "" then None else Some(Text(s)) }

  /** The value a record reports for a column; an empty text, a zero duration or token ID is none. */
  function Reported(g: Record, c: Column): Option<Value> {
    match c
    case ProviderCol => Given(g.provider)
    case ModelCol => Given(g.model)
    case InputCol => NumberValue(g.input)
    case OutputCol => NumberValue(g.output)
    case CacheReadCol => NumberValue(g.cacheRead)
    case CacheCreationCol => NumberValue(g.cacheCreation)
    case ReasoningCol => NumberValue(g.reasoning)
    case ConversationCol => Given(g.conversation)
    case DurationCol => NumberValue(NullableDuration(g.durationNs))
    case AgentCol => Given(g.agent)
    case GitRepoCol => Given(g.gitRepo)
    case GitBranchCol => Given(g.gitBranch)
    case EffortCol => Given(g.effort)
    case TokenCol => if g.token == 0 then None else Some(Number(g.token))
  }

  /** Durations are stored in whole milliseconds, rounded toward zero; a zero one is not reported. */
  lemma DurationTruncates(ns: int)
    ensures NullableDuration(ns).None? <==> ns == 0
    ensures ns > 0 ==> var ms := NullableDuration(ns).value; 0 <= ms * 1000000 <= ns < (ms + 1) * 1000000
    ensures ns < 0 ==> NullableDuration(ns).value == -NullableDuration(-ns).value
  {
  }

  /** A new row holds what its record reports. */
  lemma InsertStoresColumn(g: Record, c: Column)
    ensures Stored(Inserted(g), c) == Reported(g, c)
  {
  }

  lemma MergeFillsColumn(row: Row, g: Record, c: Column)
    ensures Stored(Merged(row, g), c) == Stored(row, c).OrElse(Reported(g, c))
  {
  }

  // Redelivery.

  /** The row has taken in everything the record reports. */
  ghost predicate Absorbed(row: Row, g: Record) {
    && row.timestamp <= g.timestamp
    && (g.provider != "" ==> row.provider.Some?) && (g.model != "" ==> row.model.Some?)
    && (g.input.Some? ==> row.input.Some?) && (g.output.Some? ==> row.output.Some?)
    && (g.cacheRead.Some? ==> row.cacheRead.Some?) && (g.cacheCreation.Some? ==> row.cacheCreation.Some?)
    && (g.reasoning.Some? ==> row.reasoning.Some?) && (g.conversation != "" ==> row.conversation.Some?)
    && (g.durationNs != 0 ==> row.duration.Some?) && (g.agent != "" ==> row.agent.Some?)
    && (g.gitRepo != "" ==> row.gitRepo.Some?) && (g.gitBranch != "" ==> row.gitBranch.Some?)
    && (g.effort != "" ==> row.effort.Some?) && (g.token != 0 ==> row.token.Some?)
    && (g.cost.Some? ==> row.harness)
  }

  lemma DeliveryAbsorbs(stored: Option<Row>, g: Record)
    ensures Absorbed(Delivered(stored, g), g)
  {
  }

  lemma StaysAbsorbed(row: Row, g: Record, e: Event)
    requires Absorbed(row, g)
    ensures Absorbed(Happens(row, e), g)
  {
  }

  /** Merging a record the row has absorbed changes nothing but the revision. */
  lemma AbsorbedMergeIsNoop(row: Row, g: Record)
    requires RowOk(row) && Absorbed(row, g)
    ensures Merged(row, g) == row.(revision := row.revision + 1)
  {
  }

  lemma {:induction false} StaysAbsorbedAfter(row: Row, g: Record, events: seq<Event>)
    requires Absorbed(row, g)
    ensures Absorbed(After(row, events), g)
    decreases |events|
  {
    if events == [] {
    } else {
      StaysAbsorbed(row, g, events[0]);
      StaysAbsorbedAfter(Happens(row, events[0]), g, events[1..]);
    }
  }

  /**
   * Redelivery is harmless: a record that was inserted or merged once, delivered again after any
   * other deliveries, pricing writes and token adoptions, only bumps the revision. In particular
   * it never re-queues a priced row.
   */
  lemma RedeliveryIsNoop(stored: Option<Row>, g: Record, events: seq<Event>)
    requires stored.Some? ==> RowOk(stored.value)
    requires ValidEvents(events)
    ensures var row := After(Delivered(stored, g), events);
            Merged(row, g) == row.(revision := row.revision + 1)
  {
    var first := Delivered(stored, g);
    DeliveryAbsorbs(stored, g);
    StaysAbsorbedAfter(first, g, events);
    InsertedOk(g);
    if stored.Some? { HappensOk(stored.value, Deliver(g)); }
    AfterOk(first, events);
    AbsorbedMergeIsNoop(After(first, events), g);
  }

  // Delivery order.

  function Deliveries(events: seq<Event>): set<Record>
    decreases |events|
  {
    if events == [] then {}
    else (if events[0].Deliver? then {events[0].g} else {}) + Deliveries(events[1..])
  }

  predicate Adopts(events: seq<Event>)
    decreases |events|
  {
    events != [] && (events[0].Adopt? || Adopts(events[1..]))
  }

  /** Records of one ID that agree wherever both report a value. */
  ghost predicate Agree(records: set<Record>) {
    forall a, b :: a in records && b in records ==>
      && a.source == b.source
      && (a.cost.Some? && b.cost.Some? ==> a.cost == b.cost)
      && forall c: Column :: Reported(a, c).Some? && Reported(b, c).Some? ==> Reported(a, c) == Reported(b, c)
  }

  /** The row holds exactly what the records report: the columns, the earliest time, and the harness cost. */
  ghost predicate Summarizes(row: Row, records: set<Record>, adopted: bool) {
    && (forall c: Column :: !(adopted && c == TokenCol) ==> ColumnSummarizes(row, records, c))
    && (exists g :: g in records && g.timestamp == row.timestamp)
    && (forall g :: g in records ==> row.timestamp <= g.timestamp)
    && (row.harness ==> exists g :: g in records && g.cost.Some? && g.cost == row.cost)
    && (forall g :: g in records && g.cost.Some? ==> row.harness)
    && (exists g :: g in records && g.source == row.source)
  }

  ghost predicate ColumnSummarizes(row: Row, records: set<Record>, c: Column) {
    && (Stored(row, c).Some? ==> exists g :: g in records && Reported(g, c) == Stored(row, c))
    && (forall g :: g in records && Reported(g, c).Some? ==> Stored(row, c).Some?)
  }

  lemma InsertedSummarizes(g: Record)
    ensures Summarizes(Inserted(g), {g}, false)
  {
    forall c: Column ensures ColumnSummarizes(Inserted(g), {g}, c) {
      assert g in {g};
      InsertStoresColumn(g, c);
    }
    assert g in {g};
  }

  lemma MergedSummarizes(row: Row, records: set<Record>, g: Record, adopted: bool)
    requires Summarizes(row, records, adopted)
    ensures Summarizes(Merged(row, g), records + {g}, adopted)
  {
    var all := records + {g};
    assert g in all && forall r :: r in records ==> r in all;
    forall c: Column | !(adopted && c == TokenCol) ensures ColumnSummarizes(Merged(row, g), all, c) {
      assert ColumnSummarizes(row, records, c);
      MergeFillsColumn(row, g, c);
    }
  }

  lemma OtherEventSummarizes(row: Row, records: set<Record>, e: Event, adopted: bool)
    requires Summarizes(row, records, adopted) && !e.Deliver?
    ensures Summarizes(Happens(row, e), records, adopted || e.Adopt?)
  {
    forall c: Column | !((adopted || e.Adopt?) && c == TokenCol) ensures ColumnSummarizes(Happens(row, e), records, c) {
      assert ColumnSummarizes(row, records, c);
      assert Stored(Happens(row, e), c) == Stored(row, c);
    }
  }

  lemma {:induction false} AfterSummarizes(row: Row, records: set<Record>, events: seq<Event>, adopted: bool)
    requires Summarizes(row, records, adopted)
    ensures Summarizes(After(row, events), records + Deliveries(events), adopted || Adopts(events))
    decreases |events|
  {
    if events == [] {
      assert records + Deliveries(events) == records;
    } else {
      var e := events[0];
      var now := records + (if e.Deliver? then {e.g} else {});
      if e.Deliver? {
        MergedSummarizes(row, records, e.g, adopted);
      } else {
        assert now == records;
        OtherEventSummarizes(row, records, e, adopted);
      }
      AfterSummarizes(Happens(row, e), now, events[1..], adopted || e.Adopt?);
      assert records + Deliveries(events) == now + Deliveries(events[1..]);
    }
  }

  /** After any history the row holds exactly what its records report. */
  lemma HistorySummarizes(g: Record, events: seq<Event>)
    ensures Summarizes(After(Inserted(g), events), {g} + Deliveries(events), Adopts(events))
  {
    InsertedSummarizes(g);
    AfterSummarizes(Inserted(g), {g}, events, false);
  }

  lemma ColumnsAgree(a: Row, b: Row, records: set<Record>, c: Column)
    requires Agree(records) && ColumnSummarizes(a, records, c) && ColumnSummarizes(b, records, c)
    ensures Stored(a, c) == Stored(b, c)
  {
  }

  lemma SummariesAgree(a: Row, b: Row, records: set<Record>, adopted1: bool, adopted2: bool)
    requires Agree(records) && Summarizes(a, records, adopted1) && Summarizes(b, records, adopted2)
    ensures a.timestamp == b.timestamp && a.source == b.source
    ensures a.harness == b.harness && (a.harness ==> a.cost == b.cost)
    ensures forall c: Column | c == TokenCol ==> !adopted1 && !adopted2 :: Stored(a, c) == Stored(b, c)
  {
    forall c: Column | c == TokenCol ==> !adopted1 && !adopted2 ensures Stored(a, c) == Stored(b, c) {
      ColumnsAgree(a, b, records, c);
    }
  }

  /**
   * Two histories that insert and then deliver the same agreeing records, in any order, with any
   * repetition and any pricing in between, end with the same merged columns, timestamp, harness
   * flag and harness cost. The token column needs that neither adopts a token.
   */
  lemma DeliveryOrderIsIrrelevant(g1: Record, events1: seq<Event>, g2: Record, events2: seq<Event>)
    requires {g1} + Deliveries(events1) == {g2} + Deliveries(events2)
    requires Agree({g1} + Deliveries(events1))
    ensures var a, b := After(Inserted(g1), events1), After(Inserted(g2), events2);
            && a.timestamp == b.timestamp && a.source == b.source
            && a.harness == b.harness && (a.harness ==> a.cost == b.cost)
            && (forall c: Column | c == TokenCol ==> !Adopts(events1) && !Adopts(events2) ::
                  Stored(a, c) == Stored(b, c))
  {
    HistorySummarizes(g1, events1);
    HistorySummarizes(g2, events2);
    SummariesAgree(After(Inserted(g1), events1), After(Inserted(g2), events2), {g1} + Deliveries(events1),
                   Adopts(events1), Adopts(events2));
  }

  lemma {:induction false} ServiceNameStays(row: Row, events: seq<Event>)
    ensures After(row, events).serviceName == row.serviceName && After(row, events).source == row.source
    decreases |events|
  {
    if events == [] {
    } else {
      ServiceNameStays(Happens(row, events[0]), events[1..]);
    }
  }

  /**
   * The service name and the source are not merged: whatever happens later, the record delivered first
   * decides them, so two histories of the same records agree on them if and only if their first records do.
   */
  lemma ServiceNameIsFirstCome(g1: Record, events1: seq<Event>, g2: Record, events2: seq<Event>)
    ensures After(Inserted(g1), events1).source == g1.source
    ensures After(Inserted(g1), events1).serviceName == if g1.serviceName == "" then None else Some(g1.serviceName)
    ensures After(Inserted(g1), events1).serviceName == After(Inserted(g2), events2).serviceName
            <==> g1.serviceName == g2.serviceName
  {
    ServiceNameStays(Inserted(g1), events1);
    ServiceNameStays(Inserted(g2), events2);
  }

  // The pricing queue.

  /** No price was written yet: the row is queued, without cost or provenance, or it has a harness cost. */
  predicate Unpriced(row: Row) {
    && RowOk(row) && (row.pending <==> !row.harness)
    && (row.pending ==> row.cost.None? && row.costSource == Unknown
                        && row.priceModel.None? && row.priceFetched.None? && row.rates.None?)
  }

  lemma {:induction false} StaysUnpriced(row: Row, events: seq<Event>)
    requires Unpriced(row) && forall i :: 0 <= i < |events| ==> !events[i].Price?
    ensures Unpriced(After(row, events))
    decreases |events|
  {
    if events == [] {
    } else {
      StaysUnpriced(Happens(row, events[0]), events[1..]);
    }
  }

  /**
   * New rows are queued for pricing: while no price has been written, a row is queued exactly when
   * none of its records reports a harness cost, and then it has no cost of any kind.
   */
  lemma NewRowsAreQueued(g: Record, events: seq<Event>)
    requires forall i :: 0 <= i < |events| ==> !events[i].Price?
    ensures var row, records := After(Inserted(g), events), {g} + Deliveries(events);
            && (row.pending <==> forall r :: r in records ==> r.cost.None?)
            && (row.pending ==> row.cost.None? && row.costSource == Unknown
                                && row.priceModel.None? && row.priceFetched.None? && row.rates.None?)
  {
    StaysUnpriced(Inserted(g), events);
    HistorySummarizes(g, events);
    hide After, Deliveries;
  }
}
