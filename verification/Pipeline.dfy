/**
 * The ingestion pipeline: it routes the records of a batch, stores what became a generation, and
 * counts every record on the way (internal/ingest/pipeline.go). The batches, saves and rejections
 * are taken one at a time.
 */
module Pipeline {
  import opened Wrappers
  import opened Generations
  import opened Database
  import opened Counters
  import Merge
  import Sums

  const NO_SOURCE := "no_source"
  const NOT_A_GENERATION := "not_a_generation"
  const LOGS := "logs"
  const METRICS := "metrics"
  const BAD_ATTRIBUTES := "bad_attributes"
  const BAD_IDS := "bad_ids"
  const BAD_TIMESTAMP := "bad_timestamp"
  const OTHER := "other"

  const HTTP_REJECT_REASONS := {
    "unauthorized", "grpc_unauthenticated", "bad_content_type", "bad_content_encoding", "body_too_large",
    "body_read_error", "bad_gzip", "decode_failed"
  }

  datatype NormError =
    | NonStringAttrs | InvalidTokenAttr | InvalidMakiAttr | InvalidClaudeCodeAttr
    | MissingSpanIds | MissingLogIdentity | InvalidLogTimestamp | Unclassified

  function NormErrorReason(e: NormError): (reason: string)
    ensures reason == BAD_ATTRIBUTES
            <==> e in {NonStringAttrs, InvalidTokenAttr, InvalidMakiAttr, InvalidClaudeCodeAttr}
    ensures reason == BAD_IDS <==> e in {MissingSpanIds, MissingLogIdentity}
    ensures reason == BAD_TIMESTAMP <==> e.InvalidLogTimestamp?
    ensures reason in {BAD_ATTRIBUTES, BAD_IDS, BAD_TIMESTAMP, OTHER}
  {
    match e
    case NonStringAttrs => BAD_ATTRIBUTES
    case InvalidTokenAttr => BAD_ATTRIBUTES
    case InvalidMakiAttr => BAD_ATTRIBUTES
    case InvalidClaudeCodeAttr => BAD_ATTRIBUTES
    case MissingSpanIds => BAD_IDS
    case MissingLogIdentity => BAD_IDS
    case InvalidLogTimestamp => BAD_TIMESTAMP
    case Unclassified => OTHER
  }

  /** What source detection and normalization make of one record. */
  datatype Outcome = NoSource | Malformed(error: NormError) | NotGeneration | Generated(record: Record)

  datatype Signal = Traces | Logs

  /** The cells one record raises: it is received, and goes exactly one way from there. */
  function Cells(signal: Signal, o: Outcome): set<Cell> {
    match o
    case NoSource =>
      if signal.Traces? then {Received, Rejected, Reason(Key(RejectedKind, NO_SOURCE))}
      else {Received, Ignored, Reason(Key(IgnoredKind, LOGS))}
    case Malformed(e) => {Received, NormErrors, Reason(Key(NormErrorKind, NormErrorReason(e)))}
    case NotGeneration =>
      if signal.Traces? then {Received, Rejected, Reason(Key(RejectedKind, NOT_A_GENERATION))}
      else {Received, Ignored, Reason(Key(IgnoredKind, LOGS))}
    case Generated(_) => {Received, Normalized}
  }

  /** The counters after one more record. */
  function Counted(t: Totals, signal: Signal, o: Outcome): Totals {
    var r := Raised(t, Received, 1);
    match o
    case NoSource =>
      if signal.Traces? then Raised(Raised(r, Rejected, 1), Reason(Key(RejectedKind, NO_SOURCE)), 1)
      else Raised(Raised(r, Ignored, 1), Reason(Key(IgnoredKind, LOGS)), 1)
    case Malformed(e) => Raised(Raised(r, NormErrors, 1), Reason(Key(NormErrorKind, NormErrorReason(e))), 1)
    case NotGeneration =>
      if signal.Traces? then Raised(Raised(r, Rejected, 1), Reason(Key(RejectedKind, NOT_A_GENERATION)), 1)
      else Raised(Raised(r, Ignored, 1), Reason(Key(IgnoredKind, LOGS)), 1)
    case Generated(_) => Raised(r, Normalized, 1)
  }

  lemma RaisedValue(t: Totals, c: Cell, n: nat, d: Cell)
    ensures Value(Raised(t, c, n), d) == Value(t, d) + if c == d then n else 0
  {
  }

  lemma RaisedTwice(t: Totals, a: Cell, b: Cell, d: Cell)
    requires a != b
    ensures Value(Raised(Raised(t, a, 1), b, 1), d) == Value(t, d) + if d in {a, b} then 1 else 0
  {
    hide Value, Raised;
    RaisedValue(t, a, 1, d);
    RaisedValue(Raised(t, a, 1), b, 1, d);
  }

  lemma RaisedThrice(t: Totals, a: Cell, b: Cell, c: Cell, d: Cell)
    requires a != b && b != c && a != c
    ensures Value(Raised(Raised(Raised(t, a, 1), b, 1), c, 1), d) == Value(t, d) + if d in {a, b, c} then 1 else 0
  {
    hide Value, Raised;
    RaisedTwice(t, a, b, d);
    RaisedValue(Raised(Raised(t, a, 1), b, 1), c, 1, d);
  }

  /** A record raises exactly its cells, each by one. */
  lemma CountedValue(t: Totals, signal: Signal, o: Outcome, c: Cell)
    ensures Value(Counted(t, signal, o), c) == Value(t, c) + if c in Cells(signal, o) then 1 else 0
  {
    hide Value, Raised;
    match o
    case NoSource =>
      if signal.Traces? {
        RaisedThrice(t, Received, Rejected, Reason(Key(RejectedKind, NO_SOURCE)), c);
      } else {
        RaisedThrice(t, Received, Ignored, Reason(Key(IgnoredKind, LOGS)), c);
      }
    case Malformed(e) => RaisedThrice(t, Received, NormErrors, Reason(Key(NormErrorKind, NormErrorReason(e))), c);
    case NotGeneration =>
      if signal.Traces? {
        RaisedThrice(t, Received, Rejected, Reason(Key(RejectedKind, NOT_A_GENERATION)), c);
      } else {
        RaisedThrice(t, Received, Ignored, Reason(Key(IgnoredKind, LOGS)), c);
      }
    case Generated(_) => RaisedTwice(t, Received, Normalized, c);
  }

  /** Counting a record keeps the books balanced. */
  lemma CountedBalanced(t: Totals, signal: Signal, o: Outcome)
    requires Balanced(t)
    ensures Balanced(Counted(t, signal, o))
  {
    hide KindTotal;
    forall key: Key, kind: Kind
      ensures KindTotal(t.reasons[key := Sums.At(t.reasons, key) + 1], kind)
              == KindTotal(t.reasons, kind) + if key.kind == kind then 1 else 0
    {
      KindTotalSet(t.reasons, key, Sums.At(t.reasons, key) + 1, kind);
    }
  }

  lemma HttpRejectCounted(t: Totals, reason: string)
    ensures var after := Raised(t, Reason(Key(HttpRejectKind, reason)), 1);
            Grown(t, after) && (Balanced(t) ==> Balanced(after))
  {
    var key := Key(HttpRejectKind, reason);
    hide KindTotal;
    forall kind { KindTotalSet(t.reasons, key, Sums.At(t.reasons, key) + 1, kind); }
    forall c { RaisedValue(t, Reason(key), 1, c); }
  }

  /** How often a batch raises a cell. */
  function Tally(signal: Signal, batch: seq<Outcome>, c: Cell): nat {
    if batch == [] then 0
    else Tally(signal, batch[..|batch| - 1], c) + if c in Cells(signal, batch[|batch| - 1]) then 1 else 0
  }

  /** The generations of a batch, in order. */
  function Collected(batch: seq<Outcome>): seq<Record> {
    if batch == [] then []
    else Collected(batch[..|batch| - 1]) + if batch[|batch| - 1].Generated? then [batch[|batch| - 1].record] else []
  }

  /** The context's token, when there is one, is written into every generation of the batch. */
  function Attributed(gens: seq<Record>, token: int): (r: seq<Record>)
    ensures |r| == |gens|
    ensures forall i :: 0 <= i < |r| ==>
              r[i].(token := 0) == gens[i].(token := 0) && r[i].token == if token != 0 then token else gens[i].token
  {
    if token == 0 then gens else seq(|gens|, i requires 0 <= i < |gens| => gens[i].(token := token))
  }

  predicate HasRecord(gens: seq<Record>, id: Id) { exists i :: 0 <= i < |gens| && gens[i].id == id }

  /** The first token the records of an ID name. */
  function FirstToken(gens: seq<Record>, id: Id): (token: Option<int>)
    ensures token.None? ==> forall i :: 0 <= i < |gens| && gens[i].id == id ==> gens[i].token == 0
    ensures token.Some? ==>
              exists i :: 0 <= i < |gens| && gens[i].id == id && gens[i].token == token.value && token.value != 0
                          && forall j :: 0 <= j < i && gens[j].id == id ==> gens[j].token == 0
  {
    if gens == [] then None
    else
      var earlier := FirstToken(gens[..|gens| - 1], id);
      var last := gens[|gens| - 1];
      if earlier.Some? then earlier else if last.id == id && last.token != 0 then Some(last.token) else None
  }

  /**
   * Whom a stored batch attributes its rows to: a row keeps its token; one without, and one the batch
   * added, gets the context's token, or in a context without one the first its records name.
   */
  ghost predicate TokensStored(before: Table, after: Table, gens: seq<Record>, token: int) {
    forall id :: id in after ==>
      var was := if id in before then before[id].token else None;
      after[id].token == if was.Some? || !HasRecord(gens, id) then was
                         else if token != 0 then Some(token) else FirstToken(gens, id)
  }

  /** How many records carry one of the sources. */
  function CountOfSources(gens: seq<Record>, sources: set<string>): nat {
    if gens == [] then 0
    else CountOfSources(gens[..|gens| - 1], sources) + if gens[|gens| - 1].source in sources then 1 else 0
  }

  /** The rows a batch added that carry one of the sources. */
  ghost function NewRowsOf(before: Table, after: Table, sources: set<string>): set<Id> {
    set id | id in after && id !in before && after[id].source in sources
  }

  /** The records of one source that were merged into rows known before, or repeated in the batch. */
  ghost function DedupOf(before: Table, after: Table, gens: seq<Record>, source: string): int {
    CountOfSources(gens, {source}) - |NewRows(before, after, source)|
  }

  /** What storing the generations adds to a cell. */
  ghost function StoreCount(before: Table, after: Table, gens: seq<Record>, ok: bool, c: Cell): int {
    match c
    case Stored => |after.Keys - before.Keys|
    case Deduplicated => if ok then |gens| - |after.Keys - before.Keys| else 0
    case IngErrors => if ok then 0 else 1
    case Reason(key) => if ok && key.kind == DedupKind then DedupOf(before, after, gens, key.reason) else 0
    case _ => 0
  }

  // Facts about batches.

  lemma DeliveredSource(stored: Option<Row>, g: Record)
    ensures Merge.Delivered(stored, g).source == if stored.Some? then stored.value.source else g.source
  {
  }

  /** A row's token is its old one, or the first that a record of the batch names for it. */
  lemma {:induction false} LoadedToken(before: Table, gens: seq<Record>, id: Id)
    ensures id in before || HasRecord(gens, id) <==> id in Loaded(before, gens)
    ensures id in Loaded(before, gens) ==>
              Loaded(before, gens)[id].token
              == (if id in before then before[id].token else None).OrElse(FirstToken(gens, id))
  {
    if gens == [] {
    } else {
      var prefix, last := gens[..|gens| - 1], gens[|gens| - 1];
      LoadedToken(before, prefix, id);
      assert HasRecord(gens, id) <==> HasRecord(prefix, id) || last.id == id by {
        assert forall i :: 0 <= i < |prefix| ==> prefix[i] == gens[i];
      }
      var mid := Loaded(before, prefix);
      DeliveredToken(if last.id in mid then Some(mid[last.id]) else None, last);
      hide HasRecord, Merge.Delivered;
    }
  }

  lemma DeliveredToken(stored: Option<Row>, g: Record)
    ensures Merge.Delivered(stored, g).token
            == (if stored.Some? then stored.value.token else None).OrElse(NullableId(g.token))
  {
  }

  lemma FirstAttributed(gens: seq<Record>, token: int, id: Id)
    requires token != 0
    ensures HasRecord(Attributed(gens, token), id) <==> HasRecord(gens, id)
    ensures FirstToken(Attributed(gens, token), id) == if HasRecord(gens, id) then Some(token) else None
  {
    var attributed := Attributed(gens, token);
    forall i | 0 <= i < |gens| ensures attributed[i].id == gens[i].id && attributed[i].token == token {
      assert attributed[i].(token := 0) == gens[i].(token := 0);
    }
    hide FirstToken, Attributed;
  }

  lemma BatchTokens(before: Table, gens: seq<Record>, token: int)
    ensures TokensStored(before, Loaded(before, Attributed(gens, token)), gens, token)
  {
    var after := Loaded(before, Attributed(gens, token));
    if token == 0 { NothingAttributed(gens); }
    hide Loaded, Attributed;
    forall id | id in after
      ensures var was := if id in before then before[id].token else None;
              after[id].token == if was.Some? || !HasRecord(gens, id) then was
                                 else if token != 0 then Some(token) else FirstToken(gens, id)
    {
      LoadedToken(before, Attributed(gens, token), id);
      if token != 0 { FirstAttributed(gens, token, id); }
    }
  }

  lemma NothingAttributed(gens: seq<Record>)
    ensures Attributed(gens, 0) == gens
  {
    forall i | 0 <= i < |gens| ensures Attributed(gens, 0)[i] == gens[i] {
      assert Attributed(gens, 0)[i].(token := 0) == gens[i].(token := 0);
    }
  }

  lemma NewRowsOfOne(before: Table, mid: Table, id: Id, row: Row, sources: set<string>)
    requires before.Keys <= mid.Keys && (id in mid ==> row.source == mid[id].source)
    ensures before.Keys <= mid[id := row].Keys
    ensures NewRowsOf(before, mid[id := row], sources)
            == NewRowsOf(before, mid, sources) + (if id !in mid && row.source in sources then {id} else {})
  {
  }

  lemma {:induction false} NewRowsAreCounted(before: Table, gens: seq<Record>, sources: set<string>)
    ensures |NewRowsOf(before, Loaded(before, gens), sources)| <= CountOfSources(gens, sources)
    ensures before.Keys <= Loaded(before, gens).Keys
  {
    if gens == [] {
      assert NewRowsOf(before, before, sources) == {};
    } else {
      var prefix, last := gens[..|gens| - 1], gens[|gens| - 1];
      NewRowsAreCounted(before, prefix, sources);
      var mid := Loaded(before, prefix);
      var stored := if last.id in mid then Some(mid[last.id]) else None;
      DeliveredSource(stored, last);
      assert Loaded(before, gens) == mid[last.id := Merge.Delivered(stored, last)];
      NewRowsOfOne(before, mid, last.id, Merge.Delivered(stored, last), sources);
      hide Merge.Delivered, NewRowsOf, Loaded;
    }
  }

  lemma {:induction false} CountsAdd(gens: seq<Record>, some: set<string>, others: set<string>)
    requires some !! others
    ensures CountOfSources(gens, some + others) == CountOfSources(gens, some) + CountOfSources(gens, others)
  {
    if gens == [] {
    } else {
      CountsAdd(gens[..|gens| - 1], some, others);
    }
  }

  function SourcesOf(gens: seq<Record>): set<string> { set i | 0 <= i < |gens| :: gens[i].source }

  lemma {:induction false} CountOfAll(gens: seq<Record>, sources: set<string>)
    ensures SourcesOf(gens) <= sources ==> CountOfSources(gens, sources) == |gens|
    ensures SourcesOf(gens) !! sources ==> CountOfSources(gens, sources) == 0
  {
    if gens == [] {
    } else {
      var prefix := gens[..|gens| - 1];
      CountOfAll(prefix, sources);
      assert SourcesOf(gens) == SourcesOf(prefix) + {gens[|gens| - 1].source} by {
        forall i | 0 <= i < |prefix| ensures prefix[i] == gens[i] {}
      }
    }
  }

  lemma NewRowsAdd(before: Table, after: Table, some: set<string>, others: set<string>)
    requires some !! others
    ensures |NewRowsOf(before, after, some + others)|
            == |NewRowsOf(before, after, some)| + |NewRowsOf(before, after, others)|
  {
    var a, b := NewRowsOf(before, after, some), NewRowsOf(before, after, others);
    assert NewRowsOf(before, after, some + others) == a + b && a !! b;
  }

  lemma NewRowsOfOneSource(before: Table, after: Table, source: string)
    ensures NewRowsOf(before, after, {source}) == NewRows(before, after, source)
  {
  }

  lemma NoNewRows(before: Table, after: Table)
    ensures NewRowsOf(before, after, {}) == {}
  {
  }

  /** The sources of a batch account for all its new rows. */
  lemma NewRowsOfAll(before: Table, gens: seq<Record>)
    ensures NewRowsOf(before, Loaded(before, gens), SourcesOf(gens)) == Loaded(before, gens).Keys - before.Keys
  {
    var after := Loaded(before, gens);
    forall id | id in after && id !in before ensures after[id].source in SourcesOf(gens) {
      var source := after[id].source;
      NewRowsAreCounted(before, gens, {source});
      CountOfAll(gens, {source});
      assert id in NewRowsOf(before, after, {source});
    }
  }

  /** A further source accounts for no further rows. */
  lemma NewRowsOfMore(before: Table, gens: seq<Record>, source: string)
    ensures NewRowsOf(before, Loaded(before, gens), SourcesOf(gens) - {source} + {source})
            == NewRowsOf(before, Loaded(before, gens), SourcesOf(gens))
  {
    NewRowsOfAll(before, gens);
    hide Loaded, SourcesOf;
  }

  /** No source is deduplicated more often than it occurs, nor more often than the batch as a whole. */
  lemma DedupOfBounds(before: Table, gens: seq<Record>, source: string)
    ensures var after := Loaded(before, gens);
            0 <= DedupOf(before, after, gens, source) <= |gens| - |after.Keys - before.Keys|
            && NewRows(before, after, source) == NewRowsOf(before, after, {source})
  {
    hide Loaded, NewRowsOf, NewRows, CountOfSources, SourcesOf;
    var after := Loaded(before, gens);
    var all, rest := SourcesOf(gens), SourcesOf(gens) - {source};
    NewRowsOfOneSource(before, after, source);
    NewRowsAreCounted(before, gens, {source});
    NewRowsAreCounted(before, gens, rest);
    NewRowsOfAll(before, gens);
    CountOfAll(gens, rest + {source});
    CountsAdd(gens, rest, {source});
    NewRowsAdd(before, after, rest, {source});
    NewRowsOfMore(before, gens, source);
  }

  // The two stats tables.

  class StatsTables {
    var stats: map<Day, Stats>
    var reasons: map<Day, map<Key, nat>>

    function Contents(): Tables
      reads this
    {
      Tables(stats, reasons)
    }

    /** UpsertDailySnapshot: one transaction that clears the day's reasons and writes all anew. */
    method UpsertDailySnapshot(day: Day, counters: Stats, entries: map<Key, nat>, fails: bool) returns (ok: bool)
      modifies this
      ensures ok == !fails
      ensures Contents() == if ok then Snapshotted(old(Contents()), day, Totals(counters, entries)) else old(Contents())
    {
      if fails { return false; }
      var cleared: map<Key, nat> := map[];
      reasons := reasons[day := cleared];
      assert entries - entries.Keys == cleared;
      var todo := entries.Keys;
      while todo != {}
        invariant todo <= entries.Keys && stats == old(stats)
        invariant reasons == old(reasons)[day := entries - todo]
      {
        var key :| key in todo;
        assert (entries - todo)[key := entries[key]] == entries - (todo - {key});
        reasons := reasons[day := reasons[day][key := entries[key]]];
        todo := todo - {key};
      }
      assert entries - {} == entries;
      stats := stats[day := counters];
      return true;
    }
  }

  class Pipeline {
    const store: Store
    const tables: StatsTables
    var received: nat
    var normalized: nat
    var stored: nat
    var dedup: nat
    var rejected: nat
    var ignored: nat
    var normErrors: nat
    var ingErrors: nat
    var reasons: map<Key, nat>
    /** What was already persisted for baseDay before this process counted. */
    var base: Stats
    var baseReasons: map<Key, nat>
    var baseDay: Option<Day>
    /** The generations of this session's batches whose transaction failed. */
    ghost var failed: nat

    /** What this process has counted since it started or since the last rollover. */
    function Session(): Totals
      reads this
    {
      Totals(Stats(received, normalized, stored, dedup, rejected, ignored, normErrors, ingErrors), reasons)
    }

    function Contents(): World
      reads this, tables
    {
      World(tables.Contents(), Session(), Totals(base, baseReasons), baseDay)
    }

    /** After every completed batch the books balance. */
    ghost predicate Valid()
      reads this, store, store.usage, store.conversations
    {
      store.Valid() && Balanced(Session()) && normalized == stored + dedup + failed
    }

    /** NewPipeline. */
    constructor (store: Store, tables: StatsTables)
      requires store.Valid()
      ensures this.store == store && this.tables == tables && Valid()
      ensures Contents() == World(tables.Contents(), NOTHING, NOTHING, None)
    {
      hide Balanced;
      this.store, this.tables := store, tables;
      received, normalized, stored, dedup := 0, 0, 0, 0;
      rejected, ignored, normErrors, ingErrors := 0, 0, 0, 0;
      reasons, base, baseReasons, baseDay := map[], NO_STATS, map[], None;
      failed := 0;
      new;
      NothingBalanced();
      assert Session() == NOTHING;
    }

    method BumpReason(kind: Kind, reason: string, n: nat)
      modifies this`reasons
      ensures reasons == if n == 0 then old(reasons) else Raised(old(Session()), Reason(Key(kind, reason)), n).reasons
    {
      if n == 0 { return; }
      var key := Key(kind, reason);
      if key !in reasons { reasons := reasons[key := 0]; }
      reasons := reasons[key := reasons[key] + n];
      assert reasons == old(reasons)[key := Sums.At(old(reasons), key) + n];
    }

    /** Unknown reasons are dropped, so that a caller cannot grow the breakdown. */
    method BumpHttpReject(reason: string)
      requires Valid()
      modifies this`reasons
      ensures Valid()
      ensures Session() == if reason !in HTTP_REJECT_REASONS then old(Session())
                           else Raised(old(Session()), Reason(Key(HttpRejectKind, reason)), 1)
      ensures Grown(old(Session()), Session())
    {
      if reason !in HTTP_REJECT_REASONS { return; }
      hide Balanced, Grown, Store.Valid;
      BumpReason(HttpRejectKind, reason, 1);
      HttpRejectCounted(old(Session()), reason);
    }

    method CountSpan(o: Outcome)
      modifies this`received, this`normalized, this`rejected, this`normErrors, this`reasons
      ensures Session() == Counted(old(Session()), Traces, o)
    {
      received := received + 1;
      match o
      case NoSource =>
        rejected := rejected + 1;
        BumpReason(RejectedKind, NO_SOURCE, 1);
      case Malformed(e) =>
        normErrors := normErrors + 1;
        BumpReason(NormErrorKind, NormErrorReason(e), 1);
      case NotGeneration =>
        rejected := rejected + 1;
        BumpReason(RejectedKind, NOT_A_GENERATION, 1);
      case Generated(_) =>
        normalized := normalized + 1;
    }

    method CountLog(o: Outcome)
      modifies this`received, this`normalized, this`ignored, this`normErrors, this`reasons
      ensures Session() == Counted(old(Session()), Logs, o)
    {
      received := received + 1;
      match o
      case NoSource =>
        ignored := ignored + 1;
        BumpReason(IgnoredKind, LOGS, 1);
      case Malformed(e) =>
        normErrors := normErrors + 1;
        BumpReason(NormErrorKind, NormErrorReason(e), 1);
      case NotGeneration =>
        ignored := ignored + 1;
        BumpReason(IgnoredKind, LOGS, 1);
      case Generated(_) =>
        normalized := normalized + 1;
    }

    /** countBySource. */
    method CountBySource(gens: seq<Record>) returns (counts: map<string, nat>)
      ensures counts.Keys == SourcesOf(gens)
      ensures forall source :: source in counts ==> counts[source] == CountOfSources(gens, {source})
    {
      counts := map[];
      for i := 0 to |gens|
        invariant counts.Keys == SourcesOf(gens[..i])
        invariant forall source :: source in counts ==> counts[source] == CountOfSources(gens[..i], {source})
      {
        var source := gens[i].source;
        assert gens[..i + 1][..i] == gens[..i];
        SourcesOfOne(gens, i);
        CountOfAll(gens[..i], {source});
        counts := Incremented(counts, source);
      }
      assert gens[..|gens|] == gens;
    }

    /** The per-source breakdown of a batch's deduplicated records. */
    method BumpDedup(gens: seq<Record>, storedBySource: map<string, nat>, ghost before: Table)
      requires CountsNewRows(storedBySource, before, Loaded(before, gens))
      modifies this`reasons
      ensures DedupBumped(old(reasons), reasons, before, gens, SourcesOf(gens))
    {
      hide DedupBumped, CountsNewRows, DedupOf, Raised, KindTotal;
      var counts := CountBySource(gens);
      var todo := counts.Keys;
      ghost var done: set<string> := {};
      DedupStart(reasons, before, gens);
      while todo != {}
        invariant done + todo == counts.Keys && done !! todo
        invariant DedupBumped(old(reasons), reasons, before, gens, done)
      {
        var source :| source in todo;
        DedupOfStored(before, gens, storedBySource, source);
        ghost var was := Session();
        BumpReason(DedupKind, source, counts[source] - Sums.At(storedBySource, source));
        DedupStep(old(reasons), was, reasons, before, gens, done, source);
        todo, done := todo - {source}, done + {source};
      }
      assert done == SourcesOf(gens);
    }

    /** The sum over the stored map, in any order: the number of new distinct IDs. */
    method CountStored(storedBySource: map<string, nat>, ghost before: Table, ghost after: Table) returns (n: nat)
      requires CountsNewRows(storedBySource, before, after)
      ensures n == |after.Keys - before.Keys|
    {
      hide NewRowsOf, NewRows;
      n := 0;
      var todo := storedBySource.Keys;
      ghost var done: set<string> := {};
      NoNewRows(before, after);
      while todo != {}
        invariant done + todo == storedBySource.Keys && done !! todo
        invariant n == |NewRowsOf(before, after, done)|
      {
        var source :| source in todo;
        NewRowsAdd(before, after, done, {source});
        NewRowsOfOneSource(before, after, source);
        n := n + storedBySource[source];
        todo, done := todo - {source}, done + {source};
      }
      AllNewRows(before, after, done);
    }

    /** The counters of a committed batch. */
    method CountBatch(gens: seq<Record>, storedBySource: map<string, nat>, ghost before: Table) returns (inserted: nat)
      requires CountsNewRows(storedBySource, before, Loaded(before, gens))
      modifies this`stored, this`dedup, this`reasons
      ensures inserted == |Loaded(before, gens).Keys - before.Keys|
      ensures CountsBatch(old(Session()), Session(), before, gens)
    {
      hide CountsNewRows, DedupBumped, CountsBatch;
      ghost var was := Session();
      NewRowsAreCounted(before, gens, SourcesOf(gens));
      NewRowsOfAll(before, gens);
      CountOfAll(gens, SourcesOf(gens));
      hide Loaded;
      inserted := CountStored(storedBySource, before, Loaded(before, gens));
      stored := stored + inserted;
      var repeated := |gens| - inserted;
      if repeated > 0 {
        dedup := dedup + repeated;
        BumpDedup(gens, storedBySource, before);
      }
      assert Session().stats == was.stats.(stored := was.stats.stored + inserted,
                                           deduplicated := was.stats.deduplicated + repeated);
      BatchCounted(was, Session(), before, gens, inserted);
    }

    /** Commits one batch and updates the stored, dedup and error counters. */
    method StoreGenerations(gens: seq<Record>, token: int, fails: bool) returns (ok: bool, wakes: bool, notifies: bool)
      requires store.Valid() && Balanced(Session())
      modifies this`stored, this`dedup, this`ingErrors, this`failed, this`reasons
      modifies store`gens, store.usage, store.conversations
      ensures store.Valid() && Balanced(Session()) && stored + dedup + failed == old(stored + dedup + failed) + |gens|
      ensures IsStored(old(store.gens), store.gens, Attributed(gens, token), fails, ok, wakes, notifies)
      ensures ok ==> TokensStored(old(store.gens), store.gens, gens, token)
      ensures forall c :: Value(Session(), c) == old(Value(Session(), c))
                          + StoreCount(old(store.gens), store.gens, Attributed(gens, token), ok, c)
    {
      hide Balanced, Store.Valid, IsStored, TokensStored, Value, StoreCount, CountsNewRows, Loaded;
      var attributed := Attributed(gens, token);
      ghost var before, was := store.gens, Session();
      var result := store.InsertGenerations(attributed, fails);
      if result.Err? {
        ingErrors := ingErrors + 1;
        failed := failed + |attributed|;
        FailedBatch(was, before, attributed, fails);
        return false, false, false;
      }
      var inserted := CountBatch(attributed, result.value, before);
      BatchBalanced(was, Session(), before, attributed);
      BatchValues(was, Session(), before, attributed);
      BatchStored(before, attributed, fails, inserted);
      BatchTokens(before, gens, token);
      return true, exists i :: 0 <= i < |attributed| && attributed[i].cost.None?, inserted > 0;
    }

    /**
     * Counts and stores a batch of spans. Every record raises exactly the cells of its outcome; on
     * top of that come the stored, deduplicated and failed counts of the batch's generations.
     */
    method ConsumeTraces(batch: seq<Outcome>, token: int, fails: bool) returns (ok: bool, wakes: bool, notifies: bool)
      requires Valid()
      modifies this`received, this`normalized, this`rejected, this`normErrors, this`stored, this`dedup, this`ingErrors,
               this`failed, this`reasons, store`gens, store.usage, store.conversations
      ensures Valid()
      ensures IsStored(old(store.gens), store.gens, Attributed(Collected(batch), token), fails, ok, wakes, notifies)
      ensures ok ==> TokensStored(old(store.gens), store.gens, Collected(batch), token)
      ensures forall c :: Value(Session(), c) == old(Value(Session(), c)) + Tally(Traces, batch, c)
                          + StoreCount(old(store.gens), store.gens, Attributed(Collected(batch), token), ok, c)
      ensures Grown(old(Session()), Session())
    {
      hide Balanced, Store.Valid, IsStored, TokensStored, Value, StoreCount, Counted, Tallied, Attributed;
      var gens: seq<Record> := [];
      TalliedNone(Session(), Traces);
      for i := 0 to |batch|
        modifies this`received, this`normalized, this`rejected, this`normErrors, this`reasons
        invariant gens == Collected(batch[..i])
        invariant Tallied(old(Session()), Session(), Traces, batch[..i])
      {
        TalliedOne(old(Session()), Session(), Traces, batch, i);
        CountSpan(batch[i]);
        if batch[i].Generated? { gens := gens + [batch[i].record]; }
      }
      assert batch[..|batch|] == batch;
      TalliedBatch(old(Session()), Session(), Traces, batch);
      ok, wakes, notifies := StoreGenerations(gens, token, fails);
      StoreCountsUp(old(store.gens), store.gens, Attributed(gens, token), fails, ok, wakes, notifies);
    }

    /**
     * Counts and stores a batch of log records. Every record raises exactly the cells of its outcome; on
     * top of that come the stored, deduplicated and failed counts of the batch's generations.
     */
    method ConsumeLogs(batch: seq<Outcome>, token: int, fails: bool) returns (ok: bool, wakes: bool, notifies: bool)
      requires Valid()
      modifies this`received, this`normalized, this`ignored, this`normErrors, this`stored, this`dedup, this`ingErrors,
               this`failed, this`reasons, store`gens, store.usage, store.conversations
      ensures Valid()
      ensures IsStored(old(store.gens), store.gens, Attributed(Collected(batch), token), fails, ok, wakes, notifies)
      ensures ok ==> TokensStored(old(store.gens), store.gens, Collected(batch), token)
      ensures forall c :: Value(Session(), c) == old(Value(Session(), c)) + Tally(Logs, batch, c)
                          + StoreCount(old(store.gens), store.gens, Attributed(Collected(batch), token), ok, c)
      ensures Grown(old(Session()), Session())
    {
      hide Balanced, Store.Valid, IsStored, TokensStored, Value, StoreCount, Counted, Tallied, Attributed;
      var gens: seq<Record> := [];
      TalliedNone(Session(), Logs);
      for i := 0 to |batch|
        modifies this`received, this`normalized, this`ignored, this`normErrors, this`reasons
        invariant gens == Collected(batch[..i])
        invariant Tallied(old(Session()), Session(), Logs, batch[..i])
      {
        TalliedOne(old(Session()), Session(), Logs, batch, i);
        CountLog(batch[i]);
        if batch[i].Generated? { gens := gens + [batch[i].record]; }
      }
      assert batch[..|batch|] == batch;
      TalliedBatch(old(Session()), Session(), Logs, batch);
      ok, wakes, notifies := StoreGenerations(gens, token, fails);
      StoreCountsUp(old(store.gens), store.gens, Attributed(gens, token), fails, ok, wakes, notifies);
    }

    /** Metrics are only counted: each scope contributes its number of metrics. */
    method ConsumeMetrics(scopes: seq<nat>)
      requires Valid()
      modifies this`received, this`ignored, this`reasons
      ensures Valid()
      ensures forall c :: Value(Session(), c) == old(Value(Session(), c))
                          + if c in {Received, Ignored, Reason(Key(IgnoredKind, METRICS))} then MetricCount(scopes)
                            else 0
      ensures Grown(old(Session()), Session())
    {
      var n := 0;
      for i := 0 to |scopes|
        invariant n == MetricCount(scopes[..i])
      {
        assert scopes[..i + 1][..i] == scopes[..i];
        n := n + scopes[i];
      }
      assert scopes[..|scopes|] == scopes;
      hide Balanced, Store.Valid, Grown, KindTotal;
      ghost var was := Session();
      received := received + n;
      ignored := ignored + n;
      ghost var mid := Session();
      BumpReason(IgnoredKind, METRICS, n);
      BumpedReason(mid, reasons, IgnoredKind, METRICS, n);
      MetricsBalanced(was, Session(), n);
    }

    /** snapshotReasons: the base plus this session, without zero entries. The maps are visited in any order. */
    method SnapshotReasons() returns (entries: map<Key, nat>)
      ensures entries == Trimmed(AddReasons(baseReasons, reasons))
    {
      var combined := baseReasons;
      var todo := reasons.Keys;
      while todo != {}
        invariant todo <= reasons.Keys
        invariant forall k ::
                    Sums.At(combined, k) == Sums.At(baseReasons, k) + if k in todo then 0 else Sums.At(reasons, k)
      {
        var key :| key in todo;
        if reasons[key] > 0 { combined := combined[key := Sums.At(combined, key) + reasons[key]]; }
        todo := todo - {key};
      }
      assert forall k :: Sums.At(combined, k) == Sums.At(AddReasons(baseReasons, reasons), k);
      entries := map[];
      var rest := combined.Keys;
      while rest != {}
        invariant rest <= combined.Keys
        invariant entries == map k | k in combined.Keys - rest && combined[k] > 0 :: combined[k]
      {
        var key :| key in rest;
        if combined[key] != 0 { entries := entries[key := combined[key]]; }
        rest := rest - {key};
      }
      TrimmedSame(combined, AddReasons(baseReasons, reasons));
      assert entries == Trimmed(combined);
    }

    /** persistLocked. */
    method Persist(day: Day, fails: bool) returns (ok: bool)
      modifies tables
      ensures ok == !fails
      ensures tables.Contents()
              == if ok then Snapshotted(old(tables.Contents()), day, old(Counters.Snapshot(Contents())))
                 else old(tables.Contents())
    {
      var entries := SnapshotReasons();
      hide Trimmed, AddReasons, Snapshotted;
      ok := tables.UpsertDailySnapshot(day, base.Add(Session().stats), entries, fails);
    }

    /** resetLocked. */
    method Reset()
      modifies this`received, this`normalized, this`stored, this`dedup, this`rejected, this`ignored, this`normErrors,
               this`ingErrors, this`failed, this`reasons, this`base, this`baseReasons
      ensures Session() == NOTHING && base == NO_STATS && baseReasons == map[] && failed == 0
    {
      base, baseReasons, reasons := NO_STATS, map[], map[];
      received, normalized, stored, dedup := 0, 0, 0, 0;
      rejected, ignored, normErrors, ingErrors := 0, 0, 0, 0;
      failed := 0;
    }

    /** Save, on the given UTC day. */
    method Save(today: Day, fails: bool) returns (ok: bool)
      requires Valid()
      modifies this`received, this`normalized, this`stored, this`dedup, this`rejected, this`ignored, this`normErrors,
               this`ingErrors, this`failed, this`reasons, this`base, this`baseReasons, this`baseDay, tables
      ensures Valid() && ok == !fails
      ensures Contents() == Saved(old(Contents()), today, ok)
    {
      hide Balanced, Store.Valid, Snapshotted, Trimmed, AddReasons;
      if baseDay.Some? && baseDay.value != today {
        ok := Persist(baseDay.value, fails);
        if !ok { return; }
        Reset();
        baseDay := Some(today);
        NothingBalanced();
        return;
      }
      baseDay := Some(today);
      ok := Persist(today, fails);
    }

    /** RestoreBase: loads what is stored for today. A failed read must stop the start-up. */
    method RestoreBase(today: Day, fails: bool) returns (ok: bool)
      requires Valid()
      modifies this`base, this`baseReasons, this`baseDay
      ensures Valid() && ok == !fails
      ensures Contents() == if ok then Restored(old(Contents()), today) else old(Contents())
    {
      if fails { return false; }
      base := if today in tables.stats then tables.stats[today] else NO_STATS;
      baseReasons := if today in tables.reasons then tables.reasons[today] else map[];
      baseDay := Some(today);
      return true;
    }
  }

  /** The counters after part of a batch has been classified. */
  ghost predicate Tallied(was: Totals, now: Totals, signal: Signal, batch: seq<Outcome>) {
    && (Balanced(was) ==> Balanced(now))
    && forall c :: Value(now, c) == Value(was, c) + Tally(signal, batch, c)
  }

  lemma TalliedNone(was: Totals, signal: Signal)
    ensures Tallied(was, was, signal, [])
  {
  }

  lemma TalliedOne(was: Totals, mid: Totals, signal: Signal, batch: seq<Outcome>, i: nat)
    requires i < |batch| && Tallied(was, mid, signal, batch[..i])
    ensures Tallied(was, Counted(mid, signal, batch[i]), signal, batch[..i + 1])
    ensures Collected(batch[..i + 1])
            == Collected(batch[..i]) + if batch[i].Generated? then [batch[i].record] else []
  {
    hide Balanced, Value, Counted, Cells;
    assert batch[..i + 1][..i] == batch[..i];
    if Balanced(mid) { CountedBalanced(mid, signal, batch[i]); }
    forall c { CountedValue(mid, signal, batch[i], c); }
  }

  lemma {:induction false} NormalizedAreCollected(signal: Signal, batch: seq<Outcome>)
    ensures Tally(signal, batch, Normalized) == |Collected(batch)|
  {
    if batch == [] {
    } else {
      NormalizedAreCollected(signal, batch[..|batch| - 1]);
    }
  }

  lemma TalliedBatch(was: Totals, now: Totals, signal: Signal, batch: seq<Outcome>)
    requires Tallied(was, now, signal, batch) && Balanced(was)
    ensures Balanced(now) && forall c :: Value(now, c) == Value(was, c) + Tally(signal, batch, c)
    ensures now.stats.normalized == was.stats.normalized + |Collected(batch)|
  {
    hide Balanced;
    NormalizedAreCollected(signal, batch);
    assert Value(now, Normalized) == Value(was, Normalized) + Tally(signal, batch, Normalized);
  }

  function MetricCount(scopes: seq<nat>): nat {
    if scopes == [] then 0 else MetricCount(scopes[..|scopes| - 1]) + scopes[|scopes| - 1]
  }

  lemma MetricsBalanced(was: Totals, now: Totals, n: nat)
    requires Balanced(was)
    requires now.stats == was.stats.(received := was.stats.received + n, ignored := was.stats.ignored + n)
    requires forall k ::
               Sums.At(now.reasons, k) == Sums.At(was.reasons, k) + if k == Key(IgnoredKind, METRICS) then n else 0
    requires forall k :: KindTotal(now.reasons, k) == KindTotal(was.reasons, k) + if k == IgnoredKind then n else 0
    ensures Balanced(now) && Grown(was, now)
    ensures forall c :: Value(now, c) == Value(was, c)
                        + if c in {Received, Ignored, Reason(Key(IgnoredKind, METRICS))} then n else 0
  {
    hide KindTotal;
  }

  lemma TrimmedSame(a: map<Key, nat>, b: map<Key, nat>)
    requires forall k :: Sums.At(a, k) == Sums.At(b, k)
    ensures Trimmed(a) == Trimmed(b)
  {
    forall k ensures k in Trimmed(a) <==> k in Trimmed(b) { assert Sums.At(a, k) == Sums.At(b, k); }
    forall k | k in Trimmed(a) ensures Trimmed(a)[k] == Trimmed(b)[k] { assert Sums.At(a, k) == Sums.At(b, k); }
  }

  /** The breakdown has been raised by the deduplicated records of the sources that are done. */
  ghost predicate DedupBumped(was: map<Key, nat>, now: map<Key, nat>, before: Table, gens: seq<Record>,
                              done: set<string>) {
    var after := Loaded(before, gens);
    && (forall k :: Sums.At(now, k) == Sums.At(was, k)
                    + if k.kind == DedupKind && k.reason in done then DedupOf(before, after, gens, k.reason) else 0)
    && (forall kind :: KindTotal(now, kind) == KindTotal(was, kind)
                       + if kind == DedupKind then CountOfSources(gens, done) - |NewRowsOf(before, after, done)| else 0)
  }

  lemma DedupStart(was: map<Key, nat>, before: Table, gens: seq<Record>)
    ensures DedupBumped(was, was, before, gens, {})
  {
    CountOfAll(gens, {});
    assert NewRowsOf(before, Loaded(before, gens), {}) == {};
  }

  lemma DedupOfStored(before: Table, gens: seq<Record>, storedBySource: map<string, nat>, source: string)
    requires CountsNewRows(storedBySource, before, Loaded(before, gens))
    ensures DedupOf(before, Loaded(before, gens), gens, source)
            == CountOfSources(gens, {source}) - Sums.At(storedBySource, source)
    ensures DedupOf(before, Loaded(before, gens), gens, source) >= 0
  {
    DedupOfBounds(before, gens, source);
  }

  lemma DedupStep(was: map<Key, nat>, mid: Totals, now: map<Key, nat>, before: Table, gens: seq<Record>,
                  done: set<string>, source: string)
    requires DedupBumped(was, mid.reasons, before, gens, done) && source !in done
    requires DedupOf(before, Loaded(before, gens), gens, source) >= 0
    requires now == var n := DedupOf(before, Loaded(before, gens), gens, source);
                    if n == 0 then mid.reasons else Raised(mid, Reason(Key(DedupKind, source)), n).reasons
    ensures DedupBumped(was, now, before, gens, done + {source})
  {
    hide KindTotal, Raised, NewRowsOf, NewRows, CountOfSources, Loaded;
    var after := Loaded(before, gens);
    DedupOfBounds(before, gens, source);
    CountsAdd(gens, done, {source});
    NewRowsAdd(before, after, done, {source});
    BumpedReason(mid, now, DedupKind, source, DedupOf(before, after, gens, source));
    assert DedupOf(before, after, gens, source)
           == CountOfSources(gens, {source}) - |NewRowsOf(before, after, {source})|;
    hide Sums.At, DedupOf;
  }

  /** The sources of a batch account for all its deduplicated records. */
  lemma DedupDone(was: map<Key, nat>, now: map<Key, nat>, before: Table, gens: seq<Record>)
    requires DedupBumped(was, now, before, gens, SourcesOf(gens))
    ensures var after := Loaded(before, gens);
            && (forall k :: Sums.At(now, k) == Sums.At(was, k)
                            + if k.kind == DedupKind then DedupOf(before, after, gens, k.reason) else 0)
            && (forall kind :: KindTotal(now, kind) == KindTotal(was, kind)
                               + if kind == DedupKind then |gens| - |after.Keys - before.Keys| else 0)
  {
    CountOfAll(gens, SourcesOf(gens));
    NewRowsOfAll(before, gens);
    forall k: Key | k.kind == DedupKind && k.reason !in SourcesOf(gens)
      ensures DedupOf(before, Loaded(before, gens), gens, k.reason) == 0
    {
      DedupOfBounds(before, gens, k.reason);
      CountOfAll(gens, {k.reason});
    }
    hide KindTotal, NewRowsOf, NewRows, CountOfSources, Loaded, DedupOf;
  }

  /** What a stored batch leaves behind, whom it wakes, and when it notifies the dashboard. */
  ghost predicate IsStored(before: Table, after: Table, gens: seq<Record>, fails: bool, ok: bool, wakes: bool,
                           notifies: bool) {
    && (ok <==> gens == [] || !fails)
    && after == (if ok then Loaded(before, gens) else before)
    && (wakes <==> ok && exists i :: 0 <= i < |gens| && gens[i].cost.None?)
    && (notifies <==> ok && after.Keys != before.Keys)
  }

  /** Storing a batch takes nothing away from any cell. */
  lemma StoreCountsUp(before: Table, after: Table, gens: seq<Record>, fails: bool, ok: bool, wakes: bool,
                      notifies: bool)
    requires IsStored(before, after, gens, fails, ok, wakes, notifies)
    ensures forall c :: StoreCount(before, after, gens, ok, c) >= 0
  {
    if ok {
      hide Loaded, DedupOf;
      NewRowsAreCounted(before, gens, SourcesOf(gens));
      NewRowsOfAll(before, gens);
      CountOfAll(gens, SourcesOf(gens));
      forall source ensures DedupOf(before, after, gens, source) >= 0 { DedupOfBounds(before, gens, source); }
    }
  }

  lemma FailedBatch(was: Totals, before: Table, gens: seq<Record>, fails: bool)
    requires Balanced(was) && gens != [] && fails
    ensures IsStored(before, before, gens, fails, false, false, false)
    ensures var now := was.(stats := was.stats.(ingErrors := was.stats.ingErrors + 1));
            Balanced(now) && forall c :: Value(now, c) == Value(was, c) + StoreCount(before, before, gens, false, c)
  {
    assert before.Keys - before.Keys == {};
  }

  /** The counters after a batch is stored: its records split into new rows and repeats. */
  ghost predicate CountsBatch(was: Totals, now: Totals, before: Table, gens: seq<Record>) {
    var after := Loaded(before, gens);
    var inserted := |after.Keys - before.Keys|;
    && inserted <= |gens|
    && now.stats == was.stats.(stored := was.stats.stored + inserted,
                               deduplicated := was.stats.deduplicated + (|gens| - inserted))
    && (forall k :: Sums.At(now.reasons, k) == Sums.At(was.reasons, k)
                    + if k.kind == DedupKind then DedupOf(before, after, gens, k.reason) else 0)
    && (forall kind :: KindTotal(now.reasons, kind) == KindTotal(was.reasons, kind)
                       + if kind == DedupKind then |gens| - inserted else 0)
  }

  lemma BatchCounted(was: Totals, now: Totals, before: Table, gens: seq<Record>, inserted: nat)
    requires inserted == |Loaded(before, gens).Keys - before.Keys| && inserted <= |gens|
    requires now.stats == was.stats.(stored := was.stats.stored + inserted,
                                     deduplicated := was.stats.deduplicated + (|gens| - inserted))
    requires inserted == |gens| ==> now.reasons == was.reasons
    requires inserted < |gens| ==> DedupBumped(was.reasons, now.reasons, before, gens, SourcesOf(gens))
    ensures CountsBatch(was, now, before, gens)
  {
    hide Loaded, DedupOf, DedupBumped, KindTotal, Sums.At;
    if |Loaded(before, gens).Keys - before.Keys| == |gens| {
      forall k: Key | k.kind == DedupKind ensures DedupOf(before, Loaded(before, gens), gens, k.reason) == 0 {
        DedupOfBounds(before, gens, k.reason);
      }
    } else {
      DedupDone(was.reasons, now.reasons, before, gens);
    }
  }

  lemma BatchStored(before: Table, gens: seq<Record>, fails: bool, inserted: nat)
    requires inserted == |Loaded(before, gens).Keys - before.Keys| && (gens == [] || !fails)
    ensures IsStored(before, Loaded(before, gens), gens, fails, true,
                     exists i :: 0 <= i < |gens| && gens[i].cost.None?, inserted > 0)
  {
    NewRowsAreCounted(before, gens, {});
    hide Loaded;
    assert Loaded(before, gens).Keys == before.Keys + (Loaded(before, gens).Keys - before.Keys);
  }

  lemma BatchBalanced(was: Totals, now: Totals, before: Table, gens: seq<Record>)
    requires Balanced(was) && CountsBatch(was, now, before, gens)
    ensures Balanced(now)
  {
    hide Loaded, KindTotal, DedupOf, Sums.At;
  }

  lemma BatchValues(was: Totals, now: Totals, before: Table, gens: seq<Record>)
    requires CountsBatch(was, now, before, gens)
    ensures forall c :: Value(now, c) == Value(was, c) + StoreCount(before, Loaded(before, gens), gens, true, c)
  {
    hide CountsBatch;
    forall c { BatchValue(was, now, before, gens, c); }
  }

  lemma BatchValue(was: Totals, now: Totals, before: Table, gens: seq<Record>, c: Cell)
    requires CountsBatch(was, now, before, gens)
    ensures Value(now, c) == Value(was, c) + StoreCount(before, Loaded(before, gens), gens, true, c)
  {
    hide Loaded, KindTotal, DedupOf, Sums.At;
  }

  lemma AllNewRows(before: Table, after: Table, sources: set<string>)
    requires forall s :: s !in sources ==> NewRows(before, after, s) == {}
    ensures NewRowsOf(before, after, sources) == after.Keys - before.Keys
  {
    forall id | id in after && id !in before ensures after[id].source in sources {
      assert id in NewRows(before, after, after[id].source);
    }
  }

  lemma SourcesOfOne(gens: seq<Record>, i: nat)
    requires i < |gens|
    ensures SourcesOf(gens[..i + 1]) == SourcesOf(gens[..i]) + {gens[i].source}
  {
  }

  lemma BumpedReason(was: Totals, reasons: map<Key, nat>, kind: Kind, reason: string, n: nat)
    requires reasons == if n == 0 then was.reasons else Raised(was, Reason(Key(kind, reason)), n).reasons
    ensures forall k :: Sums.At(reasons, k) == Sums.At(was.reasons, k) + if k == Key(kind, reason) then n else 0
    ensures forall k :: KindTotal(reasons, k) == KindTotal(was.reasons, k) + if k == kind then n else 0
  {
    var key := Key(kind, reason);
    hide KindTotal;
    forall k { KindTotalSet(was.reasons, key, Sums.At(was.reasons, key) + n, k); }
  }
}
