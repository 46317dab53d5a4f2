/**
 * The database: the generations table, the tokens its rows may name, and the two rollups its
 * triggers keep. Every write the system makes goes through the methods here, and each of them
 * leaves the rollups equal to the plain group-by of the generations.
 */
module Database {
  import opened Wrappers
  import opened Generations
  import opened Rollup
  import opened Merge
  import Maintenance

  /** A missing token is NULL and never 0, which the rollups use for it. */
  predicate RowValid(row: Row) { RowOk(row) && row.token != Some(0) }

  ghost predicate TableValid(gens: Table) { forall id :: id in gens ==> RowValid(gens[id]) }

  /** The table after delivering a batch in order, one insert or merge per record. */
  function Loaded(gens: Table, batch: seq<Record>): Table {
    if batch == [] then gens
    else
      var last := batch[|batch| - 1];
      var before := Loaded(gens, batch[..|batch| - 1]);
      before[last.id := Delivered(if last.id in before then Some(before[last.id]) else None, last)]
  }

  /** The rows a batch added that carry the given source. */
  ghost function NewRows(before: Table, after: Table, source: string): set<Id> {
    set id | id in after && id !in before && after[id].source == source
  }

  ghost predicate CountsNewRows(stored: map<string, nat>, before: Table, after: Table) {
    && (forall s :: s in stored ==> stored[s] == |NewRows(before, after, s)|)
    && (forall s :: s !in stored ==> NewRows(before, after, s) == {})
  }

  lemma DeliveredValid(stored: Option<Row>, g: Record)
    requires stored.Some? ==> RowValid(stored.value)
    ensures RowValid(Delivered(stored, g))
  {
  }

  /**
   * The cost counts of a row: it is reported exactly when the harness recorded its cost, and a known
   * cost is of exactly one kind, reported, estimated or free, unless its source is unknown.
   */
  lemma CostIsOfOneKind(row: Row)
    requires RowOk(row)
    ensures var m := FactMeasures(row);
            && (m.reported == 1 <==> row.harness)
            && (m.known == 1 <==> row.cost.Some?) && (m.known == 0 ==> m.cost == 0.0)
            && (m.reported + m.estimated + m.free == m.known <==> (row.cost.Some? ==> row.costSource != Unknown))
  {
  }

  class Store {
    var gens: Table
    /** api_tokens: the group label of each token, by token ID. */
    var tokens: map<int, string>
    const usage: RollupTable
    const conversations: RollupTable

    ghost predicate Valid()
      reads this, usage, conversations
    {
      && Shaped()
      && usage.rows == Rollups(UsageDaily, gens)
      && conversations.rows == Rollups(ConversationDaily, gens)
    }

    /** What holds even while the rollups are stale. */
    ghost predicate Shaped()
      reads this
    {
      && usage != conversations && usage.spec == UsageDaily && conversations.spec == ConversationDaily
      && TableValid(gens) && 0 !in tokens
    }

    /**
     * Opens a database with whatever rows and tokens it holds. It is current when it records this
     * definition of the rollups and has all its triggers: then they have kept its rollups since it
     * was last open. Otherwise its rollups may hold anything.
     */
    constructor Open(gens: Table, tokens: map<int, string>, usageRows: View, conversationRows: View, current: bool)
      requires TableValid(gens) && 0 !in tokens
      requires current ==> usageRows == Rollups(UsageDaily, gens)
      requires current ==> conversationRows == Rollups(ConversationDaily, gens)
      ensures Valid() && this.gens == gens && this.tokens == tokens && fresh(usage) && fresh(conversations)
    {
      this.gens := gens;
      this.tokens := tokens;
      usage := new RollupTable(UsageDaily, usageRows);
      conversations := new RollupTable(ConversationDaily, conversationRows);
      new;
      SyncRollup(current);
    }

    /** syncRollup: unless the rollups are current, clears both and regroups all generations into them. */
    method SyncRollup(current: bool)
      requires Shaped() && (current ==> Valid())
      modifies usage, conversations
      ensures Valid()
    {
      if current { return; }
      usage.rows := map[];
      conversations.rows := map[];
      Regroup(usage);
      Regroup(conversations);
    }

    /** INSERT INTO rollup SELECT ... GROUP BY, with the rows grouped in no particular order. */
    method Regroup(rollup: RollupTable)
      requires rollup.rows == map[]
      modifies rollup
      ensures rollup.rows == Rollups(rollup.spec, gens)
    {
      hide Rollups, Maintenance.Upserted, RowFact;
      var todo := gens.Keys;
      ghost var done: Table := map[];
      NoRollups(rollup.spec);
      while todo != {}
        invariant todo <= gens.Keys && done == gens - todo
        invariant rollup.rows == Rollups(rollup.spec, done)
      {
        var id :| id in todo;
        InsertSyncs(rollup.spec, done, id, gens[id]);
        rollup.Upsert(gens[id], false);
        done := done[id := gens[id]];
        todo := todo - {id};
      }
      assert done == gens;
    }

    // Row writes, each followed by its trigger.

    /** INSERT of a new row, then generations_rollup_insert. */
    method InsertRow(id: Id, row: Row)
      requires Valid() && id !in gens && RowValid(row)
      modifies this`gens, usage, conversations
      ensures Valid() && gens == old(gens)[id := row]
    {
      InsertSyncs(UsageDaily, gens, id, row);
      InsertSyncs(ConversationDaily, gens, id, row);
      gens := gens[id := row];
      usage.Upsert(row, false);
      conversations.Upsert(row, false);
    }

    /** DELETE of a row, then generations_rollup_delete. */
    method DeleteRow(id: Id)
      requires Valid() && id in gens
      modifies this`gens, usage, conversations
      ensures Valid() && gens == old(gens) - {id}
    {
      hide TableValid, Rollups, FactsOf, Maintenance.Upserted, Maintenance.Pruned, Maintenance.SyncButSpan;
      var was := gens[id];
      RestIsValid(gens, id);
      DeleteSyncsButSpan(UsageDaily, gens, id);
      DeleteSyncsButSpan(ConversationDaily, gens, id);
      gens := gens - {id};
      usage.Upsert(was, true);
      usage.Prune(was);
      UsageNeedsNoRespan(usage.rows, gens, was);
      conversations.Upsert(was, true);
      conversations.Prune(was);
      var ok := conversations.Respan(was, gens);
    }

    /** UPDATE of a row, then generations_rollup_update, which skips rows whose fact inputs stayed. */
    method UpdateRow(id: Id, row: Row)
      requires Valid() && id in gens && RowValid(row)
      modifies this`gens, usage, conversations
      ensures Valid() && gens == old(gens)[id := row]
    {
      var was := gens[id];
      ghost var before := gens;
      gens := gens[id := row];
      if FactInputs(was) != FactInputs(row) {
        UpdateSyncsButSpan(UsageDaily, before, id, row);
        UpdateSyncsButSpan(ConversationDaily, before, id, row);
        usage.Upsert(was, true);
        usage.Upsert(row, false);
        usage.Prune(was);
        UsageNeedsNoRespan(usage.rows, gens, was);
        conversations.Upsert(was, true);
        conversations.Upsert(row, false);
        conversations.Prune(was);
        var ok := conversations.Respan(was, gens);
      } else {
        UnchangedInputsKeepRollups(UsageDaily, before, id, row);
        UnchangedInputsKeepRollups(ConversationDaily, before, id, row);
      }
    }

    // The system's writes.

    /** insertGeneration: inserts the record, or merges it into the row that has its ID. */
    method InsertGeneration(g: Record) returns (inserted: bool)
      requires Valid()
      modifies this`gens, usage, conversations
      ensures Valid() && gens == Loaded(old(gens), [g])
      ensures inserted == (g.id !in old(gens))
    {
      ghost var before := gens;
      assert [g][..0] == [] && Loaded(before, []) == before;
      if g.id !in gens {
        DeliveredValid(None, g);
        InsertRow(g.id, Inserted(g));
        inserted := true;
      } else {
        DeliveredValid(Some(gens[g.id]), g);
        UpdateRow(g.id, Merged(gens[g.id], g));
        inserted := false;
      }
    }

    /**
     * InsertGenerations: one transaction for the batch. A failing transaction stores nothing; a
     * successful one reports, per source, the number of rows it inserted.
     */
    method InsertGenerations(batch: seq<Record>, fails: bool) returns (stored: Result<map<string, nat>>)
      requires Valid()
      modifies this`gens, usage, conversations
      ensures Valid()
      ensures stored.Err? <==> batch != [] && fails
      ensures gens == if stored.Err? then old(gens) else Loaded(old(gens), batch)
      ensures stored.Ok? ==> CountsNewRows(stored.value, old(gens), gens)
    {
      if batch == [] { return Ok(map[]); }
      if fails { return Err("batch insert"); }
      var counts: map<string, nat> := map[];
      for i := 0 to |batch|
        invariant Valid() && gens == Loaded(old(gens), batch[..i]) && old(gens).Keys <= gens.Keys
        invariant CountsNewRows(counts, old(gens), gens)
      {
        var g := batch[i];
        ghost var before := gens;
        LoadedOne(old(gens), batch, i);
        var inserted := InsertGeneration(g);
        CountOne(counts, old(gens), before, g);
        if inserted {
          counts := Incremented(counts, g.source);
        }
      }
      assert batch[..|batch|] == batch;
      return Ok(counts);
    }

    /**
     * ApplyPricing: applied only while the row has the revision that was priced and no harness cost.
     * Only for a row that already has a harness cost may the caller hand its source back.
     */
    method ApplyPricing(id: Id, w: PriceWrite) returns (priced: bool)
      requires Valid() && (w.source == Harness && id in gens ==> gens[id].harness)
      modifies this`gens, usage, conversations
      ensures Valid()
      ensures gens == if id in old(gens) then old(gens)[id := Priced(old(gens)[id], w)] else old(gens)
      ensures priced == (id in old(gens) && old(gens)[id].revision == w.revision && !old(gens)[id].harness
                         && w.cost.Some?)
    {
      if id !in gens || gens[id].revision != w.revision || gens[id].harness {
        assert id in gens ==> gens[id := gens[id]] == gens;
        return false;
      }
      UpdateRow(id, Priced(gens[id], w));
      return w.cost.Some?;
    }

    /** CreateToken, with the row ID SQLite picks, which is positive and unused. */
    method CreateToken(id: int, group: string)
      requires Valid() && id > 0 && id !in tokens
      modifies this`tokens
      ensures Valid() && tokens == old(tokens)[id := group]
    {
      tokens := tokens[id := group];
    }

    /** UpdateToken moves a token to another group; its rows keep their token. */
    method UpdateToken(id: int, group: string) returns (found: bool)
      requires Valid()
      modifies this`tokens
      ensures Valid() && found == (id in old(tokens))
      ensures tokens == if found then old(tokens)[id := group] else old(tokens)
    {
      found := id in tokens;
      if found { tokens := tokens[id := group]; }
    }

    /**
     * SeedTokenID's insert: the first token ever adopts all unattributed rows, by an UPDATE whose
     * trigger fires row by row, in any order.
     */
    method SeedToken(id: int)
      requires Valid() && id > 0 && id !in tokens
      modifies this`gens, this`tokens, usage, conversations
      ensures Valid() && tokens == old(tokens)[id := "default"]
      ensures gens.Keys == old(gens).Keys
      ensures forall i :: i in gens ==>
                gens[i] == if |old(tokens)| == 0 && old(gens)[i].token.None? then old(gens)[i].(token := Some(id))
                           else old(gens)[i]
    {
      var first := |tokens| == 0;
      tokens := tokens[id := "default"];
      if first {
        ghost var before := gens;
        var todo := gens.Keys;
        while todo != {}
          invariant Valid() && todo <= before.Keys
          invariant tokens == old(tokens)[id := "default"]
          invariant gens == AdoptedExcept(before, todo, id)
        {
          var i :| i in todo;
          AdoptOne(before, todo, i, id);
          if gens[i].token.None? {
            UpdateRow(i, Adopted(gens[i], id));
          }
          todo := todo - {i};
        }
        assert gens == AdoptedExcept(before, {}, id);
      }
    }
  }

  /** The rows outside todo have adopted the token. */
  ghost function AdoptedExcept(gens: Table, todo: set<Id>, token: int): Table {
    map i | i in gens :: if i in todo then gens[i] else Adopted(gens[i], token)
  }

  lemma AdoptOne(gens: Table, todo: set<Id>, i: Id, token: int)
    requires TableValid(gens) && i in gens && i in todo && token > 0
    ensures RowValid(Adopted(gens[i], token))
    ensures AdoptedExcept(gens, todo, token)[i] == gens[i]
    ensures AdoptedExcept(gens, todo - {i}, token) == AdoptedExcept(gens, todo, token)[i := Adopted(gens[i], token)]
    ensures gens[i].token.Some? ==> AdoptedExcept(gens, todo - {i}, token) == AdoptedExcept(gens, todo, token)
  {
  }

  lemma RestIsValid(gens: Table, id: Id)
    requires TableValid(gens)
    ensures TableValid(gens - {id})
  {
  }

  lemma NoRollups(spec: Spec)
    ensures Rollups(spec, map[]) == map[]
  {
    assert FactsOf(spec, map[]) == map[];
  }

  lemma LoadedOne(gens: Table, batch: seq<Record>, i: nat)
    requires i < |batch|
    ensures Loaded(gens, batch[..i + 1]) == Loaded(Loaded(gens, batch[..i]), [batch[i]])
  {
    assert batch[..i + 1][..i] == batch[..i];
    assert [batch[i]][..0] == [];
  }

  lemma NewRowsOne(start: Table, before: Table, g: Record, s: string)
    requires start.Keys <= before.Keys
    ensures NewRows(start, Loaded(before, [g]), s)
            == NewRows(start, before, s) + (if s == g.source && g.id !in before then {g.id} else {})
    ensures g.id !in before ==> g.id !in NewRows(start, before, s)
    ensures start.Keys <= Loaded(before, [g]).Keys
  {
    assert [g][..0] == [] && Loaded(before, []) == before;
  }

  function Incremented(counts: map<string, nat>, s: string): map<string, nat> {
    counts[s := (if s in counts then counts[s] else 0) + 1]
  }

  lemma CountNewRow(counts: map<string, nat>, start: Table, before: Table, after: Table, source: string, id: Id)
    requires CountsNewRows(counts, start, before) && id !in NewRows(start, before, source)
    requires forall s :: NewRows(start, after, s) == NewRows(start, before, s) + (if s == source then {id} else {})
    ensures CountsNewRows(Incremented(counts, source), start, after)
  {
    assert |NewRows(start, before, source) + {id}| == |NewRows(start, before, source)| + 1;
    forall s ensures s !in Incremented(counts, source) ==> NewRows(start, after, s) == {}
      ensures s in Incremented(counts, source) ==> Incremented(counts, source)[s] == |NewRows(start, after, s)|
    {
      assert s != source ==> NewRows(start, after, s) == NewRows(start, before, s);
    }
  }

  /** One delivery adds at most its own row to the rows counted for its source. */
  lemma CountOne(counts: map<string, nat>, start: Table, before: Table, g: Record)
    requires CountsNewRows(counts, start, before) && start.Keys <= before.Keys
    ensures start.Keys <= Loaded(before, [g]).Keys
    ensures CountsNewRows(if g.id in before then counts else Incremented(counts, g.source), start, Loaded(before, [g]))
  {
    var after := Loaded(before, [g]);
    forall s
      ensures NewRows(start, after, s)
              == NewRows(start, before, s) + (if s == g.source && g.id !in before then {g.id} else {})
    {
      NewRowsOne(start, before, g, s);
    }
    NewRowsOne(start, before, g, g.source);
    if g.id !in before { CountNewRow(counts, start, before, after, g.source, g.id); }
  }

  function RowOf(gens: Table, id: Id): Option<Row> { if id in gens then Some(gens[id]) else None }

  /** The deliveries of a batch to one ID, in order. */
  function DeliveriesTo(batch: seq<Record>, id: Id): seq<Event> {
    if batch == [] then []
    else
      var last := batch[|batch| - 1];
      DeliveriesTo(batch[..|batch| - 1], id) + if last.id == id then [Deliver(last)] else []
  }

  /** Delivering a batch is delivering, to each row, the records that have its ID. */
  lemma {:induction false} LoadedIsReplay(gens: Table, batch: seq<Record>, id: Id)
    ensures RowOf(Loaded(gens, batch), id) == Replay(RowOf(gens, id), DeliveriesTo(batch, id))
  {
    if batch == [] {
    } else {
      var prefix, last := batch[..|batch| - 1], batch[|batch| - 1];
      LoadedIsReplay(gens, prefix, id);
      if last.id == id {
        var events := DeliveriesTo(prefix, id) + [Deliver(last)];
        assert events[..|events| - 1] == DeliveriesTo(prefix, id);
      } else {
        assert DeliveriesTo(batch, id) == DeliveriesTo(prefix, id);
      }
    }
  }

  /** A batch changes only rows it has records for, and keeps all others. */
  lemma {:induction false} LoadedKeys(gens: Table, batch: seq<Record>)
    ensures Loaded(gens, batch).Keys == gens.Keys + (set i | 0 <= i < |batch| :: batch[i].id)
    ensures forall id :: id in gens && (forall i :: 0 <= i < |batch| ==> batch[i].id != id) ==>
              Loaded(gens, batch)[id] == gens[id]
  {
    var ids := set i | 0 <= i < |batch| :: batch[i].id;
    if batch == [] {
      assert ids == {};
    } else {
      var prefix := batch[..|batch| - 1];
      LoadedKeys(gens, prefix);
      assert ids == (set i | 0 <= i < |prefix| :: prefix[i].id) + {batch[|batch| - 1].id} by {
        forall i | 0 <= i < |prefix| ensures prefix[i] == batch[i] {}
      }
    }
  }
}
