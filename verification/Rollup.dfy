/**
 * The two daily rollups, usage_daily and conversation_daily, with the facts they are made of
 * and the statements of the generated triggers, run in place (internal/storage/rollup.go).
 */
module Rollup {
  import opened Wrappers
  import opened Text
  import opened Generations
  import opened Aggregates
  import opened Maintenance

  datatype Spec = UsageDaily | ConversationDaily

  /** Primary key. usage_daily has no conversation column and conversation_daily no helper column. */
  datatype Key = Key(day: nat, conversation: string, source: string, provider: string, model: string, token: int,
                     helper: bool)

  type View = map<Key, Agg>

  function KeyOf(spec: Spec, row: Row): Key {
    Key(DayOf(row.timestamp), if spec.UsageDaily? then "" else ConversationKey(row), row.source,
        row.provider.GetOr(""), row.model.GetOr(""), row.token.GetOr(0),
        spec.UsageDaily? && SessionlessAgent(row.source, row.agent))
  }

  function Flag(b: bool): int { if b then 1 else 0 }

  /** factMeasuresSQL. */
  function FactMeasures(row: Row): Measures {
    Measures(1,
             UncachedInputSql(row.source, row.input, row.cacheRead, row.cacheCreation),
             OutputTokensSql(row.source, row.output, row.reasoning),
             row.cacheRead.GetOr(0), row.cacheCreation.GetOr(0), row.reasoning.GetOr(0),
             Flag(row.costSource == Harness && row.cost.Some?),
             Flag((row.costSource == OpenRouter || row.costSource == Manual) && row.cost.Some?),
             Flag(row.costSource == Free && row.cost.Some?),
             Flag(row.cost.Some?),
             row.cost.GetOr(0.0))
  }

  /** rowFactsSQL: one row's key and facts; only conversation_daily has first_ts and last_ts. */
  function RowFact(spec: Spec, row: Row): Fact<Key> {
    Fact(KeyOf(spec, row),
         Agg(FactMeasures(row), if spec.ConversationDaily? then Some(Span(row.timestamp, row.timestamp)) else None))
  }

  ghost function FactsOf(spec: Spec, gens: Table): Facts<Id, Key> {
    map id | id in gens :: RowFact(spec, gens[id])
  }

  /** What the rollup must hold: the plain group-by of the generations. */
  ghost function Rollups(spec: Spec, gens: Table): View { GroupBy(FactsOf(spec, gens)) }

  /** spanScope's guard: the group is keyed by the row's own conversation ID, which mimics no per-day key. */
  predicate Guard(row: Row) {
    row.conversation == Some(ConversationKey(row)) && !MimicsDayKey(ConversationKey(row))
  }

  /** A row spanStmtSQL searches: of the removed row's day and keys, and of its conversation ID when narrowed. */
  predicate IsSearched(candidate: Row, row: Row, narrow: bool) {
    && (narrow ==> row.conversation.Some? && candidate.conversation == row.conversation)
    && DayOf(row.timestamp) <= candidate.timestamp < DayOf(row.timestamp) + DAY_MS
    && KeyOf(ConversationDaily, candidate).(day := 0) == KeyOf(ConversationDaily, row).(day := 0)
  }

  function Searched(gens: Table, row: Row, narrow: bool): set<nat> {
    set id | id in gens && IsSearched(gens[id], row, narrow) :: gens[id].timestamp
  }

  // Why the searches are the group's rows.

  lemma SameDay(a: nat, b: nat)
    ensures DayOf(a) == DayOf(b) <==> DayOf(a) <= b < DayOf(a) + DAY_MS
  {
  }

  /** A key that mimics no per-day key can only be the row's own conversation ID. */
  lemma KeyNamesConversation(row: Row)
    requires !MimicsDayKey(ConversationKey(row))
    ensures row.conversation == Some(ConversationKey(row))
  {
    var day := Decimal(DayOf(row.timestamp));
    assert OTHER_PREFIX <= OTHER_PREFIX + day;
    assert AUTOCOMPLETE_PREFIX <= AUTOCOMPLETE_PREFIX + day;
    assert TITLE_PROGRESS_PREFIX <= TITLE_PROGRESS_PREFIX + day;
  }

  lemma SearchedRow(candidate: Row, row: Row, narrow: bool)
    requires narrow ==> Guard(row)
    ensures IsSearched(candidate, row, narrow) <==> KeyOf(ConversationDaily, candidate) == KeyOf(ConversationDaily, row)
  {
    SameDay(row.timestamp, candidate.timestamp);
    if narrow && KeyOf(ConversationDaily, candidate) == KeyOf(ConversationDaily, row) {
      KeyNamesConversation(candidate);
    }
  }

  /** Narrowing the search to one conversation ID under the guard loses no row of the group, and adds none. */
  lemma SearchedIsGroup(gens: Table, row: Row, narrow: bool)
    requires narrow ==> Guard(row)
    ensures Searched(gens, row, narrow) == Times(Group(FactsOf(ConversationDaily, gens), KeyOf(ConversationDaily, row)))
  {
    var group := Group(FactsOf(ConversationDaily, gens), KeyOf(ConversationDaily, row));
    forall id | id in gens
      ensures IsSearched(gens[id], row, narrow) <==> id in group
      ensures id in group ==> group[id].span == Some(Span(gens[id].timestamp, gens[id].timestamp))
    {
      SearchedRow(gens[id], row, narrow);
    }
    forall t | t in Searched(gens, row, narrow) ensures t in Times(group) {
      var id :| id in gens && IsSearched(gens[id], row, narrow) && t == gens[id].timestamp;
      assert id in group && group[id].span.value.first == t;
    }
  }

  lemma FactsAreUnit(spec: Spec, gens: Table)
    ensures UnitFacts(FactsOf(spec, gens), spec.ConversationDaily?)
  {
  }

  lemma FactsOfWrite(spec: Spec, gens: Table, id: Id, row: Row)
    ensures FactsOf(spec, gens[id := row]) == FactsOf(spec, gens)[id := RowFact(spec, row)]
    ensures FactsOf(spec, gens - {id}) == FactsOf(spec, gens) - {id}
  {
  }

  // The trigger bodies up to their span statements.

  /** The insert trigger. */
  lemma InsertSyncs(spec: Spec, gens: Table, id: Id, row: Row)
    requires id !in gens
    ensures Upserted(Rollups(spec, gens), RowFact(spec, row), false) == Rollups(spec, gens[id := row])
  {
    FactsOfWrite(spec, gens, id, row);
    InsertKeepsGroupBy(FactsOf(spec, gens), id, RowFact(spec, row));
  }

  /** The delete trigger up to its span statements: subtract and prune. */
  lemma DeleteSyncsButSpan(spec: Spec, gens: Table, id: Id)
    requires id in gens
    ensures var was := RowFact(spec, gens[id]);
            SyncButSpan(Pruned(Upserted(Rollups(spec, gens), was, true), was.key), FactsOf(spec, gens - {id}), was)
  {
    var rest, was := gens - {id}, RowFact(spec, gens[id]);
    FactsOfWrite(spec, rest, id, gens[id]);
    assert rest[id := gens[id]] == gens;
    SubtractLeavesUnpruned(FactsOf(spec, rest), id, was);
    FactsAreUnit(spec, rest);
    PruneSyncs(FactsOf(spec, rest), was, spec.ConversationDaily?);
  }

  /** The update trigger up to its span statements: subtract the old row, add the new one, prune the old group. */
  lemma UpdateSyncsButSpan(spec: Spec, gens: Table, id: Id, row: Row)
    requires id in gens
    ensures var was, now := RowFact(spec, gens[id]), RowFact(spec, row);
            SyncButSpan(Pruned(Upserted(Upserted(Rollups(spec, gens), was, true), now, false), was.key),
                        FactsOf(spec, gens[id := row]), was)
  {
    var rest, was, now := gens - {id}, RowFact(spec, gens[id]), RowFact(spec, row);
    assert rest[id := gens[id]] == gens && rest[id := row] == gens[id := row];
    FactsOfWrite(spec, rest, id, gens[id]);
    FactsOfWrite(spec, rest, id, row);
    SubtractLeavesUnpruned(FactsOf(spec, rest), id, was);
    AddKeepsUnpruned(FactsOf(spec, rest), id, now, was);
    FactsAreUnit(spec, gens[id := row]);
    PruneSyncs(FactsOf(spec, gens[id := row]), was, spec.ConversationDaily?);
  }

  /** A span statement that applies restores the group-by, and its search never comes up empty. */
  lemma RespanSyncs(view: View, gens: Table, row: Row, narrow: bool)
    requires SyncButSpan(view, FactsOf(ConversationDaily, gens), RowFact(ConversationDaily, row))
    requires narrow ==> Guard(row)
    ensures Respanned(view, KeyOf(ConversationDaily, row), row.timestamp, Searched(gens, row, narrow))
            == Some(Rollups(ConversationDaily, gens))
  {
    FactsAreUnit(ConversationDaily, gens);
    SearchedIsGroup(gens, row, narrow);
    RespanRestoresGroupBy(FactsOf(ConversationDaily, gens), view, RowFact(ConversationDaily, row));
  }

  lemma UsageNeedsNoRespan(view: View, gens: Table, row: Row)
    requires SyncButSpan(view, FactsOf(UsageDaily, gens), RowFact(UsageDaily, row))
    ensures view == Rollups(UsageDaily, gens)
  {
    FactsAreUnit(UsageDaily, gens);
    UntimedNeedsNoRespan(FactsOf(UsageDaily, gens), view, RowFact(UsageDaily, row));
  }

  /**
   * The WHEN clause is sound and its column list is complete: an update of a row that changes no
   * input column leaves both group-bys as they are.
   */
  lemma UnchangedInputsKeepRollups(spec: Spec, gens: Table, id: Id, row: Row)
    requires id in gens && FactInputs(gens[id]) == FactInputs(row)
    ensures Rollups(spec, gens[id := row]) == Rollups(spec, gens)
  {
    FactsOfWrite(spec, gens, id, row);
    assert RowFact(spec, row) == RowFact(spec, gens[id]);
    assert FactsOf(spec, gens)[id := RowFact(spec, row)] == FactsOf(spec, gens);
  }

  /** No group has zero requests, none is missing, and conversation groups span exactly their rows. */
  lemma RollupShape(spec: Spec, gens: Table, k: Key)
    ensures k in Rollups(spec, gens) <==> exists id :: id in gens && KeyOf(spec, gens[id]) == k
    ensures k in Rollups(spec, gens) ==> Rollups(spec, gens)[k].sums.requests > 0
    ensures k in Rollups(spec, gens) && spec.ConversationDaily? ==>
              Rollups(spec, gens)[k].span.Some?
              && ExactSpan(set id | id in gens && KeyOf(spec, gens[id]) == k :: gens[id].timestamp,
                           Rollups(spec, gens)[k].span.value)
  {
    var facts := FactsOf(spec, gens);
    KeyHasFact(facts, k);
    FactsAreUnit(spec, gens);
    FoldShape(Group(facts, k), spec.ConversationDaily?);
    if k in Rollups(spec, gens) {
      var i :| i in facts && facts[i].key == k;
      assert i in gens && KeyOf(spec, gens[i]) == k;
      if spec.ConversationDaily? {
        var times := set id | id in gens && KeyOf(spec, gens[id]) == k :: gens[id].timestamp;
        assert times == Times(Group(facts, k)) by {
          forall id | id in gens && KeyOf(spec, gens[id]) == k
            ensures id in Group(facts, k)
            ensures Group(facts, k)[id].span == Some(Span(gens[id].timestamp, gens[id].timestamp))
          {
          }
        }
      }
    }
    if id :| id in gens && KeyOf(spec, gens[id]) == k {
      assert facts[id].key == k;
    }
  }

  /** One rollup table. Each method is one statement of a trigger. */
  class RollupTable {
    const spec: Spec
    var rows: View

    constructor (spec: Spec, rows: View)
      ensures this.spec == spec && this.rows == rows
    {
      this.spec := spec;
      this.rows := rows;
    }

    /** addSQL(row, "+") and addSQL(row, "-"). */
    method Upsert(row: Row, removing: bool)
      modifies this
      ensures rows == Upserted(old(rows), RowFact(spec, row), removing)
    {
      var fact := RowFact(spec, row);
      var sums := if removing then fact.agg.sums.Negated() else fact.agg.sums;
      if fact.key !in rows {
        rows := rows[fact.key := Agg(sums, fact.agg.span)];
      } else {
        var was := rows[fact.key];
        var widened := if removing then was.span else Widen(was.span, fact.agg.span);
        rows := rows[fact.key := Agg(was.sums.Plus(sums), widened)];
      }
    }

    /** pruneSQL. */
    method Prune(row: Row)
      modifies this
      ensures rows == Pruned(old(rows), KeyOf(spec, row))
    {
      var k := KeyOf(spec, row);
      if k in rows && rows[k].sums.requests == 0 {
        rows := rows - {k};
      }
    }

    /**
     * spanSQL: the narrowed statement for rows the guard holds of, then the full-day one for the
     * others. ok is false when a statement would have failed on a NOT NULL column.
     */
    method Respan(row: Row, gens: Table) returns (ok: bool)
      requires spec.ConversationDaily?
      requires SyncButSpan(rows, FactsOf(spec, gens), RowFact(spec, row))
      modifies this
      ensures ok && rows == Rollups(spec, gens)
    {
      if Guard(row) {
        RespanSyncs(rows, gens, row, true);
        ok := RespanStatement(row, gens, true);
      }
      if !Guard(row) {
        RespanSyncs(rows, gens, row, false);
        ok := RespanStatement(row, gens, false);
      }
    }

    /** spanStmtSQL for a group its guard holds of. */
    method RespanStatement(row: Row, gens: Table, narrow: bool) returns (ok: bool)
      modifies this
      ensures var r := Respanned(old(rows), KeyOf(spec, row), row.timestamp, Searched(gens, row, narrow));
              ok == r.Some? && rows == r.GetOr(old(rows))
    {
      var k := KeyOf(spec, row);
      if k !in rows || rows[k].span.None? { return true; }
      var span := rows[k].span.value;
      if row.timestamp != span.first && row.timestamp != span.last { return true; }
      var first, last := Some(span.first), Some(span.last);
      if row.timestamp == span.first { first := Least(From(Searched(gens, row, narrow), row.timestamp)); }
      if row.timestamp == span.last { last := Greatest(UpTo(Searched(gens, row, narrow), row.timestamp)); }
      if first.None? || last.None? { return false; }
      rows := rows[k := Agg(rows[k].sums, Some(Span(first.value, last.value)))];
      return true;
    }
  }
}
