/** What the aggregate queries and the Conversations page show of a database, whatever wrote to it. */
module Reports {
  import opened Wrappers
  import opened Rollup
  import opened Columns
  import opened Database
  import opened SplitQuery
  import Conversations

  ghost function UsageOf(s: Store): (db: Snapshot)
    reads s, s.usage
    ensures db.gens == s.gens && db.tokens == s.tokens
  {
    Snapshot(s.gens, s.tokens, s.usage.rows)
  }

  ghost function ConversationsOf(s: Store): (db: Snapshot)
    reads s, s.conversations
    ensures db.gens == s.gens && db.tokens == s.tokens
  {
    Snapshot(s.gens, s.tokens, s.conversations.rows)
  }

  /** In every state its writes can reach, a database has both rollups in step with its generations. */
  lemma StoreInSync(s: Store)
    requires s.Valid()
    ensures InSync(UsageDaily, UsageOf(s)) && InSync(ConversationDaily, ConversationsOf(s))
  {
  }

  /** Each measure of a raw scan is the sum or the count of its column over the rows scanned. */
  lemma ScanTotalsColumns(spec: Spec, db: Snapshot, f: Filter, hourly: bool, keep: Cell -> bool)
    ensures IsTotalOf(Scan(spec, db, f, hourly, keep).sums, db.gens, ScannedRows(spec, db, f, hourly, keep))
  {
    hide Where, IsTotalOf;
    FactsTotalColumns(spec, db.gens, ScannedRows(spec, db, f, hourly, keep));
  }

  /**
   * Answers a request: the parts chosen for the normalized filter give, for every group of cells a
   * query may ask for, what scanning all matching generations gives, each measure the sum or count
   * of its column over them; and the conversation groups read from them are the matching generations
   * grouped by conversation key.
   */
  method Query(s: Store, r: Request, now: int, hourly: bool) returns (parts: Result<seq<Part>>)
    requires s.Valid()
    ensures parts.Ok? <==> Normalize(r, now).Ok?
    ensures parts.Ok? ==>
              var f := Normalize(r, now).value;
              if hourly || f.conversation != "" then parts.value == [WherePart(hourly)] else Partitions(parts.value, f)
    ensures parts.Ok? ==>
              var f := Normalize(r, now).value;
              forall keep: Cell -> bool ::
                FactsTotal(UsageDaily, UsageOf(s), f, parts.value, keep)
                == Scan(UsageDaily, UsageOf(s), f, hourly, keep)
    ensures parts.Ok? ==>
              var f := Normalize(r, now).value;
              forall keep: Cell -> bool ::
                IsTotalOf(FactsTotal(UsageDaily, UsageOf(s), f, parts.value, keep).sums, s.gens,
                          ScannedRows(UsageDaily, UsageOf(s), f, hourly, keep))
    ensures parts.Ok? && !hourly ==>
              var f := Normalize(r, now).value;
              var groups := Conversations.Groups(ConversationsOf(s), f, parts.value);
              && groups == Conversations.RawGroups(ConversationsOf(s), f)
              && (forall k :: k in groups <==> Conversations.RowsOf(ConversationsOf(s), f, k) != {})
              && forall k :: k in groups ==>
                   IsTotalOf(groups[k].sums, s.gens, Conversations.RowsOf(ConversationsOf(s), f, k))
  {
    var filter := Normalize(r, now);
    if filter.Err? { return Err(filter.message); }
    var f := filter.value;
    var chosen := FactsSql(f, hourly);
    StoreInSync(s);
    hide Normalize, InSync, FactsTotal, Scan, IsTotalOf, Where, Conversations.Groups, Conversations.RawGroups;
    forall keep: Cell -> bool
      ensures FactsTotal(UsageDaily, UsageOf(s), f, chosen, keep) == Scan(UsageDaily, UsageOf(s), f, hourly, keep)
      ensures IsTotalOf(FactsTotal(UsageDaily, UsageOf(s), f, chosen, keep).sums, s.gens,
                        ScannedRows(UsageDaily, UsageOf(s), f, hourly, keep))
    {
      SplitQueryEqualsScan(UsageDaily, UsageOf(s), f, hourly, chosen, keep);
      ScanTotalsColumns(UsageDaily, UsageOf(s), f, hourly, keep);
    }
    if !hourly {
      Conversations.GroupsEqualRawGroups(ConversationsOf(s), f, chosen);
      Conversations.GroupsTotalColumns(ConversationsOf(s), f);
    }
    return Ok(chosen);
  }
}
