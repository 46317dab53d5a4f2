/** The Conversations page (internal/storage/conversations.go): groups, their latest row, and drill-down. */
module Conversations {
  import opened Wrappers
  import opened Text
  import opened Generations
  import opened Aggregates
  import opened Maintenance
  import opened Rollup
  import opened Columns
  import opened SplitQuery

  /** The cells of one conversation group. */
  function Of(k: string): Cell -> bool { (c: Cell) => c.key.conversation == k }

  /** WITH g: SELECT conversation, sums, MIN(first_ts), MAX(last_ts) FROM facts GROUP BY conversation. */
  ghost function Groups(db: Snapshot, f: Filter, parts: seq<Part>): map<string, Agg> {
    map k | k in ConversationKeys(db)
            && AnyFact(ConversationDaily, db, f, parts, Of(k)) :: FactsTotal(ConversationDaily, db, f, parts, Of(k))
  }

  ghost function ConversationKeys(db: Snapshot): set<string> {
    (set id | id in db.gens :: ConversationKey(db.gens[id])) + (set k | k in db.rollup :: k.conversation)
  }

  /** The matching rows of one conversation. */
  ghost function RowsOf(db: Snapshot, f: Filter, k: string): set<Id> {
    set id | id in db.gens && Where(f, db.tokens, db.gens[id]) && ConversationKey(db.gens[id]) == k
  }

  /** The raw rows that match the filter, grouped by conversation key. */
  ghost function RawGroups(db: Snapshot, f: Filter): map<string, Agg> {
    map k | k in ConversationKeys(db) && RowsOf(db, f, k) != {} ::
      Fold(Pick(FactsOf(ConversationDaily, db.gens), RowsOf(db, f, k)))
  }

  lemma ScannedAreRowsOf(db: Snapshot, f: Filter, k: string)
    ensures ScannedRows(ConversationDaily, db, f, false, Of(k)) == RowsOf(db, f, k)
  {
  }

  lemma RowsHaveKey(db: Snapshot, f: Filter, k: string)
    ensures k in RawGroups(db, f) <==> RowsOf(db, f, k) != {}
  {
    hide Where;
    if id :| id in RowsOf(db, f, k) { assert ConversationKey(db.gens[id]) in ConversationKeys(db); }
  }

  lemma GroupEqualsRawGroup(db: Snapshot, f: Filter, parts: seq<Part>, k: string)
    requires InSync(ConversationDaily, db) && ValidToken(f)
    requires if f.conversation != "" then parts == [WherePart(false)] else Partitions(parts, f)
    ensures k in Groups(db, f, parts) <==> k in RawGroups(db, f)
    ensures k in RawGroups(db, f) ==> Groups(db, f, parts)[k] == RawGroups(db, f)[k]
  {
    hide InSync, Partitions, ScannedRows, RowsOf, AnyFact, Scan, FactsTotal;
    GroupHasRow(ConversationDaily, db, f, false, parts, Of(k));
    ScannedAreRowsOf(db, f, k);
    SplitQueryEqualsScan(ConversationDaily, db, f, false, parts, Of(k));
    ScanIsRawGroup(db, f, k);
  }

  lemma ScanIsRawGroup(db: Snapshot, f: Filter, k: string)
    ensures Scan(ConversationDaily, db, f, false, Of(k))
            == Fold(Pick(FactsOf(ConversationDaily, db.gens), RowsOf(db, f, k)))
  {
    ScannedAreRowsOf(db, f, k);
  }

  /**
   * The page's groups are the raw matching rows grouped by key, with the same sums and first and last
   * times, and every matching row is in one.
   */
  lemma GroupsEqualRawGroups(db: Snapshot, f: Filter, parts: seq<Part>)
    requires InSync(ConversationDaily, db) && ValidToken(f)
    requires if f.conversation != "" then parts == [WherePart(false)] else Partitions(parts, f)
    ensures Groups(db, f, parts) == RawGroups(db, f)
    ensures forall k :: k in Groups(db, f, parts) <==> RowsOf(db, f, k) != {}
  {
    forall k ensures k in RawGroups(db, f) <==> RowsOf(db, f, k) != {} { RowsHaveKey(db, f, k); }
    hide InSync, Partitions, Groups, RawGroups;
    var groups, raw := Groups(db, f, parts), RawGroups(db, f);
    forall k ensures k in groups <==> k in raw
      ensures k in raw ==> groups[k] == raw[k]
    {
      GroupEqualsRawGroup(db, f, parts, k);
    }
  }

  /** Each measure of a group is the sum or the count of its column over the group's rows. */
  lemma GroupsTotalColumns(db: Snapshot, f: Filter)
    ensures forall k :: k in RawGroups(db, f) ==> IsTotalOf(RawGroups(db, f)[k].sums, db.gens, RowsOf(db, f, k))
  {
    hide Where, IsTotalOf;
    forall k | k in RawGroups(db, f) { FactsTotalColumns(ConversationDaily, db.gens, RowsOf(db, f, k)); }
  }

  /** The row the page joins as a group's latest: at last_ts, in the group, matching the filter. */
  ghost predicate IsLatest(db: Snapshot, f: Filter, k: string, lastTs: nat, id: Id) {
    id in RowsOf(db, f, k) && db.gens[id].timestamp == lastTs
  }

  /** A non-empty set of rows has a row at the exact first and last timestamp of its aggregate. */
  lemma PickSpan(gens: Table, rows: set<Id>)
    requires rows != {} && rows <= gens.Keys
    ensures var agg := Fold(Pick(FactsOf(ConversationDaily, gens), rows));
            && agg.sums.requests == |rows| && agg.span.Some?
            && (exists id :: id in rows && gens[id].timestamp == agg.span.value.first)
            && (exists id :: id in rows && gens[id].timestamp == agg.span.value.last)
            && (forall id :: id in rows ==> agg.span.value.first <= gens[id].timestamp <= agg.span.value.last)
  {
    var facts := FactsOf(ConversationDaily, gens);
    var group := Pick(facts, rows);
    forall id | id in rows
      ensures id in group && UnitFact(group[id], true)
      ensures group[id].span == Some(Span(gens[id].timestamp, gens[id].timestamp))
    {
    }
    assert group.Keys == rows;
    FoldShape(group, true);
    var span := Fold(group).span.value;
    assert span.first in Times(group) && span.last in Times(group);
    forall id | id in rows ensures gens[id].timestamp in Times(group) {
      assert group[id].span.value.first == gens[id].timestamp;
    }
  }

  /**
   * The latest-row lookup never comes up empty: every group on the page has a matching generation
   * at exactly its last timestamp, no matching one of its generations is later, and none is
   * earlier than its first. The request count is the number of its matching rows.
   */
  lemma LatestRowExists(db: Snapshot, f: Filter, parts: seq<Part>, k: string)
    requires InSync(ConversationDaily, db) && ValidToken(f)
    requires if f.conversation != "" then parts == [WherePart(false)] else Partitions(parts, f)
    ensures k in Groups(db, f, parts) ==>
              var g := Groups(db, f, parts)[k];
              && g.span.Some? && g.sums.requests == |RowsOf(db, f, k)| > 0
              && (exists id :: IsLatest(db, f, k, g.span.value.last, id))
              && (exists id :: id in RowsOf(db, f, k) && db.gens[id].timestamp == g.span.value.first)
              && (forall id :: id in RowsOf(db, f, k) ==>
                    g.span.value.first <= db.gens[id].timestamp <= g.span.value.last)
  {
    GroupEqualsRawGroup(db, f, parts, k);
    if k in Groups(db, f, parts) {
      PickSpan(db.gens, RowsOf(db, f, k));
      var g := Groups(db, f, parts)[k];
      var id :| id in RowsOf(db, f, k) && db.gens[id].timestamp == g.span.value.last;
      assert IsLatest(db, f, k, g.span.value.last, id);
    }
  }

  // What groups and conversation filters tell apart.

  /** What a row belongs to: its own conversation, or the session-less activity of its day. */
  datatype Activity = Autocomplete | TitleProgress | Other | Conversation(id: string)

  function ActivityOf(row: Row): Activity {
    if row.source == COPILOT && row.agent == Some(XTAB_PROVIDER) then Autocomplete
    else if row.source == COPILOT && row.agent in {Some(TITLE), Some(PROGRESS_MESSAGES)} then TitleProgress
    else match row.conversation
      case None => Other
      case Some(id) => Conversation(id)
  }

  /** The row's own conversation ID, if it shows, reads like no per-day key. */
  predicate HonestId(row: Row) { ActivityOf(row).Conversation? ==> !MimicsDayKey(ActivityOf(row).id) }

  function PrefixOf(activity: Activity): string
    requires !activity.Conversation?
  {
    match activity
    case Autocomplete => AUTOCOMPLETE_PREFIX
    case TitleProgress => TITLE_PROGRESS_PREFIX
    case Other => OTHER_PREFIX
  }

  lemma KeyOfActivity(row: Row)
    ensures ConversationKey(row) == if ActivityOf(row).Conversation? then ActivityOf(row).id
                                    else PrefixOf(ActivityOf(row)) + Decimal(DayOf(row.timestamp))
  {
  }

  lemma DayKeys(a: Activity, b: Activity, day: nat, other: nat)
    requires !a.Conversation? && !b.Conversation?
    ensures PrefixOf(a) + Decimal(day) == PrefixOf(b) + Decimal(other) <==> a == b && day == other
    ensures MimicsDayKey(PrefixOf(a) + Decimal(day))
  {
    var x, y := PrefixOf(a) + Decimal(day), PrefixOf(b) + Decimal(other);
    assert x[0] == PrefixOf(a)[0] && y[0] == PrefixOf(b)[0];
    if x == y {
      assert a == b;
      assert x[|PrefixOf(a)|..] == Decimal(day) && y[|PrefixOf(b)|..] == Decimal(other);
      DecimalInjective(day, other);
    }
    assert PrefixOf(a) <= x;
  }

  lemma DaysDiffer(a: nat, b: nat)
    ensures DayOf(a) == DayOf(b) <==> a / DAY_MS == b / DAY_MS
  {
  }

  /**
   * Two rows are grouped together exactly when they belong to the same conversation, or to
   * session-less activity of the same kind on the same UTC day.
   */
  lemma GroupedIff(a: Row, b: Row)
    requires HonestId(a) && HonestId(b)
    ensures ConversationKey(a) == ConversationKey(b)
            <==> ActivityOf(a) == ActivityOf(b)
                 && (ActivityOf(a).Conversation? || a.timestamp / DAY_MS == b.timestamp / DAY_MS)
  {
    KeyOfActivity(a);
    KeyOfActivity(b);
    DaysDiffer(a.timestamp, b.timestamp);
    hide ConversationKey, ActivityOf, DayOf, MimicsDayKey, PrefixOf;
    var some, other := ActivityOf(a), ActivityOf(b);
    if !some.Conversation? {
      DayKeys(some, if other.Conversation? then some else other, DayOf(a.timestamp), DayOf(b.timestamp));
    } else if !other.Conversation? {
      DayKeys(other, other, DayOf(b.timestamp), DayOf(a.timestamp));
    }
  }

  /** A conversation filter selects a kind of session-less activity, all of it, one conversation, or every row. */
  lemma FilterSelectsActivity(f: Filter, row: Row)
    ensures MatchesConversation(f, row)
            <==> var activity := ActivityOf(row);
                 if f.conversation == "" then true
                 else if f.conversation == CONVERSATION_NONE then !activity.Conversation?
                 else if f.conversation == CONVERSATION_AUTOCOMPLETE then activity.Autocomplete?
                 else if f.conversation == CONVERSATION_TITLE_PROGRESS then activity.TitleProgress?
                 else activity == Conversation(f.conversation)
    ensures KeyOf(UsageDaily, row).helper <==> ActivityOf(row).Autocomplete? || ActivityOf(row).TitleProgress?
  {
  }

  // Pagination.

  /** An enumeration of the groups in the requested order of last activity; ties may go either way. */
  ghost predicate Ordered(groups: map<string, Agg>, order: seq<string>, newestFirst: bool) {
    && (forall k :: k in order <==> k in groups)
    && (forall i, j :: 0 <= i < j < |order| ==> order[i] != order[j])
    && (forall i, j :: 0 <= i < j < |order| && groups[order[i]].span.Some? && groups[order[j]].span.Some? ==>
          if newestFirst then groups[order[i]].span.value.last >= groups[order[j]].span.value.last
          else groups[order[i]].span.value.last <= groups[order[j]].span.value.last)
  }

  /** LIMIT ? OFFSET ?. */
  function Page(order: seq<string>, limit: nat, offset: nat): seq<string> {
    if offset >= |order| then [] else order[offset..Min(offset + limit, |order|)]
  }

  /**
   * Pages of one enumeration: the groups before a page are the offset's number of groups with
   * newer (or older) activity, a page is full unless it is the last, and the pager's total is the
   * number of groups.
   */
  lemma PageIsWindow(groups: map<string, Agg>, order: seq<string>, newestFirst: bool, limit: nat, offset: nat)
    requires Ordered(groups, order, newestFirst) && limit > 0
    ensures |order| == |groups.Keys|
    ensures |Page(order, limit, offset)| == Max(0, Min(limit, |groups.Keys| - offset))
    ensures forall i :: 0 <= i < |Page(order, limit, offset)| ==> Page(order, limit, offset)[i] == order[offset + i]
    ensures forall k :: k in Page(order, limit, offset) ==> k in groups && k !in Page(order, limit, offset + limit)
  {
    DistinctCount(order, groups.Keys);
    forall k | k in Page(order, limit, offset) ensures k in groups && k !in Page(order, limit, offset + limit) {
      var i :| 0 <= i < |Page(order, limit, offset)| && Page(order, limit, offset)[i] == k;
      assert order[offset + i] == k;
    }
  }

  lemma {:induction false} DistinctCount(order: seq<string>, keys: set<string>)
    requires forall k :: k in order <==> k in keys
    requires forall i, j :: 0 <= i < j < |order| ==> order[i] != order[j]
    ensures |order| == |keys|
  {
    if order == [] {
      assert keys == {};
    } else {
      var last := order[|order| - 1];
      var rest := order[..|order| - 1];
      forall k ensures k in rest <==> k in keys - {last} {
        assert order == rest + [last];
        if k in rest {
          var i :| 0 <= i < |rest| && rest[i] == k;
          assert order[i] != order[|order| - 1];
        }
      }
      assert last in keys;
      DistinctCount(rest, keys - {last});
    }
  }

  // Keys as shown, and the filter a card drills down to.

  /** The Key of a ConversationSummary: generic "other" groups collapse to the empty key. */
  function ShownKey(k: string): string { if HasPrefix(k, OTHER_PREFIX) then "" else k }

  /** ConversationFilterForKey. */
  function FilterForKey(key: string): string {
    if key == "" then CONVERSATION_NONE
    else if HasPrefix(key, AUTOCOMPLETE_PREFIX) then CONVERSATION_AUTOCOMPLETE
    else if HasPrefix(key, TITLE_PROGRESS_PREFIX) then CONVERSATION_TITLE_PROGRESS
    else key
  }

  /** The conversation condition of the normalized filter a group's card leads to. */
  predicate DrillsDownTo(k: string, row: Row) {
    var conversation := TrimSpace(FilterForKey(ShownKey(k)));
    MatchesConversation(Filter(None, 0, "", "", "", conversation, AnyToken, "", false), row)
  }

  /** A conversation ID that neither looks like a group key or a sentinel nor loses characters to trimming. */
  predicate PlainConversation(k: string) {
    && k != "" && TrimSpace(k) == k && !MimicsDayKey(k)
    && k != CONVERSATION_NONE && k != CONVERSATION_AUTOCOMPLETE && k != CONVERSATION_TITLE_PROGRESS
  }

  /** A row of the given conversation, of a source without session-less agents. */
  function RowIn(conversation: string): Row {
    Row(0, CODEX, None, None, None, None, None, None, None, None, None, Some(conversation), None, None,
        None, None, None, None, false, Unknown, false, 0, None, None, None)
  }

  /**
   * Drilling down from the card of a stored conversation ID selects exactly the rows of its group
   * if and only if the ID is plain. An ID such as "none" or "other:1" selects other rows.
   */
  lemma DrillDownIsExact(k: string)
    ensures (forall row: Row :: DrillsDownTo(k, row) <==> ConversationKey(row) == k) <==> PlainConversation(k)
  {
    if PlainConversation(k) {
      forall row: Row ensures DrillsDownTo(k, row) <==> ConversationKey(row) == k {
        if ConversationKey(row) == k { KeyNamesConversation(row); }
        SyntheticKeysMimic(row);
      }
    } else {
      assert ConversationKey(RowIn(k)) == k;
      var other := k + "x";
      assert other != k && ConversationKey(RowIn(other)) == other;
      SentinelsAreTrimmed();
      if TrimSpace(FilterForKey(ShownKey(k))) == "" {
        assert DrillsDownTo(k, RowIn(other));
      } else {
        assert !DrillsDownTo(k, RowIn(k));
      }
    }
  }

  lemma CardFilter(row: Row)
    requires !ActivityOf(row).Conversation?
    ensures FilterForKey(ShownKey(ConversationKey(row))) == match ActivityOf(row)
              case Autocomplete => CONVERSATION_AUTOCOMPLETE
              case TitleProgress => CONVERSATION_TITLE_PROGRESS
              case _ => CONVERSATION_NONE
  {
    KeyOfActivity(row);
    var key, prefix := ConversationKey(row), PrefixOf(ActivityOf(row));
    assert prefix <= prefix + Decimal(DayOf(row.timestamp));
    assert key[0] == prefix[0];
    hide ActivityOf, Decimal, ConversationKey;
  }

  /**
   * The card of a day's autocomplete or title and progress group leads to all activity of its kind,
   * and the card of any other session-less group to all session-less activity.
   */
  lemma DayCardSelects(row: Row, other: Row)
    requires !ActivityOf(row).Conversation?
    ensures DrillsDownTo(ConversationKey(row), other)
            <==> if ActivityOf(row).Other? then !ActivityOf(other).Conversation?
                 else ActivityOf(other) == ActivityOf(row)
  {
    SentinelsAreTrimmed();
    CardFilter(row);
    var conversation := FilterForKey(ShownKey(ConversationKey(row)));
    FilterSelectsActivity(Filter(None, 0, "", "", "", conversation, AnyToken, "", false), other);
    hide TrimSpace, ConversationKey, ActivityOf, MatchesConversation, FilterForKey, ShownKey;
  }

  lemma SyntheticKeysMimic(row: Row)
    ensures MimicsDayKey(ConversationKey(row))
            || (row.conversation == Some(ConversationKey(row)) && !SessionlessAgent(row.source, row.agent))
  {
    var day := Decimal(DayOf(row.timestamp));
    assert OTHER_PREFIX <= OTHER_PREFIX + day;
    assert AUTOCOMPLETE_PREFIX <= AUTOCOMPLETE_PREFIX + day;
    assert TITLE_PROGRESS_PREFIX <= TITLE_PROGRESS_PREFIX + day;
  }

  lemma SentinelsAreTrimmed()
    ensures TrimSpace(CONVERSATION_NONE) == CONVERSATION_NONE
    ensures TrimSpace(CONVERSATION_AUTOCOMPLETE) == CONVERSATION_AUTOCOMPLETE
    ensures TrimSpace(CONVERSATION_TITLE_PROGRESS) == CONVERSATION_TITLE_PROGRESS
  {
  }
}
