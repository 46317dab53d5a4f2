/**
 * Filters and the facts an aggregate query reads (Filter in internal/storage/usage.go and
 * factsSQL in internal/storage/rollup.go): raw rows at the edges of a range, whole rollup days
 * inside it, and why that is the same as scanning every matching row.
 */
module SplitQuery {
  import opened Wrappers
  import opened Text
  import opened Generations
  import opened Aggregates
  import opened Maintenance
  import opened Rollup

  const CONVERSATION_NONE := "none"
  const CONVERSATION_AUTOCOMPLETE := "autocomplete"
  const CONVERSATION_TITLE_PROGRESS := "titleprogress"

  /** The token text of a request, as strconv.ParseInt reads it. */
  datatype TokenText = Blank | NoneWord | Numeral(n: int) | Junk

  datatype TokenFilter = AnyToken | NoToken | OneToken(id: int)

  /** A filter as requested: a zero From or To is absent. */
  datatype Request = Request(
    from: Option<int>, to: Option<int>, source: string, provider: string, model: string,
    conversation: string, token: TokenText, group: string, ungrouped: bool)

  /** A normalized filter: an upper bound is always set. */
  datatype Filter = Filter(
    from: Option<int>, to: int, source: string, provider: string, model: string,
    conversation: string, token: TokenFilter, group: string, ungrouped: bool)

  /** Filter.normalize. */
  function Normalize(r: Request, now: int): (f: Result<Filter>)
    ensures f.Ok? == ((r.token.Numeral? ==> r.token.n > 0) && !r.token.Junk?
                      && (r.from.Some? ==> r.from.value <= r.to.GetOr(now)))
    ensures f.Ok? && f.value.token.OneToken? ==> f.value.token.id > 0
    ensures f.Ok? && f.value.from.Some? ==> f.value.from.value <= f.value.to
  {
    if r.token.Junk? || (r.token.Numeral? && r.token.n <= 0) then Err("invalid token filter")
    else
      var to := r.to.GetOr(now);
      if r.from.Some? && to < r.from.value then Err("invalid filter: to before from")
      else
        var token := match r.token
          case Blank => AnyToken
          case NoneWord => NoToken
          case Numeral(n) => OneToken(n)
          case Junk => assert false; AnyToken;
        Ok(Filter(r.from, to, TrimSpace(r.source), TrimSpace(r.provider), TrimSpace(r.model),
                  TrimSpace(r.conversation), token, TrimSpace(r.group), r.ungrouped))
  }

  /** A normalized filter as a request of its own. */
  function AsRequest(f: Filter): Request {
    var token := match f.token
      case AnyToken => Blank
      case NoToken => NoneWord
      case OneToken(id) => Numeral(id);
    Request(f.from, Some(f.to), f.source, f.provider, f.model, f.conversation, token, f.group, f.ungrouped)
  }

  /**
   * Normalizing only trims blanks off the texts and fills in the current time as the end: a request
   * that sets an end keeps both bounds, and normalizing again, at any later time, changes nothing.
   */
  lemma NormalizeIsStable(r: Request, now: int, later: int)
    requires Normalize(r, now).Ok?
    ensures var f := Normalize(r, now).value;
            && f.from == r.from && f.to == r.to.GetOr(now) && f.ungrouped == r.ungrouped
            && Trims(f.source, r.source) && Trims(f.provider, r.provider) && Trims(f.model, r.model)
            && Trims(f.conversation, r.conversation) && Trims(f.group, r.group)
            && Normalize(AsRequest(f), later) == Ok(f)
  {
    hide Trims, TrimSpace;
    forall s ensures Trims(TrimSpace(s), s) && TrimSpace(TrimSpace(s)) == TrimSpace(s) {
      TrimSpaceTrims(s);
      TrimSpaceAgain(s);
    }
  }

  // What a filter means for a stored row (whereSQL). A NULL column equals nothing.

  predicate InRange(f: Filter, timestamp: nat) {
    (f.from.Some? ==> f.from.value <= timestamp) && timestamp < f.to
  }

  predicate MatchesConversation(f: Filter, row: Row) {
    if f.conversation == CONVERSATION_NONE then row.conversation.None? || SessionlessAgent(row.source, row.agent)
    else if f.conversation == CONVERSATION_AUTOCOMPLETE then row.source == COPILOT && row.agent == Some(XTAB_PROVIDER)
    else if f.conversation == CONVERSATION_TITLE_PROGRESS then
      row.source == COPILOT && (row.agent == Some(TITLE) || row.agent == Some(PROGRESS_MESSAGES))
    else
      f.conversation == "" || (row.conversation == Some(f.conversation) && !SessionlessAgent(row.source, row.agent))
  }

  /** dimSQL over generations. */
  predicate MatchesRow(f: Filter, tokens: map<int, string>, row: Row) {
    && (f.source != "" ==> row.source == f.source)
    && (f.provider != "" ==> row.provider == Some(f.provider))
    && (f.model != "" ==> row.model == Some(f.model))
    && (f.token.NoToken? ==> row.token.None?)
    && (f.token.OneToken? ==> row.token == Some(f.token.id))
    && (f.group != "" ==> row.token.Some? && row.token.value in tokens && tokens[row.token.value] == f.group)
    && (f.ungrouped ==> row.token.Some? && row.token.value in tokens && tokens[row.token.value] == "")
  }

  /** dimSQL over a rollup. */
  predicate MatchesKey(f: Filter, tokens: map<int, string>, k: Key) {
    && (f.source != "" ==> k.source == f.source)
    && (f.provider != "" ==> k.provider == f.provider)
    && (f.model != "" ==> k.model == f.model)
    && (f.token.NoToken? ==> k.token == 0)
    && (f.token.OneToken? ==> k.token == f.token.id)
    && (f.group != "" ==> k.token in tokens && tokens[k.token] == f.group)
    && (f.ungrouped ==> k.token in tokens && tokens[k.token] == "")
  }

  predicate Where(f: Filter, tokens: map<int, string>, row: Row) {
    InRange(f, row.timestamp) && MatchesConversation(f, row) && MatchesRow(f, tokens, row)
  }

  /** The dimension filters commute with the rollup, NULL and 0 standing for a missing token on either side. */
  lemma DimensionsCommute(f: Filter, tokens: map<int, string>, spec: Spec, row: Row)
    requires 0 !in tokens && row.token != Some(0) && (f.token.OneToken? ==> f.token.id > 0)
    ensures MatchesRow(f, tokens, row) <==> MatchesKey(f, tokens, KeyOf(spec, row))
  {
  }

  // The facts of a query.

  /** One SELECT of the UNION ALL. */
  datatype Part =
    | WherePart(hourly: bool)                 // every row matching whereSQL, by hour or by day
    | RawPart(from: int, to: int)             // raw rows of [from, to) matching dimSQL
    | RollupPart(lo: Option<int>, hi: int)    // rollup days of [lo, hi) matching dimSQL

  /**
   * factsSQL: the parts of the UNION ALL. Without a conversation and by day, each timestamp of
   * the range is covered by exactly one part, and no other timestamp is covered.
   */
  method FactsSql(f: Filter, hourly: bool) returns (parts: seq<Part>)
    ensures hourly || f.conversation != "" ==> parts == [WherePart(hourly)]
    ensures !hourly && f.conversation == "" ==> Partitions(parts, f)
  {
    if hourly || f.conversation != "" {
      return [WherePart(hourly)];
    }
    parts := [];
    var hi := f.to - GoMod(f.to, DAY_MS);
    DayEdge(hi);
    if f.from.None? {
      Appended(parts, RollupPart(None, hi));
      parts := parts + [RollupPart(None, hi)];
    } else {
      var from := f.from.value;
      var lo := from + GoMod(DAY_MS - GoMod(from, DAY_MS), DAY_MS);
      DayEdge(lo);
      if lo >= hi {
        Appended([], RawPart(from, f.to));
        return [RawPart(from, f.to)];
      }
      if from < lo {
        Appended(parts, RawPart(from, lo));
        parts := parts + [RawPart(from, lo)];
      }
      Appended(parts, RollupPart(Some(lo), hi));
      parts := parts + [RollupPart(Some(lo), hi)];
    }
    if hi < f.to {
      Appended(parts, RawPart(hi, f.to));
      parts := parts + [RawPart(hi, f.to)];
    }
  }

  /** At a day boundary, whole days and timestamps are on the same side. */
  lemma DayEdge(edge: int)
    requires edge % DAY_MS == 0
    ensures forall t: nat :: DayOf(t) < edge <==> t < edge
  {
  }

  lemma {:induction false} AppendedAt(parts: seq<Part>, part: Part, t: nat)
    ensures CoverCount(parts + [part], t) == CoverCount(parts, t) + Flag(Covers(part, t))
  {
    if parts == [] {
      assert parts + [part] == [part];
    } else {
      assert (parts + [part])[1..] == parts[1..] + [part];
      AppendedAt(parts[1..], part, t);
    }
  }

  lemma Appended(parts: seq<Part>, part: Part)
    ensures forall t: nat :: CoverCount(parts + [part], t) == CoverCount(parts, t) + Flag(Covers(part, t))
  {
    forall t: nat ensures CoverCount(parts + [part], t) == CoverCount(parts, t) + Flag(Covers(part, t)) {
      AppendedAt(parts, part, t);
    }
  }

  predicate Covers(part: Part, timestamp: nat) {
    match part
    case WherePart(_) => false
    case RawPart(from, to) => from <= timestamp < to
    case RollupPart(lo, hi) => (lo.Some? ==> lo.value <= DayOf(timestamp)) && DayOf(timestamp) < hi
  }

  function CoverCount(parts: seq<Part>, timestamp: nat): nat {
    if parts == [] then 0 else Flag(Covers(parts[0], timestamp)) + CoverCount(parts[1..], timestamp)
  }

  ghost predicate Partitions(parts: seq<Part>, f: Filter) {
    && (forall p :: p in parts ==> !p.WherePart?)
    && forall t: nat :: CoverCount(parts, t) == Flag(InRange(f, t))
  }

  /**
   * The cells of a result: a bucket and a rollup key. A query groups facts by some coarser
   * choice of cells; keep says which cells make up one of its groups.
   */
  datatype Cell = Cell(bucket: nat, key: Key)

  /** What the database holds. */
  datatype Snapshot = Snapshot(gens: Table, tokens: map<int, string>, rollup: View)

  function BucketOf(row: Row, hourly: bool): nat {
    if hourly then row.timestamp / HOUR_MS * HOUR_MS else DayOf(row.timestamp)
  }

  /** The rows that match the filter and belong to the cells kept. */
  ghost function ScannedRows(spec: Spec, db: Snapshot, f: Filter, hourly: bool, keep: Cell -> bool): set<Id> {
    set id | id in db.gens && Where(f, db.tokens, db.gens[id])
             && keep(Cell(BucketOf(db.gens[id], hourly), KeyOf(spec, db.gens[id])))
  }

  /** The facts of all rows matching whereSQL, aggregated over the cells kept: the raw scan. */
  ghost function Scan(spec: Spec, db: Snapshot, f: Filter, hourly: bool, keep: Cell -> bool): Agg {
    Fold(Pick(FactsOf(spec, db.gens), ScannedRows(spec, db, f, hourly, keep)))
  }

  predicate Kept(spec: Spec, db: Snapshot, f: Filter, keep: Cell -> bool, row: Row) {
    MatchesRow(f, db.tokens, row) && keep(Cell(DayOf(row.timestamp), KeyOf(spec, row)))
  }

  ghost function RowsInPart(spec: Spec, db: Snapshot, f: Filter, part: Part, keep: Cell -> bool): set<Id> {
    set id | id in db.gens && Covers(part, db.gens[id].timestamp) && Kept(spec, db, f, keep, db.gens[id])
  }

  ghost function KeysInPart(db: Snapshot, f: Filter, lo: Option<int>, hi: int, keep: Cell -> bool): set<Key> {
    set k | k in db.rollup && (lo.Some? ==> lo.value <= k.day) && k.day < hi && MatchesKey(f, db.tokens, k)
        && keep(Cell(k.day, k))
  }

  /** What one SELECT contributes to the group of cells kept. */
  ghost function PartTotal(spec: Spec, db: Snapshot, f: Filter, part: Part, keep: Cell -> bool): Agg {
    match part
    case WherePart(hourly) => Scan(spec, db, f, hourly, keep)
    case RawPart(_, _) => Fold(Pick(FactsOf(spec, db.gens), RowsInPart(spec, db, f, part, keep)))
    case RollupPart(lo, hi) => Fold(map k | k in db.rollup && k in KeysInPart(db, f, lo, hi, keep) :: db.rollup[k])
  }

  /** The UNION ALL of the parts, aggregated over the cells kept. */
  ghost function FactsTotal(spec: Spec, db: Snapshot, f: Filter, parts: seq<Part>, keep: Cell -> bool): Agg {
    if parts == [] then NOTHING
    else PartTotal(spec, db, f, parts[0], keep).Combine(FactsTotal(spec, db, f, parts[1..], keep))
  }

  ghost predicate InSync(spec: Spec, db: Snapshot) {
    && db.rollup == Rollups(spec, db.gens) && 0 !in db.tokens
    && forall id :: id in db.gens ==> db.gens[id].token != Some(0)
  }

  predicate ValidToken(f: Filter) { f.token.OneToken? ==> f.token.id > 0 }

  /** Each part gives the facts of the rows it covers, whether it reads them raw or from the rollup. */
  lemma PartIsRawRows(spec: Spec, db: Snapshot, f: Filter, part: Part, keep: Cell -> bool)
    requires InSync(spec, db) && !part.WherePart? && ValidToken(f)
    ensures PartTotal(spec, db, f, part, keep)
            == Fold(Pick(FactsOf(spec, db.gens), RowsInPart(spec, db, f, part, keep)))
  {
    if part.RollupPart? {
      var facts := FactsOf(spec, db.gens);
      var keys := KeysInPart(db, f, part.lo, part.hi, keep);
      var rows := RowsInPart(spec, db, f, part, keep);
      forall id | id in facts ensures id in rows <==> facts[id].key in keys {
        KeyInView(spec, db.gens, id);
        DimensionsCommute(f, db.tokens, spec, db.gens[id]);
      }
      SelectGroups(facts, keys, rows);
      assert PickGroups(facts, keys) == map k | k in db.rollup && k in keys :: db.rollup[k];
    }
  }

  lemma KeyInView(spec: Spec, gens: Table, id: Id)
    requires id in gens
    ensures FactsOf(spec, gens)[id].key == KeyOf(spec, gens[id]) && KeyOf(spec, gens[id]) in Rollups(spec, gens)
    ensures KeyOf(spec, gens[id]).day == DayOf(gens[id].timestamp)
  {
    assert FactsOf(spec, gens)[id].key in Keys(FactsOf(spec, gens));
  }

  ghost function CoveredRows(spec: Spec, db: Snapshot, f: Filter, parts: seq<Part>, keep: Cell -> bool): set<Id> {
    set id | id in db.gens && CoverCount(parts, db.gens[id].timestamp) > 0 && Kept(spec, db, f, keep, db.gens[id])
  }

  /** Parts that cover no timestamp twice aggregate to the rows they cover. */
  lemma {:induction false} PartsCoverRows(spec: Spec, db: Snapshot, f: Filter, parts: seq<Part>, keep: Cell -> bool)
    requires InSync(spec, db) && ValidToken(f)
    requires forall p :: p in parts ==> !p.WherePart?
    requires forall t: nat :: CoverCount(parts, t) <= 1
    ensures FactsTotal(spec, db, f, parts, keep)
            == Fold(Pick(FactsOf(spec, db.gens), CoveredRows(spec, db, f, parts, keep)))
  {
    var facts := FactsOf(spec, db.gens);
    if parts == [] {
      assert Pick(facts, CoveredRows(spec, db, f, parts, keep)).Keys == {};
    } else {
      var part, rest := parts[0], parts[1..];
      forall t: nat
        ensures CoverCount(parts, t) == Flag(Covers(part, t)) + CoverCount(rest, t) && CoverCount(rest, t) <= 1
      {
        assert CoverCount(parts, t) <= 1;
      }
      PartsCoverRows(spec, db, f, rest, keep);
      PartIsRawRows(spec, db, f, part, keep);
      var own, others := RowsInPart(spec, db, f, part, keep), CoveredRows(spec, db, f, rest, keep);
      CoveredSplit(spec, db, f, part, rest, keep);
      assert [part] + rest == parts;
      PickUnion(facts, own, others);
    }
  }

  lemma CoveredSplit(spec: Spec, db: Snapshot, f: Filter, part: Part, rest: seq<Part>, keep: Cell -> bool)
    requires forall t: nat :: CoverCount([part] + rest, t) <= 1
    ensures RowsInPart(spec, db, f, part, keep) !! CoveredRows(spec, db, f, rest, keep)
    ensures RowsInPart(spec, db, f, part, keep) + CoveredRows(spec, db, f, rest, keep)
            == CoveredRows(spec, db, f, [part] + rest, keep)
  {
    assert ([part] + rest)[1..] == rest;
    forall id | id in db.gens
      ensures CoverCount([part] + rest, db.gens[id].timestamp)
              == Flag(Covers(part, db.gens[id].timestamp)) + CoverCount(rest, db.gens[id].timestamp) <= 1
    {
    }
  }

  lemma SinglePart(spec: Spec, db: Snapshot, f: Filter, part: Part, keep: Cell -> bool)
    ensures FactsTotal(spec, db, f, [part], keep) == PartTotal(spec, db, f, part, keep)
  {
    assert [part][1..] == [];
    CombineLaws(PartTotal(spec, db, f, part, keep), NOTHING, NOTHING);
  }

  lemma PartitionCoversScan(spec: Spec, db: Snapshot, f: Filter, parts: seq<Part>, keep: Cell -> bool)
    requires Partitions(parts, f) && f.conversation == ""
    ensures forall t: nat :: CoverCount(parts, t) <= 1
    ensures CoveredRows(spec, db, f, parts, keep) == ScannedRows(spec, db, f, false, keep)
  {
    forall t: nat ensures CoverCount(parts, t) <= 1 {
      assert CoverCount(parts, t) == Flag(InRange(f, t));
    }
    forall id | id in db.gens
      ensures CoverCount(parts, db.gens[id].timestamp) == Flag(InRange(f, db.gens[id].timestamp))
    {
    }
  }

  /**
   * The split query equals the raw scan: whatever the query groups by, and for whichever of its
   * groups, the facts of factsSQL have the sums, and in the conversation rollup the first and
   * last timestamps, of all rows matching whereSQL.
   */
  lemma SplitQueryEqualsScan(spec: Spec, db: Snapshot, f: Filter, hourly: bool, parts: seq<Part>, keep: Cell -> bool)
    requires InSync(spec, db) && ValidToken(f)
    requires if hourly || f.conversation != "" then parts == [WherePart(hourly)] else Partitions(parts, f)
    ensures FactsTotal(spec, db, f, parts, keep) == Scan(spec, db, f, hourly, keep)
  {
    if hourly || f.conversation != "" {
      SinglePart(spec, db, f, WherePart(hourly), keep);
    } else {
      PartitionCoversScan(spec, db, f, parts, keep);
      PartsCoverRows(spec, db, f, parts, keep);
    }
  }

  // Which groups a query has.

  /** A part has a fact of the cells kept. */
  ghost predicate HasFact(spec: Spec, db: Snapshot, f: Filter, part: Part, keep: Cell -> bool) {
    match part
    case WherePart(hourly) => ScannedRows(spec, db, f, hourly, keep) != {}
    case RawPart(_, _) => RowsInPart(spec, db, f, part, keep) != {}
    case RollupPart(lo, hi) => KeysInPart(db, f, lo, hi, keep) != {}
  }

  /** The UNION ALL has a fact of the cells kept: its GROUP BY has a group for them. */
  ghost predicate AnyFact(spec: Spec, db: Snapshot, f: Filter, parts: seq<Part>, keep: Cell -> bool) {
    exists part :: part in parts && HasFact(spec, db, f, part, keep)
  }

  lemma KeyHasCoveredRow(spec: Spec, db: Snapshot, f: Filter, part: Part, keep: Cell -> bool, k: Key)
    requires InSync(spec, db) && ValidToken(f) && part.RollupPart?
    requires k in KeysInPart(db, f, part.lo, part.hi, keep)
    ensures RowsInPart(spec, db, f, part, keep) != {}
  {
    hide MatchesRow, MatchesKey, Rollups;
    RollupShape(spec, db.gens, k);
    var id :| id in db.gens && KeyOf(spec, db.gens[id]) == k;
    DimensionsCommute(f, db.tokens, spec, db.gens[id]);
    assert id in RowsInPart(spec, db, f, part, keep);
  }

  lemma CoveredRowHasKey(spec: Spec, db: Snapshot, f: Filter, part: Part, keep: Cell -> bool, id: Id)
    requires InSync(spec, db) && ValidToken(f) && part.RollupPart?
    requires id in RowsInPart(spec, db, f, part, keep)
    ensures KeyOf(spec, db.gens[id]) in KeysInPart(db, f, part.lo, part.hi, keep)
  {
    hide MatchesRow, MatchesKey, Rollups;
    KeyInView(spec, db.gens, id);
    DimensionsCommute(f, db.tokens, spec, db.gens[id]);
  }

  /** A rollup part has a fact exactly when it covers a row of the cells kept. */
  lemma RollupHasFact(spec: Spec, db: Snapshot, f: Filter, part: Part, keep: Cell -> bool)
    requires InSync(spec, db) && ValidToken(f) && part.RollupPart?
    ensures HasFact(spec, db, f, part, keep) <==> RowsInPart(spec, db, f, part, keep) != {}
  {
    hide InSync, RowsInPart, KeysInPart;
    if k :| k in KeysInPart(db, f, part.lo, part.hi, keep) { KeyHasCoveredRow(spec, db, f, part, keep, k); }
    if id :| id in RowsInPart(spec, db, f, part, keep) { CoveredRowHasKey(spec, db, f, part, keep, id); }
  }

  lemma {:induction false} CoveredBySome(parts: seq<Part>, t: nat)
    ensures CoverCount(parts, t) > 0 <==> exists part :: part in parts && Covers(part, t)
  {
    if parts == [] {
    } else {
      CoveredBySome(parts[1..], t);
      assert parts == [parts[0]] + parts[1..];
    }
  }

  lemma PartHasFact(spec: Spec, db: Snapshot, f: Filter, part: Part, keep: Cell -> bool)
    requires InSync(spec, db) && ValidToken(f) && !part.WherePart?
    ensures HasFact(spec, db, f, part, keep) <==> RowsInPart(spec, db, f, part, keep) != {}
  {
    hide InSync, RowsInPart, KeysInPart;
    if part.RollupPart? { RollupHasFact(spec, db, f, part, keep); }
  }

  lemma SomePartHasRow(spec: Spec, db: Snapshot, f: Filter, parts: seq<Part>, keep: Cell -> bool)
    ensures (exists part :: part in parts && RowsInPart(spec, db, f, part, keep) != {})
            <==> CoveredRows(spec, db, f, parts, keep) != {}
  {
    hide Kept, Covers, CoverCount;
    if part :| part in parts && RowsInPart(spec, db, f, part, keep) != {} {
      var id :| id in RowsInPart(spec, db, f, part, keep);
      CoveredBySome(parts, db.gens[id].timestamp);
      assert id in CoveredRows(spec, db, f, parts, keep);
    }
    if id :| id in CoveredRows(spec, db, f, parts, keep) {
      CoveredBySome(parts, db.gens[id].timestamp);
      var part :| part in parts && Covers(part, db.gens[id].timestamp);
      assert id in RowsInPart(spec, db, f, part, keep);
    }
  }

  /** A query has a group for the cells kept exactly when some row matches the filter and belongs to them. */
  lemma GroupHasRow(spec: Spec, db: Snapshot, f: Filter, hourly: bool, parts: seq<Part>, keep: Cell -> bool)
    requires InSync(spec, db) && ValidToken(f)
    requires if hourly || f.conversation != "" then parts == [WherePart(hourly)] else Partitions(parts, f)
    ensures AnyFact(spec, db, f, parts, keep) <==> ScannedRows(spec, db, f, hourly, keep) != {}
  {
    hide InSync, RowsInPart, KeysInPart, CoveredRows, CoverCount;
    if hourly || f.conversation != "" {
      hide ScannedRows;
      assert WherePart(hourly) in parts;
    } else {
      forall part | part in parts
        ensures HasFact(spec, db, f, part, keep) <==> RowsInPart(spec, db, f, part, keep) != {}
      {
        PartHasFact(spec, db, f, part, keep);
      }
      PartitionCoversScan(spec, db, f, parts, keep);
      SomePartHasRow(spec, db, f, parts, keep);
      hide HasFact, ScannedRows;
    }
  }

  /** Two groups without a common cell scan together as one after the other. */
  lemma ScanUnion(spec: Spec, db: Snapshot, f: Filter, hourly: bool, a: Cell -> bool, b: Cell -> bool,
                  both: Cell -> bool)
    requires forall c :: (both(c) <==> a(c) || b(c)) && !(a(c) && b(c))
    ensures Scan(spec, db, f, hourly, both) == Scan(spec, db, f, hourly, a).Combine(Scan(spec, db, f, hourly, b))
  {
    hide Where, Fold;
    var rows, others := ScannedRows(spec, db, f, hourly, a), ScannedRows(spec, db, f, hourly, b);
    assert ScannedRows(spec, db, f, hourly, both) == rows + others && rows !! others;
    PickUnion(FactsOf(spec, db.gens), rows, others);
  }

  lemma ScanNothing(spec: Spec, db: Snapshot, f: Filter, hourly: bool, keep: Cell -> bool)
    requires forall c :: !keep(c)
    ensures Scan(spec, db, f, hourly, keep) == NOTHING
  {
    assert ScannedRows(spec, db, f, hourly, keep) == {};
    assert Pick(FactsOf(spec, db.gens), {}).Keys == {};
  }

  /** Groups with the same matching rows scan alike. */
  lemma ScanSame(spec: Spec, db: Snapshot, f: Filter, hourly: bool, a: Cell -> bool, b: Cell -> bool)
    requires forall id :: id in db.gens && Where(f, db.tokens, db.gens[id]) ==>
               (a(Cell(BucketOf(db.gens[id], hourly), KeyOf(spec, db.gens[id])))
                <==> b(Cell(BucketOf(db.gens[id], hourly), KeyOf(spec, db.gens[id]))))
    ensures Scan(spec, db, f, hourly, a) == Scan(spec, db, f, hourly, b)
  {
    hide Where;
    assert ScannedRows(spec, db, f, hourly, a) == ScannedRows(spec, db, f, hourly, b);
  }
}
