/**
 * The pricing scan and the one-time historical job without concurrent writers
 * (internal/pricing/service.go and internal/pricing/backfill.go): keyset paging over rows the
 * loop itself modifies.
 */
module PricingScan {
  import opened Wrappers
  import opened Text
  import opened Generations
  import opened Merge
  import opened Pricing

  // ORDER BY id LIMIT n over a set of IDs.

  predicate IsSmallest(m: Id, s: set<Id>) { m in s && forall x :: x in s && x != m ==> Less(m, x) }

  lemma {:induction false} SmallestExists(s: set<Id>)
    requires s != {}
    ensures exists m :: IsSmallest(m, s)
  {
    hide Less;
    var a :| a in s;
    var rest := s - {a};
    if rest == {} {
      assert s == {a} && IsSmallest(a, {a});
    } else {
      SmallestExists(rest);
      var b :| IsSmallest(b, rest);
      LessTotal(a, b);
      var m := if Less(a, b) then a else b;
      forall x | x in s && x != m ensures Less(m, x) {
        if m == a && x != b { LessTransitive(a, b, x); }
      }
      assert IsSmallest(m, s);
    }
  }

  function Smallest(s: set<Id>): (m: Id)
    requires s != {}
    ensures m in s && forall x :: x in s && x != m ==> Less(m, x)
  {
    SmallestExists(s);
    SmallestUnique(s);
    var m :| IsSmallest(m, s);
    m
  }

  lemma SmallestUnique(s: set<Id>)
    ensures forall m, n :: IsSmallest(m, s) && IsSmallest(n, s) ==> m == n
  {
    forall m, n | IsSmallest(m, s) && IsSmallest(n, s) ensures m == n { LessTotal(m, n); }
  }

  /** The n smallest IDs of a set, in order. */
  function FirstIds(s: set<Id>, n: nat): seq<Id>
    decreases n
  {
    if n == 0 || s == {} then [] else [Smallest(s)] + FirstIds(s - {Smallest(s)}, n - 1)
  }

  predicate Sorted(ids: seq<Id>) { forall i, j :: 0 <= i < j < |ids| ==> Less(ids[i], ids[j]) }

  lemma {:induction false} FirstIdsShape(s: set<Id>, n: nat)
    ensures Sorted(FirstIds(s, n)) && |FirstIds(s, n)| == Min(n, |s|)
    ensures forall i :: 0 <= i < |FirstIds(s, n)| ==> FirstIds(s, n)[i] in s
    ensures forall x :: x in s && x !in FirstIds(s, n) ==>
              |FirstIds(s, n)| == n && (n > 0 ==> Less(FirstIds(s, n)[n - 1], x))
    decreases n
  {
    hide Less;
    if n == 0 || s == {} {
    } else {
      var m := Smallest(s);
      var rest := FirstIds(s - {m}, n - 1);
      FirstIdsShape(s - {m}, n - 1);
      forall i, j | 0 <= i < j < |[m] + rest| ensures Less(([m] + rest)[i], ([m] + rest)[j]) {
        if i == 0 { assert rest[j - 1] in s - {m}; } else { assert Less(rest[i - 1], rest[j - 1]); }
      }
      forall x | x in s && x !in [m] + rest ensures |rest| == n - 1 && Less(([m] + rest)[n - 1], x) {
        assert x in s - {m} && x !in rest;
      }
    }
  }

  function After(rows: Table, after: Id, history: bool): set<Id> {
    set id | id in rows && Qualifies(rows[id], history) && Less(after, id)
  }

  /** pricingRows: the next page of qualifying IDs. */
  function PageIds(rows: Table, after: Id, history: bool): (ids: seq<Id>)
    ensures IsPage(rows, after, history, ids)
  {
    FirstIdsShape(After(rows, after, history), PAGE);
    FirstIds(After(rows, after, history), PAGE)
  }

  // What the scan makes of the table.

  /** A queued row is skipped while the catalog is empty and nothing prices it. */
  predicate Skipped(book: PriceBook, row: Row, history: bool) {
    !history && book.catalog == map[] && Enriched(book, row).cost.None?
  }

  function Outcome(book: PriceBook, row: Row, history: bool): Row {
    if Skipped(book, row, history) then row else Priced(row, Enriched(book, row))
  }

  ghost function Qualifying(rows: Table, history: bool): set<Id> { set id | id in rows && Qualifies(rows[id], history) }

  /** The table once the scan has dealt with some of the rows. */
  ghost function Swept(rows: Table, done: set<Id>, book: PriceBook, history: bool): Table {
    map id | id in rows :: if id in done then Outcome(book, rows[id], history) else rows[id]
  }

  /** An unpriced row leaves the queue with a catalog, and without one stays in it exactly when nothing prices it. */
  lemma QueueOutcome(book: PriceBook, row: Row)
    requires RowOk(row) && row.pending
    ensures Outcome(book, row, false).pending <==> book.catalog == map[] && Enriched(book, row).cost.None?
  {
  }

  /** The historical job leaves a missing cost missing exactly when nothing prices the row, and queued never. */
  lemma HistoryOutcome(book: PriceBook, row: Row)
    requires RowOk(row) && row.cost.None?
    ensures Outcome(book, row, true).cost.None? <==> Enriched(book, row).cost.None?
    ensures !Outcome(book, row, true).pending
  {
  }

  /**
   * After the queue scan nothing is queued if there is a catalog; otherwise exactly what nothing prices
   * still is. Rows that were not queued stay as they were.
   */
  lemma QueueAfterScan(start: Table, book: PriceBook, id: Id)
    requires id in start && RowOk(start[id])
    ensures var row := Swept(start, Qualifying(start, false), book, false)[id];
            && (row.pending <==> start[id].pending && book.catalog == map[] && Enriched(book, start[id]).cost.None?)
            && (!start[id].pending ==> row == start[id])
  {
    if start[id].pending { QueueOutcome(book, start[id]); }
  }

  /**
   * After the historical job a cost is missing exactly where nothing prices the row, and no such row is
   * queued. Rows that had a cost stay as they were.
   */
  lemma HistoryAfterScan(start: Table, book: PriceBook, id: Id)
    requires id in start && RowOk(start[id])
    ensures var row := Swept(start, Qualifying(start, true), book, true)[id];
            && (row.cost.None? <==> start[id].cost.None? && Enriched(book, start[id]).cost.None?)
            && (row.cost.None? ==> !row.pending) && (start[id].cost.Some? ==> row == start[id])
  {
    if start[id].cost.None? { HistoryOutcome(book, start[id]); }
  }

  ghost function IdSet(ids: seq<Id>): set<Id> { set id | id in ids }

  /** The IDs up to and including the last one visited. */
  ghost predicate VisitedUpTo(visited: seq<Id>, all: set<Id>, after: Id) {
    && Sorted(visited) && (visited == [] ==> after == "") && (visited != [] ==> visited[|visited| - 1] == after)
    && (forall id :: id in visited ==> id in all)
    && (forall id :: id in all && id !in visited ==> Less(after, id))
  }

  lemma VisitNext(visited: seq<Id>, all: set<Id>, after: Id, id: Id)
    requires VisitedUpTo(visited, all, after) && id in all && id !in visited
    requires forall x :: x in all && x !in visited && x != id ==> Less(id, x)
    ensures VisitedUpTo(visited + [id], all, id)
  {
    forall i, j | 0 <= i < j < |visited + [id]| ensures Less((visited + [id])[i], (visited + [id])[j]) {
      if j == |visited| {
        if i < |visited| - 1 { LessTransitive(visited[i], after, id); }
      }
    }
  }

  class PriceQueue {
    var rows: Table
    const book: PriceBook

    constructor (rows: Table, book: PriceBook)
      ensures this.rows == rows && this.book == book
    {
      this.rows := rows;
      this.book := book;
    }

    /** One row of a page: skipped, or priced and written back. */
    method PriceOne(id: Id, read: Row, history: bool) returns (updated: bool)
      requires id in rows && rows[id] == read && RowOk(read) && Qualifies(read, history)
      modifies this
      ensures rows == old(rows)[id := Outcome(book, read, history)]
      ensures updated == Enriched(book, read).cost.Some?
    {
      var w := Enriched(book, read);
      if !history && book.catalog == map[] && w.cost.None? {
        assert rows[id := read] == rows;
        return false;
      }
      rows := rows[id := Priced(rows[id], w)];
      return w.cost.Some?;
    }

    /**
     * The queue loop of process (history is false) and the loop of backfill (history is true).
     * It ends, and visits every row that qualified at the start exactly once, in ID order,
     * although it takes rows out of the queue it pages through.
     */
    method Scan(history: bool) returns (changed: bool, ghost visited: seq<Id>)
      requires "" !in rows && forall id :: id in rows ==> RowOk(rows[id])
      modifies this
      ensures Sorted(visited) && IdSet(visited) == Qualifying(old(rows), history)
      ensures rows == Swept(old(rows), Qualifying(old(rows), history), book, history)
      ensures changed == Changed(old(rows), visited, book)
    {
      hide Less, Enriched, Outcome, Swept, Sorted, Qualifies, Qualifying, Changed, IdSet, VisitedUpTo,
           PageAhead, IsPage;
      ghost var start := rows;
      ghost var all := Qualifying(rows, history);
      changed, visited := false, [];
      var after := "";
      SweepNone(start, all, book, history);
      while true
        invariant VisitedUpTo(visited, all, after)
        invariant rows == Swept(start, IdSet(visited), book, history)
        invariant changed == Changed(start, visited, book)
        decreases |all - IdSet(visited)|
      {
        var page := PageIds(rows, after, history);
        if page == [] {
          NothingLeft(start, rows, visited, all, after, book, history);
          break;
        }
        PageIsNext(start, rows, visited, all, after, book, history, page);
        ghost var before := visited;
        assert visited == before + page[..0];
        for i := 0 to |page|
          invariant visited == before + page[..i]
          invariant VisitedUpTo(visited, all, after)
          invariant rows == Swept(start, IdSet(visited), book, history)
          invariant changed == Changed(start, visited, book)
        {
          var id := page[i];
          VisitOne(start, before, page, i, all, after, history);
          SweepOne(start, visited, id, book, history);
          after := id;
          visited := visited + [id];
          var updated := PriceOne(id, rows[id], history);
          changed := changed || updated;
        }
        assert page[..|page|] == page;
        Shrinks(all, before, page);
      }
    }
  }

  /** The page's rows come next in ID order, and none has been visited. */
  ghost predicate PageAhead(visited: seq<Id>, all: set<Id>, page: seq<Id>) {
    && (forall i :: 0 <= i < |page| ==> page[i] in all && page[i] !in visited && page[i] !in visited + page[..i])
    && (forall i, x :: 0 <= i < |page| && x in all && x !in visited && x !in page[..i] && x != page[i] ==>
          Less(page[i], x))
  }

  lemma VisitOne(start: Table, before: seq<Id>, page: seq<Id>, i: nat, all: set<Id>, after: Id, history: bool)
    requires PageAhead(before, all, page) && i < |page| && VisitedUpTo(before + page[..i], all, after)
    requires all == Qualifying(start, history) && forall id :: id in start ==> RowOk(start[id])
    ensures var id := page[i];
            && id in start && RowOk(start[id]) && Qualifies(start[id], history) && id !in before + page[..i]
            && VisitedUpTo(before + page[..i] + [id], all, id) && before + page[..i + 1] == before + page[..i] + [id]
  {
    hide Less, Qualifies;
    assert page[..i + 1] == page[..i] + [page[i]];
    VisitNext(before + page[..i], all, after, page[i]);
  }

  ghost predicate Changed(start: Table, visited: seq<Id>, book: PriceBook) {
    exists i :: 0 <= i < |visited| && visited[i] in start && Enriched(book, start[visited[i]]).cost.Some?
  }

  lemma SweepNone(start: Table, all: set<Id>, book: PriceBook, history: bool)
    requires "" !in start && all == Qualifying(start, history)
    ensures Swept(start, IdSet([]), book, history) == start
    ensures VisitedUpTo([], all, "") && !Changed(start, [], book)
  {
    forall id | id in all ensures Less("", id) { EmptyIsLeast(id); }
  }

  lemma EmptyIsLeast(id: Id)
    ensures id != "" ==> Less("", id)
  {
  }

  lemma NothingLeft(start: Table, rows: Table, visited: seq<Id>, all: set<Id>, after: Id, book: PriceBook,
                    history: bool)
    requires all == Qualifying(start, history) && VisitedUpTo(visited, all, after)
    requires rows == Swept(start, IdSet(visited), book, history) && IsPage(rows, after, history, [])
    ensures IdSet(visited) == all && Sorted(visited)
  {
    assert forall id :: id in all && id !in visited ==> id in rows && rows[id] == start[id];
  }

  /** Until it is visited a row is as it was at the start, so the page holds the next IDs, unmodified. */
  lemma PageIsNext(start: Table, rows: Table, visited: seq<Id>, all: set<Id>, after: Id, book: PriceBook,
                   history: bool, page: seq<Id>)
    requires all == Qualifying(start, history) && VisitedUpTo(visited, all, after)
    requires rows == Swept(start, IdSet(visited), book, history) && IsPage(rows, after, history, page) && page != []
    ensures PageAhead(visited, all, page) && page[0] in all && page[0] !in visited
  {
    forall i | 0 <= i < |page| ensures page[i] !in visited && page[i] in all {
      NotVisited(visited, all, after, page[i]);
      assert rows[page[i]] == start[page[i]];
    }
    forall i, x | 0 <= i < |page| && x in all && x !in visited && x !in page[..i] && x != page[i]
      ensures Less(page[i], x)
    {
      assert rows[x] == start[x];
      assert forall j :: 0 <= j < i ==> page[j] in page[..i];
      if x in page {
        var j :| 0 <= j < |page| && page[j] == x;
      } else if i < |page| - 1 {
        LessTransitive(page[i], page[|page| - 1], x);
      }
    }
    forall i | 0 <= i < |page| ensures page[i] !in visited + page[..i] {
      if page[i] in page[..i] {
        var j :| 0 <= j < i && page[j] == page[i];
        LessTotal(page[j], page[i]);
      }
    }
  }

  lemma NotVisited(visited: seq<Id>, all: set<Id>, after: Id, id: Id)
    requires VisitedUpTo(visited, all, after) && Less(after, id)
    ensures id !in visited
  {
    LessTotal(after, id);
    forall i | 0 <= i < |visited| ensures visited[i] == after || Less(visited[i], after) {
    }
  }

  lemma SweepOne(start: Table, visited: seq<Id>, id: Id, book: PriceBook, history: bool)
    requires id in start && id !in visited
    ensures Swept(start, IdSet(visited + [id]), book, history)
            == Swept(start, IdSet(visited), book, history)[id := Outcome(book, start[id], history)]
    ensures id in Swept(start, IdSet(visited), book, history)
    ensures Swept(start, IdSet(visited), book, history)[id] == start[id]
    ensures Changed(start, visited + [id], book)
            == (Changed(start, visited, book) || Enriched(book, start[id]).cost.Some?)
  {
    hide Enriched, Outcome;
    var now := visited + [id];
    assert now[|visited|] == id;
    if i :| 0 <= i < |visited| && visited[i] in start && Enriched(book, start[visited[i]]).cost.Some? {
      assert now[i] == visited[i];
    }
  }

  lemma Shrinks(all: set<Id>, visited: seq<Id>, page: seq<Id>)
    requires page != [] && page[0] in all && page[0] !in visited
    ensures |all - IdSet(visited + page)| < |all - IdSet(visited)|
  {
    var fewer, more := all - IdSet(visited + page), all - IdSet(visited);
    assert page[0] in more && page[0] !in fewer;
    assert fewer <= more - {page[0]};
    SubsetSize(fewer, more - {page[0]});
  }
}
