/**
 * Incremental maintenance of a GROUP BY, whatever the keys and facts are: the statements a
 * trigger runs, and why they leave the view equal to the group-by computed afresh.
 */
module Maintenance {
  import opened Wrappers
  import opened Aggregates

  /** What one base row contributes, and to which group. */
  datatype Fact<K> = Fact(key: K, agg: Agg)

  type Facts<I, K> = map<I, Fact<K>>

  ghost function Group<I, K>(facts: Facts<I, K>, k: K): map<I, Agg> {
    map i | i in facts && facts[i].key == k :: facts[i].agg
  }

  ghost function Keys<I, K>(facts: Facts<I, K>): set<K> { set i | i in facts :: facts[i].key }

  /** SELECT keys, SUM, MIN, MAX FROM facts GROUP BY keys. */
  ghost function GroupBy<I, K>(facts: Facts<I, K>): map<K, Agg> {
    map k | k in Keys(facts) :: Fold(Group(facts, k))
  }

  /** Every fact counts one request and is timed iff timed holds. */
  ghost predicate UnitFacts<I, K>(facts: Facts<I, K>, timed: bool) {
    forall i :: i in facts ==> UnitFact(facts[i].agg, timed)
  }

  ghost predicate UnitFact(agg: Agg, timed: bool) {
    agg.sums.requests == 1 && agg.span.Some? == timed && (timed ==> agg.span.value.first == agg.span.value.last)
  }

  // The statements of a trigger.

  /** The upsert of one fact, negated when removing. Removing leaves the span alone. */
  function Upserted<K>(view: map<K, Agg>, fact: Fact<K>, removing: bool): map<K, Agg> {
    var sums := if removing then fact.agg.sums.Negated() else fact.agg.sums;
    if fact.key !in view then view[fact.key := Agg(sums, fact.agg.span)]
    else
      var was := view[fact.key];
      view[fact.key := Agg(was.sums.Plus(sums), if removing then was.span else Widen(was.span, fact.agg.span))]
  }

  /** Drops a group that has no requests left. */
  function Pruned<K>(view: map<K, Agg>, k: K): map<K, Agg> {
    if k in view && view[k].sums.requests == 0 then view - {k} else view
  }

  lemma {:induction false} LeastExists(s: set<nat>)
    requires s != {}
    ensures exists m :: m in s && forall x :: x in s ==> m <= x
  {
    var m :| m in s;
    if s == {m} {
    } else {
      var rest := s - {m};
      LeastExists(rest);
      var n :| n in rest && forall x :: x in rest ==> n <= x;
      assert s == rest + {m};
      assert forall x :: x in s ==> Min(m, n) <= x;
      assert Min(m, n) in s;
    }
  }

  /** ORDER BY ... ASC LIMIT 1. */
  function Least(s: set<nat>): (r: Option<nat>)
    ensures r.Some? <==> s != {}
    ensures r.Some? ==> r.value in s && forall x :: x in s ==> r.value <= x
  {
    if s == {} then None
    else
      LeastExists(s);
      var m :| m in s && forall x :: x in s ==> m <= x;
      Some(m)
  }

  lemma {:induction false} GreatestExists(s: set<nat>)
    requires s != {}
    ensures exists m :: m in s && forall x :: x in s ==> x <= m
  {
    var m :| m in s;
    if s == {m} {
    } else {
      var rest := s - {m};
      GreatestExists(rest);
      var n :| n in rest && forall x :: x in rest ==> x <= n;
      assert s == rest + {m};
      assert forall x :: x in s ==> x <= Max(m, n);
      assert Max(m, n) in s;
    }
  }

  /** ORDER BY ... DESC LIMIT 1. */
  function Greatest(s: set<nat>): (r: Option<nat>)
    ensures r.Some? <==> s != {}
    ensures r.Some? ==> r.value in s && forall x :: x in s ==> x <= r.value
  {
    if s == {} then None
    else
      GreatestExists(s);
      var m :| m in s && forall x :: x in s ==> x <= m;
      Some(m)
  }

  function From(times: set<nat>, ts: nat): set<nat> { set t | t in times && ts <= t }

  function UpTo(times: set<nat>, ts: nat): set<nat> { set t | t in times && t <= ts }

  /**
   * The repair of the removed row's group when ts was one of its bounds: such a bound becomes the
   * nearest of the searched timestamps at or after ts, or at or before it. None stands for the
   * NOT NULL failure of a search that finds no row.
   */
  function Respanned<K>(view: map<K, Agg>, k: K, ts: nat, searched: set<nat>): Option<map<K, Agg>> {
    if k !in view || view[k].span.None? then Some(view)
    else
      var span := view[k].span.value;
      if ts != span.first && ts != span.last then Some(view)
      else
        var first := if ts == span.first then Least(From(searched, ts)) else Some(span.first);
        var last := if ts == span.last then Greatest(UpTo(searched, ts)) else Some(span.last);
        if first.None? || last.None? then None
        else Some(view[k := Agg(view[k].sums, Some(Span(first.value, last.value)))])
  }

  // What the aggregate of a group says about it.

  ghost function Times<I>(group: map<I, Agg>): set<nat> {
    set i | i in group && group[i].span.Some? :: group[i].span.value.first
  }

  /** span is the earliest and the latest of the times. */
  ghost predicate ExactSpan(times: set<nat>, span: Span) {
    span.first in times && span.last in times && forall t :: t in times ==> span.first <= t <= span.last
  }

  lemma TimesRemove<I>(group: map<I, Agg>, i: I)
    requires i in group && group[i].span.Some?
    ensures Times(group) == Times(group - {i}) + {group[i].span.value.first}
  {
    var rest := group - {i};
    forall t | t in Times(group) ensures t in Times(rest) + {group[i].span.value.first} {
      var j :| j in group && group[j].span.Some? && t == group[j].span.value.first;
      if j != i { assert j in rest && rest[j] == group[j]; }
    }
  }

  /** The request count is the number of facts, and a timed group carries its exact first and last timestamp. */
  lemma {:induction false} FoldShape<I>(group: map<I, Agg>, timed: bool)
    requires forall i :: i in group ==> UnitFact(group[i], timed)
    ensures Fold(group).sums.requests == |group.Keys|
    ensures !timed || group.Keys == {} ==> Fold(group).span == None
    ensures timed && group.Keys != {} ==> Fold(group).span.Some? && ExactSpan(Times(group), Fold(group).span.value)
    decreases |group.Keys|
  {
    if group.Keys == {} {
    } else {
      var i :| i in group.Keys;
      var rest := group - {i};
      assert rest.Keys == group.Keys - {i};
      FoldRemove(group, i);
      FoldShape(rest, timed);
      if timed {
        TimesRemove(group, i);
      }
    }
  }

  /** A key has a group exactly when some fact has that key. */
  lemma KeyHasFact<I, K>(facts: Facts<I, K>, k: K)
    ensures k in Keys(facts) <==> Group(facts, k).Keys != {}
  {
    if k in Keys(facts) {
      var i :| i in facts && facts[i].key == k;
      assert i in Group(facts, k);
    }
    if Group(facts, k).Keys != {} {
      var i :| i in Group(facts, k).Keys;
    }
  }

  /** The entry of the group-by at k, and its absence for an empty group. */
  lemma EntryAt<I, K>(facts: Facts<I, K>, k: K)
    ensures k in GroupBy(facts) ==> GroupBy(facts)[k] == Fold(Group(facts, k))
    ensures k !in GroupBy(facts) ==> Fold(Group(facts, k)) == NOTHING
  {
    KeyHasFact(facts, k);
  }

  lemma GroupInsert<I, K>(facts: Facts<I, K>, i: I, fact: Fact<K>, k: K)
    requires i !in facts
    ensures Group(facts[i := fact], k) == if k == fact.key then Group(facts, k)[i := fact.agg] else Group(facts, k)
    ensures i !in Group(facts, k)
  {
  }

  // Inserting a fact.

  lemma InsertedGroup<I, K>(facts: Facts<I, K>, i: I, fact: Fact<K>)
    requires i !in facts
    ensures fact.key in GroupBy(facts[i := fact])
    ensures Upserted(GroupBy(facts), fact, false)[fact.key] == GroupBy(facts[i := fact])[fact.key]
  {
    hide Fold, Group, GroupBy, Keys;
    var k, after := fact.key, facts[i := fact];
    GroupInsert(facts, i, fact, k);
    FoldInsert(Group(facts, k), i, fact.agg);
    EntryAt(facts, k);
    EntryAt(after, k);
    InView(after, i);
    CombineLaws(fact.agg, Fold(Group(facts, k)), NOTHING);
  }

  lemma InView<I, K>(facts: Facts<I, K>, i: I)
    requires i in facts
    ensures facts[i].key in GroupBy(facts)
  {
    assert facts[i].key in Keys(facts);
  }

  /** Upserting a new row's fact keeps the view equal to the group-by. */
  lemma InsertKeepsGroupBy<I, K>(facts: Facts<I, K>, i: I, fact: Fact<K>)
    requires i !in facts
    ensures Upserted(GroupBy(facts), fact, false) == GroupBy(facts[i := fact])
  {
    var upserted, after := Upserted(GroupBy(facts), fact, false), GroupBy(facts[i := fact]);
    InsertedGroup(facts, i, fact);
    forall k | k != fact.key
      ensures k in upserted <==> k in after
      ensures k in upserted ==> upserted[k] == after[k]
    {
      GroupInsert(facts, i, fact, k);
      KeyHasFact(facts, k);
      KeyHasFact(facts[i := fact], k);
    }
  }

  // Removing a fact: the view in the middle of a trigger, told apart from the group-by of the remaining facts.

  /** The removed fact's group with its remaining sums and the span it had, even when it is empty now. */
  ghost function Unpruned<I, K>(facts: Facts<I, K>, removed: Fact<K>): map<K, Agg> {
    var rest := Fold(Group(facts, removed.key));
    GroupBy(facts)[removed.key := Agg(rest.sums, Widen(rest.span, removed.agg.span))]
  }

  /** The group-by, except that the removed fact's group still spans the removed fact. */
  ghost predicate SyncButSpan<I, K>(view: map<K, Agg>, facts: Facts<I, K>, removed: Fact<K>) {
    view == if removed.key in GroupBy(facts) then Unpruned(facts, removed) else GroupBy(facts)
  }

  lemma SubtractedGroup<I, K>(facts: Facts<I, K>, i: I, fact: Fact<K>)
    requires i !in facts
    ensures fact.key in GroupBy(facts[i := fact])
    ensures Upserted(GroupBy(facts[i := fact]), fact, true)[fact.key] == Unpruned(facts, fact)[fact.key]
  {
    var k := fact.key;
    var rest := Fold(Group(facts, k));
    InsertedGroup(facts, i, fact);
    GroupInsert(facts, i, fact, k);
    FoldInsert(Group(facts, k), i, fact.agg);
    CombineLaws(fact.agg, rest, NOTHING);
    PlusNegated(rest.sums, fact.agg.sums);
  }

  /** Subtracting a row's fact leaves its group with the sums of its remaining rows. */
  lemma SubtractLeavesUnpruned<I, K>(facts: Facts<I, K>, i: I, fact: Fact<K>)
    requires i !in facts
    ensures Upserted(GroupBy(facts[i := fact]), fact, true) == Unpruned(facts, fact)
  {
    var subtracted := Upserted(GroupBy(facts[i := fact]), fact, true);
    SubtractedGroup(facts, i, fact);
    forall k | k != fact.key
      ensures k in subtracted <==> k in GroupBy(facts)
      ensures k in subtracted ==> subtracted[k] == GroupBy(facts)[k]
    {
      GroupInsert(facts, i, fact, k);
      KeyHasFact(facts, k);
      KeyHasFact(facts[i := fact], k);
    }
    assert subtracted.Keys == Unpruned(facts, fact).Keys;
  }

  lemma WidenLaws(a: Option<Span>, b: Option<Span>, c: Option<Span>)
    ensures Widen(Widen(a, b), c) == Widen(Widen(c, a), b)
  {
  }

  lemma AddedToUnpruned<I, K>(facts: Facts<I, K>, i: I, fact: Fact<K>, removed: Fact<K>)
    requires i !in facts && fact.key == removed.key
    ensures Upserted(Unpruned(facts, removed), fact, false)[fact.key] == Unpruned(facts[i := fact], removed)[fact.key]
  {
    var rest := Fold(Group(facts, fact.key));
    GroupInsert(facts, i, fact, fact.key);
    FoldInsert(Group(facts, fact.key), i, fact.agg);
    CombineLaws(fact.agg, rest, NOTHING);
    WidenLaws(rest.span, removed.agg.span, fact.agg.span);
  }

  /** Adding the new row's fact before the old group was pruned or its span repaired. */
  lemma AddKeepsUnpruned<I, K>(facts: Facts<I, K>, i: I, fact: Fact<K>, removed: Fact<K>)
    requires i !in facts
    ensures Upserted(Unpruned(facts, removed), fact, false) == Unpruned(facts[i := fact], removed)
  {
    hide Fold, Group, GroupBy, Keys;
    var k := fact.key;
    InsertKeepsGroupBy(facts, i, fact);
    GroupInsert(facts, i, fact, removed.key);
    var upserted, after := Upserted(Unpruned(facts, removed), fact, false), Unpruned(facts[i := fact], removed);
    if k == removed.key {
      AddedToUnpruned(facts, i, fact, removed);
      assert upserted == Unpruned(facts, removed)[k := after[k]];
    }
  }

  /** Pruning deletes the old group exactly when no row is left in it. */
  lemma PruneSyncs<I, K>(facts: Facts<I, K>, removed: Fact<K>, timed: bool)
    requires UnitFacts(facts, timed)
    ensures SyncButSpan(Pruned(Unpruned(facts, removed), removed.key), facts, removed)
  {
    FoldShape(Group(facts, removed.key), timed);
    KeyHasFact(facts, removed.key);
    assert removed.key !in GroupBy(facts) ==> Unpruned(facts, removed) - {removed.key} == GroupBy(facts);
  }

  lemma SpanOfUnpruned<I, K>(facts: Facts<I, K>, removed: Fact<K>)
    requires UnitFacts(facts, true) && UnitFact(removed.agg, true) && removed.key in GroupBy(facts)
    ensures var ts, group := removed.agg.span.value.first, Group(facts, removed.key);
            Fold(group).span.Some? && ExactSpan(Times(group), Fold(group).span.value)
            && Unpruned(facts, removed)[removed.key].span
               == Some(Span(Min(Fold(group).span.value.first, ts), Max(Fold(group).span.value.last, ts)))
  {
    KeyHasFact(facts, removed.key);
    FoldShape(Group(facts, removed.key), true);
  }

  /** A lower bound of the times that is searched upwards from finds the first one. */
  lemma NearestIsFirst(times: set<nat>, exact: Span, ts: nat)
    requires ExactSpan(times, exact) && ts <= exact.first
    ensures Least(From(times, ts)) == Some(exact.first)
  {
    assert exact.first in From(times, ts);
  }

  lemma NearestIsLast(times: set<nat>, exact: Span, ts: nat)
    requires ExactSpan(times, exact) && exact.last <= ts
    ensures Greatest(UpTo(times, ts)) == Some(exact.last)
  {
    assert exact.last in UpTo(times, ts);
  }

  /** Searching one side of the removed row finds the true bounds: the repaired view is the group-by again. */
  lemma RespanRestoresGroupBy<I, K>(facts: Facts<I, K>, view: map<K, Agg>, removed: Fact<K>)
    requires UnitFacts(facts, true) && UnitFact(removed.agg, true) && SyncButSpan(view, facts, removed)
    ensures Respanned(view, removed.key, removed.agg.span.value.first, Times(Group(facts, removed.key)))
            == Some(GroupBy(facts))
  {
    var k, ts := removed.key, removed.agg.span.value.first;
    if k in GroupBy(facts) {
      var group := Group(facts, k);
      SpanOfUnpruned(facts, removed);
      var exact := Fold(group).span.value;
      if ts <= exact.first { NearestIsFirst(Times(group), exact, ts); }
      if exact.last <= ts { NearestIsLast(Times(group), exact, ts); }
      EntryAt(facts, k);
      assert Fold(group) == Agg(view[k].sums, Some(exact));
      assert view[k := Fold(group)] == GroupBy(facts);
      if ts == view[k].span.value.first || ts == view[k].span.value.last {
        assert Respanned(view, k, ts, Times(group)) == Some(view[k := Fold(group)]);
      } else {
        assert view[k := Fold(group)] == view;
      }
    }
  }

  /** Without timestamps nothing is left to repair. */
  lemma UntimedNeedsNoRespan<I, K>(facts: Facts<I, K>, view: map<K, Agg>, removed: Fact<K>)
    requires UnitFacts(facts, false) && UnitFact(removed.agg, false) && SyncButSpan(view, facts, removed)
    ensures view == GroupBy(facts)
  {
    if removed.key in GroupBy(facts) {
      FoldShape(Group(facts, removed.key), false);
      assert Fold(Group(facts, removed.key)) == Unpruned(facts, removed)[removed.key];
    }
  }

  /** The facts of some of the base rows. */
  ghost function Pick<I, K>(facts: Facts<I, K>, rows: set<I>): map<I, Agg> {
    map i | i in facts && i in rows :: facts[i].agg
  }

  lemma PickUnion<I, K>(facts: Facts<I, K>, a: set<I>, b: set<I>)
    requires a !! b
    ensures Fold(Pick(facts, a + b)) == Fold(Pick(facts, a)).Combine(Fold(Pick(facts, b)))
  {
    PickSplit(facts, a, b);
    FoldUnion(Pick(facts, a), Pick(facts, b));
  }

  lemma PickSplit<I, K>(facts: Facts<I, K>, a: set<I>, b: set<I>)
    requires a !! b
    ensures Pick(facts, a).Keys !! Pick(facts, b).Keys
    ensures Pick(facts, a) + Pick(facts, b) == Pick(facts, a + b)
  {
  }

  ghost function PickGroups<I, K>(facts: Facts<I, K>, keys: set<K>): map<K, Agg> {
    map k | k in GroupBy(facts) && k in keys :: GroupBy(facts)[k]
  }

  /** Aggregating some of the groups aggregates the facts that belong to them. */
  lemma SelectGroups<I, K>(facts: Facts<I, K>, keys: set<K>, rows: set<I>)
    requires forall i :: i in facts ==> (i in rows <==> facts[i].key in keys)
    ensures Fold(PickGroups(facts, keys)) == Fold(Pick(facts, rows))
  {
    var groups, selected := PickGroups(facts, keys), Pick(facts, rows);
    var keyOf := map i | i in facts :: facts[i].key;
    forall k | k in groups ensures groups[k] == Fold(Part(selected, keyOf, k)) {
      assert Part(selected, keyOf, k) == Group(facts, k);
    }
    forall i | i in selected ensures keyOf[i] in groups {
      assert facts[i].key in Keys(facts);
    }
    Regroup(selected, keyOf, groups);
  }
}
