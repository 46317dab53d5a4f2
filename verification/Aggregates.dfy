/** Facts and their aggregation: sums of measures, and the first and last timestamp of a group. */
module Aggregates {
  import opened Wrappers

  /** factMeasures. Costs are exact. */
  datatype Measures = Measures(
    requests: int, input: int, output: int, cacheRead: int, cacheCreation: int, reasoning: int,
    reported: int, estimated: int, free: int, known: int, cost: real)
  {
    function Plus(o: Measures): Measures {
      Measures(requests + o.requests, input + o.input, output + o.output, cacheRead + o.cacheRead,
               cacheCreation + o.cacheCreation, reasoning + o.reasoning, reported + o.reported,
               estimated + o.estimated, free + o.free, known + o.known, cost + o.cost)
    }

    function Negated(): Measures {
      Measures(-requests, -input, -output, -cacheRead, -cacheCreation, -reasoning,
               -reported, -estimated, -free, -known, -cost)
    }
  }

  const ZERO := Measures(0, 0, 0, 0, 0, 0, 0, 0, 0, 0, 0.0)

  datatype Span = Span(first: nat, last: nat)

  /** MIN of the first timestamps and MAX of the last ones, either side possibly absent. */
  function Widen(a: Option<Span>, b: Option<Span>): Option<Span> {
    if a.None? then b
    else if b.None? then a
    else Some(Span(Min(a.value.first, b.value.first), Max(a.value.last, b.value.last)))
  }

  /** What GROUP BY computes for a group of facts. */
  datatype Agg = Agg(sums: Measures, span: Option<Span>) {
    function Combine(o: Agg): Agg { Agg(sums.Plus(o.sums), Widen(span, o.span)) }
  }

  const NOTHING := Agg(ZERO, None)

  lemma CombineLaws(a: Agg, b: Agg, c: Agg)
    ensures a.Combine(b) == b.Combine(a)
    ensures a.Combine(b).Combine(c) == a.Combine(b.Combine(c))
    ensures a.Combine(NOTHING) == a
  {
  }

  /** Removing what was added leaves the sums as they were. */
  lemma PlusNegated(a: Measures, b: Measures)
    ensures a.Plus(b).Plus(b.Negated()) == a
  {
  }

  /** The aggregate of all facts in m, in no particular order. */
  ghost function Fold<K>(m: map<K, Agg>): Agg
    decreases |m.Keys|
  {
    if m.Keys == {} then NOTHING
    else
      var k :| k in m.Keys;
      assert (m - {k}).Keys == m.Keys - {k};
      m[k].Combine(Fold(m - {k}))
  }

  /** Any fact may be taken out first. */
  lemma {:induction false} FoldRemove<K>(m: map<K, Agg>, k: K)
    requires k in m
    ensures Fold(m) == m[k].Combine(Fold(m - {k}))
    decreases |m.Keys|
  {
    var k0 :| k0 in m.Keys && Fold(m) == m[k0].Combine(Fold(m - {k0}));
    if k0 == k {
    } else {
      var rest := m - {k0} - {k};
      assert rest == m - {k} - {k0};
      assert (m - {k0}).Keys == m.Keys - {k0} && (m - {k}).Keys == m.Keys - {k};
      FoldRemove(m - {k0}, k);
      FoldRemove(m - {k}, k0);
      CombineLaws(m[k0], m[k], Fold(rest));
      CombineLaws(m[k], m[k0], Fold(rest));
    }
  }

  lemma FoldInsert<K>(m: map<K, Agg>, k: K, v: Agg)
    requires k !in m
    ensures Fold(m[k := v]) == v.Combine(Fold(m))
  {
    FoldRemove(m[k := v], k);
    assert m[k := v] - {k} == m;
  }

  lemma UnionRemove<K, V>(a: map<K, V>, b: map<K, V>, k: K)
    requires a.Keys !! b.Keys && k in a
    ensures (a + b)[k] == a[k]
    ensures (a + b) - {k} == (a - {k}) + b
    ensures (a - {k}).Keys == a.Keys - {k} && |(a - {k}).Keys| < |a.Keys|
  {
  }

  /** Facts split into two disjoint parts aggregate part by part (UNION ALL). */
  lemma {:induction false} FoldUnion<K>(a: map<K, Agg>, b: map<K, Agg>)
    requires a.Keys !! b.Keys
    ensures Fold(a + b) == Fold(a).Combine(Fold(b))
    decreases |a.Keys|
  {
    if a.Keys == {} {
      assert a + b == b;
      CombineLaws(Fold(b), NOTHING, NOTHING);
    } else {
      var k :| k in a.Keys;
      FoldRemove(a, k);
      FoldRemove(a + b, k);
      UnionRemove(a, b, k);
      FoldUnion(a - {k}, b);
      CombineLaws(a[k], Fold(a - {k}), Fold(b));
    }
  }

  /** The facts of one group. */
  ghost function Part<I, K>(m: map<I, Agg>, keyOf: map<I, K>, k: K): map<I, Agg>
    requires m.Keys <= keyOf.Keys
  {
    map i | i in m && keyOf[i] == k :: m[i]
  }

  ghost function Others<I, K>(m: map<I, Agg>, keyOf: map<I, K>, k: K): map<I, Agg>
    requires m.Keys <= keyOf.Keys
  {
    map i | i in m && keyOf[i] != k :: m[i]
  }

  lemma SplitPart<I, K>(m: map<I, Agg>, keyOf: map<I, K>, k: K)
    requires m.Keys <= keyOf.Keys
    ensures Others(m, keyOf, k).Keys <= keyOf.Keys
    ensures Part(m, keyOf, k).Keys !! Others(m, keyOf, k).Keys
    ensures m == Part(m, keyOf, k) + Others(m, keyOf, k)
    ensures forall k' :: k' != k ==> Part(Others(m, keyOf, k), keyOf, k') == Part(m, keyOf, k')
  {
  }

  /** groups is the GROUP BY of the facts in m by keyOf, and possibly empty groups. */
  ghost predicate IsGrouping<I, K>(m: map<I, Agg>, keyOf: map<I, K>, groups: map<K, Agg>) {
    && m.Keys <= keyOf.Keys
    && (forall i :: i in m ==> keyOf[i] in groups)
    && (forall k :: k in groups ==> groups[k] == Fold(Part(m, keyOf, k)))
  }

  lemma GroupingWithout<I, K>(m: map<I, Agg>, keyOf: map<I, K>, groups: map<K, Agg>, k: K)
    requires IsGrouping(m, keyOf, groups) && k in groups
    ensures IsGrouping(Others(m, keyOf, k), keyOf, groups - {k})
    ensures (groups - {k}).Keys == groups.Keys - {k}
  {
    SplitPart(m, keyOf, k);
  }

  /** Aggregating the groups aggregates the facts: a coarser query may read a finer rollup. */
  lemma {:induction false} Regroup<I, K>(m: map<I, Agg>, keyOf: map<I, K>, groups: map<K, Agg>)
    requires IsGrouping(m, keyOf, groups)
    ensures Fold(groups) == Fold(m)
    decreases |groups.Keys|
  {
    if groups.Keys == {} {
      assert m.Keys == {};
    } else {
      var k :| k in groups.Keys;
      SplitPart(m, keyOf, k);
      FoldUnion(Part(m, keyOf, k), Others(m, keyOf, k));
      FoldRemove(groups, k);
      GroupingWithout(m, keyOf, groups, k);
      Regroup(Others(m, keyOf, k), keyOf, groups - {k});
    }
  }
}
