/** Sums over the values of a map. */
module Sums {

  ghost function Sum<K(!new)>(m: map<K, nat>): nat
    decreases |m|
  {
    if m == map[] then 0
    else
      var k :| k in m;
      assert (m - {k}).Keys == m.Keys - {k};
      m[k] + Sum(m - {k})
  }

  lemma {:induction false} SumRemove<K(!new)>(m: map<K, nat>, k: K)
    requires k in m
    ensures Sum(m) == m[k] + Sum(m - {k})
    decreases |m|
  {
    assert (m - {k}).Keys == m.Keys - {k};
    var j :| j in m && Sum(m) == m[j] + Sum(m - {j});
    assert (m - {j}).Keys == m.Keys - {j};
    if j == k {
    } else {
      SumRemove(m - {j}, k);
      SumRemove(m - {k}, j);
      assert m - {j} - {k} == m - {k} - {j};
    }
  }

  lemma SumUpdate<K(!new)>(m: map<K, nat>, k: K, v: nat)
    ensures Sum(m[k := v]) == v + Sum(m - {k})
    ensures k in m ==> Sum(m) == m[k] + Sum(m - {k})
    ensures k !in m ==> Sum(m) == Sum(m - {k})
  {
    SumRemove(m[k := v], k);
    assert m[k := v] - {k} == m - {k};
    if k in m { SumRemove(m, k); } else { assert m - {k} == m; }
  }

  lemma {:induction false} SumZero<K(!new)>(m: map<K, nat>)
    requires forall k :: k in m ==> m[k] == 0
    ensures Sum(m) == 0
    decreases |m|
  {
    if m == map[] {
    } else {
      var k :| k in m;
      assert (m - {k}).Keys == m.Keys - {k};
      SumRemove(m, k);
      SumZero(m - {k});
    }
  }

  function At<K(!new)>(m: map<K, nat>, k: K): nat { if k in m then m[k] else 0 }

  /** A missing entry sums like a zero. */
  lemma {:induction false} SumSame<K(!new)>(a: map<K, nat>, b: map<K, nat>)
    requires forall k :: At(a, k) == At(b, k)
    ensures Sum(a) == Sum(b)
    decreases |a|
  {
    if a == map[] {
      forall k | k in b ensures b[k] == 0 { assert At(a, k) == At(b, k); }
      SumZero(b);
    } else {
      var k :| k in a;
      assert (a - {k}).Keys == a.Keys - {k};
      SumRemove(a, k);
      SumUpdate(b, k, 0);
      forall j ensures At(a - {k}, j) == At(b - {k}, j) { assert At(a, j) == At(b, j); }
      SumSame(a - {k}, b - {k});
      assert At(a, k) == At(b, k);
    }
  }
}
