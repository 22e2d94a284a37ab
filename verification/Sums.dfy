/** Sums over finite maps, independent of the order in which keys are visited. */
module Sums {
  ghost function Pick<K(!new), V>(m: map<K, V>): K
    requires m != map[]
  {
    var k :| k in m; k
  }

  /** Sum of f over the values of a map. */
  ghost function Total<K(!new), V>(m: map<K, V>, f: V -> int): int {
    if m == map[] then 0 else f(m[Pick(m)]) + Total(m - {Pick(m)}, f)
  }

  lemma {:induction false} TotalRemove<K(!new), V>(m: map<K, V>, k: K, f: V -> int)
    requires k in m
    ensures Total(m, f) == f(m[k]) + Total(m - {k}, f)
    decreases |m|
  {
    var j := Pick(m);
    if j != k {
      TotalRemove(m - {j}, k, f);
      TotalRemove(m - {k}, j, f);
      assert m - {j} - {k} == m - {k} - {j};
    }
  }

  lemma {:induction false} TotalSet<K(!new), V>(m: map<K, V>, k: K, v: V, f: V -> int)
    ensures Total(m[k := v], f) == f(v) + Total(m - {k}, f)
  {
    TotalRemove(m[k := v], k, f);
    assert m[k := v] - {k} == m - {k};
  }

  lemma {:induction false} TotalNotNegative<K(!new), V>(m: map<K, V>, f: V -> int)
    requires forall k :: k in m ==> f(m[k]) >= 0
    ensures Total(m, f) >= 0
    decreases |m|
  {
    if m != map[] {
      TotalNotNegative(m - {Pick(m)}, f);
    }
  }
}
