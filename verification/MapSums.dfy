/** Sums over the entries of a finite map. */
module MapSums {

  ghost function Sum<K, V>(m: map<K, V>, weight: (K, V) -> int): int
    decreases |m|
  {
    if m == map[] then 0
    else
      var k :| k in m;
      weight(k, m[k]) + Sum(m - {k}, weight)
  }

  /** The sum does not depend on which entry is taken first. */
  lemma {:induction false} SumRemove<K, V>(m: map<K, V>, weight: (K, V) -> int, k: K)
    requires k in m
    ensures Sum(m, weight) == weight(k, m[k]) + Sum(m - {k}, weight)
    decreases |m|
  {
    var first :| first in m && Sum(m, weight) == weight(first, m[first]) + Sum(m - {first}, weight);
    if first != k {
      SumRemove(m - {first}, weight, k);
      SumRemove(m - {k}, weight, first);
      assert m - {first} - {k} == m - {k} - {first};
    }
  }

  lemma {:induction false} SumPut<K, V>(m: map<K, V>, weight: (K, V) -> int, k: K, v: V)
    ensures Sum(m[k := v], weight) == Sum(m, weight) + weight(k, v) - if k in m then weight(k, m[k]) else 0
  {
    var n := m[k := v];
    SumRemove(n, weight, k);
    if k in m {
      SumRemove(m, weight, k);
      assert n - {k} == m - {k};
    } else {
      assert n - {k} == m;
    }
  }

  lemma {:induction false} SumNonNegative<K, V>(m: map<K, V>, weight: (K, V) -> int)
    requires forall k :: k in m ==> weight(k, m[k]) >= 0
    ensures Sum(m, weight) >= 0
    decreases |m|
  {
    if m != map[] {
      var k :| k in m && Sum(m, weight) == weight(k, m[k]) + Sum(m - {k}, weight);
      SumNonNegative(m - {k}, weight);
    }
  }

  lemma {:induction false} SumAtLeast<K, V>(m: map<K, V>, weight: (K, V) -> int, k: K)
    requires k in m && forall j :: j in m ==> weight(j, m[j]) >= 0
    ensures Sum(m, weight) >= weight(k, m[k])
  {
    SumRemove(m, weight, k);
    SumNonNegative(m - {k}, weight);
  }
}
