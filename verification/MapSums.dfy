/** Sums over the rows of a table. */
module MapSums {
  // The sum of f over the values of m.
  ghost function Sum<K(!new), V>(m: map<K, V>, f: V -> int): int
    decreases |m|
  {
    if m == map[] then 0
    else
      var k :| k in m;
      f(m[k]) + Sum(m - {k}, f)
  }

  lemma SumRemove<K(!new), V>(m: map<K, V>, f: V -> int, k: K)
    requires k in m
    ensures Sum(m, f) == f(m[k]) + Sum(m - {k}, f)
    decreases |m|
  {
    var j :| j in m && Sum(m, f) == f(m[j]) + Sum(m - {j}, f);
    if j != k {
      SumRemove(m - {j}, f, k);
      SumRemove(m - {k}, f, j);
      assert m - {j} - {k} == m - {k} - {j};
    }
  }

  // Writing one row replaces its contribution.
  lemma SumUpdate<K(!new), V>(m: map<K, V>, f: V -> int, k: K, v: V)
    ensures Sum(m[k := v], f) == Sum(m, f) + f(v) - (if k in m then f(m[k]) else 0)
  {
    SumRemove(m[k := v], f, k);
    if k in m {
      SumRemove(m, f, k);
      assert m[k := v] - {k} == m - {k};
    } else {
      assert m[k := v] - {k} == m;
    }
  }

  // Comparing two functions row by row.
  lemma {:induction false} SumAtMost<K(!new), V>(m: map<K, V>, n: map<K, V>, f: V -> int, g: V -> int)
    requires m.Keys == n.Keys && forall k | k in m :: f(m[k]) <= g(n[k])
    ensures Sum(m, f) <= Sum(n, g)
    decreases |m|
  {
    if m == map[] {
      assert n == map[];
    } else {
      var k :| k in m;
      SumRemove(m, f, k);
      SumRemove(n, g, k);
      SumAtMost(m - {k}, n - {k}, f, g);
    }
  }
}
