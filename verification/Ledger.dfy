/** Sums over finite maps. */
module Sums {

  ghost function Sum<K, V>(m: map<K, V>, f: (K, V) -> int): int
    decreases |m|
  {
    if m == map[] then 0
    else
      var k :| k in m;
      assert |m - {k}| < |m| by { Smaller(m, k); }
      f(k, m[k]) + Sum(m - {k}, f)
  }

  lemma Smaller<K, V>(m: map<K, V>, k: K)
    requires k in m
    ensures |m - {k}| == |m| - 1
  {
    assert (m - {k}).Keys == m.Keys - {k};
    assert |m.Keys - {k}| == |m.Keys| - 1;
  }

  lemma {:induction false} SumRemove<K, V>(m: map<K, V>, k: K, f: (K, V) -> int)
    requires k in m
    ensures Sum(m, f) == f(k, m[k]) + Sum(m - {k}, f)
    decreases |m|
  {
    var j :| j in m && Sum(m, f) == f(j, m[j]) + Sum(m - {j}, f);
    if j != k {
      Smaller(m, j);
      SumRemove(m - {j}, k, f);
      Smaller(m, k);
      SumRemove(m - {k}, j, f);
      assert m - {j} - {k} == m - {k} - {j};
    }
  }

  function At<K, V>(m: map<K, V>, k: K, f: (K, V) -> int): int {
    if k in m then f(k, m[k]) else 0
  }

  /** Replacing one entry changes the sum by the change of that entry. */
  lemma SumUpdate<K, V>(m: map<K, V>, k: K, v: V, f: (K, V) -> int)
    ensures Sum(m[k := v], f) == Sum(m, f) - At(m, k, f) + f(k, v)
  {
    SumRemove(m[k := v], k, f);
    if k in m {
      SumRemove(m, k, f);
      assert m[k := v] - {k} == m - {k};
    } else {
      assert m[k := v] - {k} == m;
    }
  }

  lemma SumDrop<K, V>(m: map<K, V>, k: K, f: (K, V) -> int)
    ensures Sum(m - {k}, f) == Sum(m, f) - At(m, k, f)
  {
    if k in m {
      SumRemove(m, k, f);
    } else {
      assert m - {k} == m;
    }
  }

  lemma {:induction false} SumNonNegative<K, V>(m: map<K, V>, f: (K, V) -> int)
    requires forall k <- m :: f(k, m[k]) >= 0
    ensures Sum(m, f) >= 0
    decreases |m|
  {
    if m != map[] {
      var k :| k in m;
      Smaller(m, k);
      SumRemove(m, k, f);
      SumNonNegative(m - {k}, f);
    }
  }

  /** No entry of a sum of non-negative entries exceeds it. */
  lemma EntryAtMostSum<K, V>(m: map<K, V>, k: K, f: (K, V) -> int)
    requires k in m && forall j <- m :: f(j, m[j]) >= 0
    ensures f(k, m[k]) <= Sum(m, f)
  {
    SumRemove(m, k, f);
    SumNonNegative(m - {k}, f);
  }

  lemma {:induction false} SumOfZeros<K, V>(m: map<K, V>, f: (K, V) -> int)
    requires forall k <- m :: f(k, m[k]) == 0
    ensures Sum(m, f) == 0
    decreases |m|
  {
    if m != map[] {
      var k :| k in m;
      Smaller(m, k);
      SumRemove(m, k, f);
      SumOfZeros(m - {k}, f);
    }
  }
}
