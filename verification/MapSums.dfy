/** Sums over the entries of a map, in any order, and sizes of subsets. */
module MapSums {
  ghost function Sum<K, V>(m: map<K, V>, f: (K, V) -> nat): nat {
    if m == map[] then 0
    else
      var k :| k in m;
      f(k, m[k]) + Sum(m - {k}, f)
  }

  /** Any entry can be counted first. */
  lemma {:induction false} SumWithout<K, V>(m: map<K, V>, f: (K, V) -> nat, k: K)
    requires k in m
    ensures Sum(m, f) == f(k, m[k]) + Sum(m - {k}, f)
    decreases |m|
  {
    var j :| j in m && Sum(m, f) == f(j, m[j]) + Sum(m - {j}, f);
    if j != k {
      SumWithout(m - {j}, f, k);
      SumWithout(m - {k}, f, j);
      assert m - {j} - {k} == m - {k} - {j};
    }
  }

  /** Setting an entry replaces what it counted for. */
  lemma SumUpdates<K, V>(m: map<K, V>, f: (K, V) -> nat, k: K, v: V)
    ensures Sum(m[k := v], f) + (if k in m then f(k, m[k]) else 0) == Sum(m, f) + f(k, v)
  {
    SumWithout(m[k := v], f, k);
    assert m[k := v] - {k} == m - {k};
    if k in m { SumWithout(m, f, k); } else { assert m - {k} == m; }
  }

  lemma OneEntryLess<K, V>(m: map<K, V>, k: K)
    requires k in m
    ensures |m| == |m - {k}| + 1
  {
    assert (m - {k}).Keys == m.Keys - {k} && |m| == |m.Keys|;
  }

  lemma OneMoreTimes(n: nat, bound: nat)
    ensures (n + 1) * bound == n * bound + bound
  {
  }

  /** Entries that count for no more than a bound each. */
  lemma {:induction false} SumIsBounded<K, V>(m: map<K, V>, f: (K, V) -> nat, bound: nat)
    requires forall k <- m :: f(k, m[k]) <= bound
    ensures Sum(m, f) <= |m| * bound
    decreases |m|
  {
    if m != map[] {
      var k :| k in m && Sum(m, f) == f(k, m[k]) + Sum(m - {k}, f);
      OneEntryLess(m, k);
      SumIsBounded(m - {k}, f, bound);
      OneMoreTimes(|m - {k}|, bound);
    }
  }

  lemma SubsetSize<T>(a: set<T>, b: set<T>)
    requires a <= b
    ensures |a| <= |b| && (|a| == |b| ==> a == b)
  {
    assert b == a + (b - a);
  }

  lemma NothingSums<K, V>(f: (K, V) -> nat)
    ensures Sum(map[], f) == 0
  {
  }
}
