/**
 Sums over the rows of a table. A table is a finite map, and a sum must not depend on
 the order in which rows are visited, so the sum is defined by picking any row and the
 lemmas say how it moves when one row is inserted, replaced or removed.
 */
module FiniteSums {

  ghost function MapSum<K(!new), V(!new)>(m: map<K, V>, f: (K, V) -> int): int
    decreases |m|
  {
    if m == map[] then 0
    else
      var k :| k in m;
      f(k, m[k]) + MapSum(m - {k}, f)
  }

  ghost function AnyKey<K, V>(m: map<K, V>): (k: K)
    requires m != map[]
    ensures k in m
  {
    var k :| k in m;
    k
  }

  lemma PickKey<K, V>(m: map<K, V>) returns (k: K)
    requires m != map[]
    ensures k in m
  {
    k :| k in m;
  }

  /** Any row may be taken out first. */
  lemma {:induction false} MapSumTake<K(!new), V(!new)>(m: map<K, V>, f: (K, V) -> int, k: K)
    requires k in m
    ensures MapSum(m, f) == f(k, m[k]) + MapSum(m - {k}, f)
    decreases |m|
  {
    var j :| j in m && MapSum(m, f) == f(j, m[j]) + MapSum(m - {j}, f);
    if j != k {
      MapSumTake(m - {j}, f, k);
      MapSumTake(m - {k}, f, j);
      assert m - {j} - {k} == m - {k} - {j};
    }
  }

  lemma {:induction false} MapSumInsert<K(!new), V(!new)>(m: map<K, V>, f: (K, V) -> int, k: K, v: V)
    requires k !in m
    ensures MapSum(m[k := v], f) == MapSum(m, f) + f(k, v)
  {
    MapSumTake(m[k := v], f, k);
    assert m[k := v] - {k} == m;
  }

  lemma {:induction false} MapSumReplace<K(!new), V(!new)>(m: map<K, V>, f: (K, V) -> int, k: K, v: V)
    requires k in m
    ensures MapSum(m[k := v], f) == MapSum(m, f) - f(k, m[k]) + f(k, v)
  {
    MapSumTake(m, f, k);
    MapSumTake(m[k := v], f, k);
    assert m[k := v] - {k} == m - {k};
  }

  /** Tables that agree row by row, as far as the summands can see, have the same sum. */
  lemma {:induction false} MapSumEqual<K(!new), V(!new), W(!new)>(
    m: map<K, V>, f: (K, V) -> int, n: map<K, W>, g: (K, W) -> int)
    requires m.Keys == n.Keys
    requires forall k :: k in m ==> f(k, m[k]) == g(k, n[k])
    ensures MapSum(m, f) == MapSum(n, g)
    decreases |m|
  {
    if m != map[] {
      var k :| k in m && MapSum(m, f) == f(k, m[k]) + MapSum(m - {k}, f);
      assert k in n;
      MapSumTake(n, g, k);
      MapSumEqual(m - {k}, f, n - {k}, g);
    } else {
      assert n == map[];
    }
  }

  /** A sum of non-negative summands bounds each summand. */
  lemma {:induction false} MapSumNonNegative<K(!new), V(!new)>(m: map<K, V>, f: (K, V) -> int)
    requires forall k :: k in m ==> 0 <= f(k, m[k])
    ensures 0 <= MapSum(m, f)
    ensures forall k :: k in m ==> f(k, m[k]) <= MapSum(m, f)
    decreases |m|
  {
    if m != map[] {
      forall k | k in m
        ensures f(k, m[k]) <= MapSum(m, f) && 0 <= MapSum(m, f)
      {
        MapSumTake(m, f, k);
        MapSumNonNegative(m - {k}, f);
      }
    }
  }

  lemma {:induction false} MapSumSplit<K(!new), V(!new)>(
    m: map<K, V>, f: (K, V) -> int, g: (K, V) -> int, h: (K, V) -> int)
    requires forall k :: k in m ==> h(k, m[k]) == f(k, m[k]) + g(k, m[k])
    ensures MapSum(m, h) == MapSum(m, f) + MapSum(m, g)
    decreases |m|
  {
    if m != map[] {
      var k :| k in m;
      MapSumTake(m, f, k);
      MapSumTake(m, g, k);
      MapSumTake(m, h, k);
      MapSumSplit(m - {k}, f, g, h);
    }
  }

  /** Rows that contribute nothing may be ignored. */
  lemma {:induction false} MapSumPart<K(!new), V(!new)>(
    m: map<K, V>, f: (K, V) -> int, part: map<K, V>, g: (K, V) -> int)
    requires part.Keys <= m.Keys
    requires forall k :: k in part ==> f(k, m[k]) == g(k, part[k])
    requires forall k :: k in m && k !in part ==> f(k, m[k]) == 0
    ensures MapSum(m, f) == MapSum(part, g)
    decreases |m|
  {
    if m.Keys == part.Keys {
      MapSumEqual(m, f, part, g);
    } else {
      var k :| k in m && k !in part;
      MapSumTake(m, f, k);
      MapSumPart(m - {k}, f, part, g);
    }
  }

  lemma {:induction false} MapSumZero<K(!new), V(!new)>(m: map<K, V>, f: (K, V) -> int)
    requires forall k :: k in m ==> f(k, m[k]) == 0
    ensures MapSum(m, f) == 0
  {
    MapSumPart(m, f, map[], f);
  }
}
