/**
 Insertion-ordered dictionaries: the first entry is the least recently used one, and an
 update in place keeps the position of its key.
 */
module OrderedDicts {
  import opened Basics

  type Dict<K, V> = seq<(K, V)>

  predicate Contains<K(==), V>(d: Dict<K, V>, k: K) {
    d != [] && (d[0].0 == k || Contains(d[1..], k))
  }

  predicate Distinct<K(==), V>(d: Dict<K, V>) {
    d == [] || (!Contains(d[1..], d[0].0) && Distinct(d[1..]))
  }

  function Get<K(==), V>(d: Dict<K, V>, k: K): (v: Option<V>)
    ensures v.Some? <==> Contains(d, k)
  {
    if d == [] then None
    else if d[0].0 == k then Some(d[0].1)
    else Get(d[1..], k)
  }

  function Pop<K(==), V>(d: Dict<K, V>, k: K): (rest: Dict<K, V>) {
    if d == [] then []
    else if d[0].0 == k then Pop(d[1..], k)
    else [d[0]] + Pop(d[1..], k)
  }

  function Put<K(==), V>(d: Dict<K, V>, k: K, v: V): (r: Dict<K, V>) {
    if d == [] then [(k, v)]
    else if d[0].0 == k then [(k, v)] + d[1..]
    else [d[0]] + Put(d[1..], k, v)
  }

  function MoveToEnd<K(==), V>(d: Dict<K, V>, k: K): Dict<K, V> {
    match Get(d, k)
    case None => d
    case Some(v) => Pop(d, k) + [(k, v)]
  }

  function MoveToFront<K(==), V>(d: Dict<K, V>, k: K): Dict<K, V> {
    match Get(d, k)
    case None => d
    case Some(v) => [(k, v)] + Pop(d, k)
  }

  /** Drop the least recently used entry when the dictionary has outgrown its bound. */
  function Trim<K, V>(d: Dict<K, V>, maximum: nat): (r: Dict<K, V>)
    ensures |d| <= maximum + 1 ==> |r| <= maximum
  {
    if |d| > maximum then d[1..] else d
  }

  lemma {:induction false} PopAbsent<K, V>(d: Dict<K, V>, k: K)
    requires !Contains(d, k)
    ensures Pop(d, k) == d
  {
    if d != [] {
      PopAbsent(d[1..], k);
    }
  }

  lemma {:induction false} PopGet<K, V>(d: Dict<K, V>, k: K, j: K)
    ensures Get(Pop(d, k), j) == if j == k then None else Get(d, j)
  {
    if d != [] {
      PopGet(d[1..], k, j);
    }
  }

  lemma {:induction false} PopLength<K, V>(d: Dict<K, V>, k: K)
    requires Distinct(d)
    ensures |Pop(d, k)| == if Contains(d, k) then |d| - 1 else |d|
  {
    if d != [] {
      PopLength(d[1..], k);
    }
  }

  lemma {:induction false} PopDistinct<K, V>(d: Dict<K, V>, k: K)
    requires Distinct(d)
    ensures Distinct(Pop(d, k))
  {
    if d != [] {
      PopDistinct(d[1..], k);
      PopGet(d[1..], k, d[0].0);
    }
  }

  lemma {:induction false} AppendGet<K, V>(d: Dict<K, V>, k: K, v: V, j: K)
    ensures Get(d + [(k, v)], j) ==
            if Contains(d, j) then Get(d, j) else if j == k then Some(v) else None
  {
    if d != [] {
      assert (d + [(k, v)])[1..] == d[1..] + [(k, v)];
      AppendGet(d[1..], k, v, j);
    }
  }

  lemma {:induction false} AppendPop<K, V>(d: Dict<K, V>, k: K, v: V, j: K)
    ensures Pop(d + [(k, v)], j) == Pop(d, j) + if j == k then [] else [(k, v)]
  {
    if d == [] {
      assert (d + [(k, v)])[1..] == [];
    } else {
      assert (d + [(k, v)])[1..] == d[1..] + [(k, v)];
      AppendPop(d[1..], k, v, j);
    }
  }

  lemma {:induction false} AppendDistinct<K, V>(d: Dict<K, V>, k: K, v: V)
    requires Distinct(d) && !Contains(d, k)
    ensures Distinct(d + [(k, v)])
  {
    if d != [] {
      assert (d + [(k, v)])[1..] == d[1..] + [(k, v)];
      AppendDistinct(d[1..], k, v);
      AppendGet(d[1..], k, v, d[0].0);
    }
  }

  /** A new key goes to the recent end. */
  lemma {:induction false} PutAbsent<K, V>(d: Dict<K, V>, k: K, v: V)
    requires !Contains(d, k)
    ensures Put(d, k, v) == d + [(k, v)]
  {
    if d != [] {
      PutAbsent(d[1..], k, v);
    }
  }

  /** Writing back the value a key already holds changes nothing. */
  lemma {:induction false} PutSame<K, V>(d: Dict<K, V>, k: K)
    requires Contains(d, k)
    ensures Put(d, k, Get(d, k).value) == d
  {
    if d[0].0 != k {
      PutSame(d[1..], k);
    }
  }

  lemma {:induction false} PutTwice<K, V>(d: Dict<K, V>, k: K, v: V, w: V)
    ensures Put(Put(d, k, v), k, w) == Put(d, k, w)
  {
    if d != [] && d[0].0 != k {
      PutTwice(d[1..], k, v, w);
    }
  }

  lemma {:induction false} PutGet<K, V>(d: Dict<K, V>, k: K, v: V, j: K)
    ensures Get(Put(d, k, v), j) == if j == k then Some(v) else Get(d, j)
  {
    if d != [] && d[0].0 != k {
      PutGet(d[1..], k, v, j);
    }
  }

  /** Only the entry of the written key is touched. */
  lemma {:induction false} PutPop<K, V>(d: Dict<K, V>, k: K, v: V)
    ensures Pop(Put(d, k, v), k) == Pop(d, k)
    ensures Contains(d, k) ==> |Put(d, k, v)| == |d|
  {
    if d != [] && d[0].0 != k {
      PutPop(d[1..], k, v);
    }
  }

  lemma {:induction false} PutDistinct<K, V>(d: Dict<K, V>, k: K, v: V)
    requires Distinct(d)
    ensures Distinct(Put(d, k, v))
  {
    if d != [] && d[0].0 != k {
      PutDistinct(d[1..], k, v);
      PutGet(d[1..], k, v, d[0].0);
    }
  }

  /** The same entries, whatever the recency order. */
  ghost predicate SameContents<K(!new), V>(a: Dict<K, V>, b: Dict<K, V>) {
    |a| == |b| && forall k :: Get(a, k) == Get(b, k)
  }
}
