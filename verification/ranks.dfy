/**
 Order statistics of real numbers by counting: what stands at a rank, and what a median is,
 said without sorting.
 */
module Ranks {
  import opened Basics
  import opened Sorting

  const AscendingReal: (real, real) -> bool := (a: real, b: real) => a <= b

  /** How many values are less than x. */
  function Below(values: seq<real>, x: real): nat {
    if values == [] then 0 else (if values[0] < x then 1 else 0) + Below(values[1..], x)
  }

  /** How many values are greater than x. */
  function Above(values: seq<real>, x: real): nat {
    if values == [] then 0 else (if values[0] > x then 1 else 0) + Above(values[1..], x)
  }

  /** One of the values, with at most k values below it and at most |values| - 1 - k above it. */
  ghost predicate AtRank(values: seq<real>, k: nat, x: real) {
    x in values && Below(values, x) <= k && Above(values, x) + k < |values|
  }

  /**
   Of an odd number of values the one with at most half of them on each side; of an even
   number the midpoint between the two that split them into halves.
   */
  ghost predicate IsMedian(values: seq<real>, m: real) {
    if |values| % 2 == 1 then
      m in values && 2 * Below(values, m) <= |values| && 2 * Above(values, m) <= |values|
    else
      exists low, high ::
        && low in values && high in values && low <= high && m == (low + high) / 2.0
        && 2 * Below(values, low) < |values| && 2 * Above(values, low) <= |values|
        && 2 * Below(values, high) <= |values| && 2 * Above(values, high) < |values|
  }

  // ----- A rank has one value -----

  lemma {:induction false} CountsCover(values: seq<real>, x: real, y: real)
    requires x < y
    ensures |values| <= Above(values, x) + Below(values, y)
  {
    if values != [] {
      CountsCover(values[1..], x, y);
    }
  }

  lemma RankIsUnique(values: seq<real>, k: nat, x: real, y: real)
    requires AtRank(values, k, x) && AtRank(values, k, y)
    ensures x == y
  {
    if x < y {
      CountsCover(values, x, y);
    } else if y < x {
      CountsCover(values, y, x);
    }
  }

  // ----- Sorting puts every rank in its place -----

  lemma {:induction false} InsertCounts(x: real, s: seq<real>, y: real)
    ensures Below(Insert(x, s, AscendingReal), y) == Below([x] + s, y)
    ensures Above(Insert(x, s, AscendingReal), y) == Above([x] + s, y)
  {
    assert ([x] + s)[1..] == s;
    if s != [] && !AscendingReal(x, s[0]) {
      InsertCounts(x, s[1..], y);
      assert ([x] + s[1..])[1..] == s[1..];
      assert ([s[0]] + Insert(x, s[1..], AscendingReal))[1..] == Insert(x, s[1..], AscendingReal);
    }
  }

  lemma {:induction false} SortCounts(values: seq<real>, y: real)
    ensures Below(SortBy(values, AscendingReal), y) == Below(values, y)
    ensures Above(SortBy(values, AscendingReal), y) == Above(values, y)
  {
    if values != [] {
      var rest := SortBy(values[1..], AscendingReal);
      SortCounts(values[1..], y);
      InsertCounts(values[0], rest, y);
      assert ([values[0]] + rest)[1..] == rest;
    }
  }

  lemma {:induction false} NoneCounted(s: seq<real>, y: real)
    ensures (forall i :: 0 <= i < |s| ==> y <= s[i]) ==> Below(s, y) == 0
    ensures (forall i :: 0 <= i < |s| ==> s[i] <= y) ==> Above(s, y) == 0
  {
    if s != [] {
      NoneCounted(s[1..], y);
    }
  }

  lemma {:induction false} CountsBounded(s: seq<real>, y: real)
    ensures Below(s, y) <= |s| && Above(s, y) <= |s|
  {
    if s != [] {
      CountsBounded(s[1..], y);
    }
  }

  lemma {:induction false} CountsAppend(a: seq<real>, b: seq<real>, y: real)
    ensures Below(a + b, y) == Below(a, y) + Below(b, y) && Above(a + b, y) == Above(a, y) + Above(b, y)
  {
    if a == [] {
      assert a + b == b;
    } else {
      assert (a + b)[1..] == a[1..] + b;
      CountsAppend(a[1..], b, y);
    }
  }

  lemma FewBelow(s: seq<real>, k: nat, y: real)
    requires k <= |s| && forall i :: k <= i < |s| ==> y <= s[i]
    ensures Below(s, y) <= k
  {
    assert s == s[..k] + s[k..];
    CountsAppend(s[..k], s[k..], y);
    NoneCounted(s[k..], y);
    CountsBounded(s[..k], y);
  }

  lemma FewAbove(s: seq<real>, k: nat, y: real)
    requires k <= |s| && forall i :: 0 <= i < k ==> s[i] <= y
    ensures Above(s, y) <= |s| - k
  {
    assert s == s[..k] + s[k..];
    CountsAppend(s[..k], s[k..], y);
    NoneCounted(s[..k], y);
    CountsBounded(s[k..], y);
  }

  lemma OrderedRank(s: seq<real>, k: nat)
    requires Ordered(s, AscendingReal) && k < |s|
    ensures AtRank(s, k, s[k])
  {
    forall i | k <= i < |s|
      ensures s[k] <= s[i]
    {
      assert i > k ==> AscendingReal(s[k], s[i]);
    }
    forall i | 0 <= i < k + 1
      ensures s[i] <= s[k]
    {
      assert i < k ==> AscendingReal(s[i], s[k]);
    }
    FewBelow(s, k, s[k]);
    FewAbove(s, k + 1, s[k]);
  }

  lemma SortedRank(values: seq<real>, k: nat)
    requires k < |values|
    ensures |SortBy(values, AscendingReal)| == |values|
    ensures AtRank(values, k, SortBy(values, AscendingReal)[k])
  {
    var sorted := SortBy(values, AscendingReal);
    SortPermutes(values, AscendingReal);
    assert |sorted| == |multiset(sorted)| == |multiset(values)| == |values|;
    SortOrders(values, AscendingReal);
    OrderedRank(sorted, k);
    SortCounts(values, sorted[k]);
    assert sorted[k] in multiset(sorted);
  }

  lemma MedianIsUnique(values: seq<real>, m: real, n: real)
    requires IsMedian(values, m) && IsMedian(values, n)
    ensures m == n
  {
    var half := |values| / 2;
    if |values| % 2 == 1 {
      RankIsUnique(values, half, m, n);
    } else {
      var l, h :| l in values && h in values && l <= h && m == (l + h) / 2.0
          && 2 * Below(values, l) < |values| && 2 * Above(values, l) <= |values|
          && 2 * Below(values, h) <= |values| && 2 * Above(values, h) < |values|;
      var l', h' :| l' in values && h' in values && l' <= h' && n == (l' + h') / 2.0
          && 2 * Below(values, l') < |values| && 2 * Above(values, l') <= |values|
          && 2 * Below(values, h') <= |values| && 2 * Above(values, h') < |values|;
      RankIsUnique(values, half - 1, l, l');
      RankIsUnique(values, half, h, h');
    }
  }

  /** The two middle values of an even number leave nothing strictly between them. */
  lemma {:induction false} NothingBetween(values: seq<real>, low: real, high: real, x: real)
    requires |values| % 2 == 0 && x in values
    requires 2 * Above(values, low) <= |values| && 2 * Below(values, high) <= |values|
    ensures !(low < x < high)
  {
    if low < x < high {
      CountsOverlap(values, low, high, x);
    }
  }

  lemma {:induction false} CountsOverlap(values: seq<real>, low: real, high: real, x: real)
    requires low < x < high && x in values
    ensures |values| < Above(values, low) + Below(values, high)
  {
    CountsCover(values[1..], low, high);
    if values[0] != x {
      CountsOverlap(values[1..], low, high, x);
    }
  }
}
