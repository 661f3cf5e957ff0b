/**
 What the stored freshness and the throttled live time of a store can end as when workers
 finish the observations of one receipt in some order, and exactly when the order does not
 matter.
 */
module ConnectivityOrder {
  import opened Basics
  import opened Observations
  import opened Connectivity

  ghost predicate Reordered<T(!new)>(s: seq<T>, other: seq<T>) { multiset(s) == multiset(other) }

  lemma SameMembers<T(!new)>(s: seq<T>, other: seq<T>)
    requires Reordered(s, other)
    ensures |s| == |other| && forall x :: x in s <==> x in other
  {
    assert |multiset(s)| == |multiset(other)|;
    assert forall x :: x in s <==> x in multiset(s);
    assert forall x :: x in other <==> x in multiset(other);
  }

  // ----- The throttled live time -----

  /** A live observation far enough after the stored live time replaces it. */
  predicate Reaches(t: Option<Time>, o: Observation, flush: nat) {
    !o.isBuffered && (t.None? || o.observedAt - t.value >= flush)
  }

  function LiveFold(t: Option<Time>, os: seq<Observation>, flush: nat): Option<Time>
    decreases |os|
  {
    if os == [] then t
    else LiveFold(if Reaches(t, os[0], flush) then Some(os[0].observedAt) else t, os[1..], flush)
  }

  /** Whatever the receipts are, only live times and the flush distance decide. */
  lemma {:induction false} LiveFolds(c: ConnectivityRow, os: seq<Observation>, w: Windows)
    ensures UpdatedAll(c, os, w).lastLiveEvent == LiveFold(c.lastLiveEvent, os, w.flush)
    decreases |os|
  {
    if os != [] {
      LiveFolds(Updated(c, os[0], w), os[1..], w);
    }
  }

  ghost predicate NoneReach(t: Option<Time>, os: seq<Observation>, flush: nat) {
    forall o :: o in os ==> !Reaches(t, o, flush)
  }

  /** No observation that reaches the flush distance from t would replace this one. */
  ghost predicate Stays(t: Option<Time>, os: seq<Observation>, flush: nat, o: Observation) {
    && Reaches(t, o, flush)
    && forall p :: p in os && Reaches(t, p, flush) ==>
         p.observedAt <= o.observedAt || p.observedAt - o.observedAt < flush
  }

  /** The live times some order ends with, said without an order. */
  ghost predicate LiveEnd(t: Option<Time>, os: seq<Observation>, flush: nat, e: Option<Time>) {
    if NoneReach(t, os, flush) then e == t
    else exists o :: o in os && Stays(t, os, flush, o) && e == Some(o.observedAt)
  }

  lemma {:induction false} FoldLands(t: Option<Time>, os: seq<Observation>, flush: nat)
    ensures LiveEnd(t, os, flush, LiveFold(t, os, flush))
    decreases |os|
  {
    if os != [] {
      var o, rest := os[0], os[1..];
      assert forall p :: p in os <==> p == o || p in rest;
      if Reaches(t, o, flush) {
        var next := Some(o.observedAt);
        FoldLands(next, rest, flush);
        if NoneReach(next, rest, flush) {
          assert o in os && Stays(t, os, flush, o);
        } else {
          var q :| q in rest && Stays(next, rest, flush, q) && LiveFold(next, rest, flush) == Some(q.observedAt);
          assert forall p :: p in rest && p.observedAt - o.observedAt >= flush && Reaches(t, p, flush) ==>
              Reaches(next, p, flush);
          assert q in os && Stays(t, os, flush, q);
        }
      } else {
        FoldLands(t, rest, flush);
        if !NoneReach(t, rest, flush) {
          var q :| q in rest && Stays(t, rest, flush, q) && LiveFold(t, rest, flush) == Some(q.observedAt);
          assert q in os && Stays(t, os, flush, q);
        }
      }
    }
  }

  lemma {:induction false} FoldStays(t: Option<Time>, os: seq<Observation>, flush: nat)
    requires forall o :: o in os && Reaches(t, o, flush) ==> t == Some(o.observedAt)
    ensures LiveFold(t, os, flush) == t
    decreases |os|
  {
    if os != [] {
      assert os[0] in os && forall o :: o in os[1..] ==> o in os;
      FoldStays(t, os[1..], flush);
    }
  }

  lemma {:induction false} FoldAppend(t: Option<Time>, a: seq<Observation>, b: seq<Observation>, flush: nat)
    ensures LiveFold(t, a + b, flush) == LiveFold(LiveFold(t, a, flush), b, flush)
    decreases |a|
  {
    if a == [] {
      assert [] + b == b;
    } else {
      assert (a + b)[1..] == a[1..] + b;
      FoldAppend(if Reaches(t, a[0], flush) then Some(a[0].observedAt) else t, a[1..], b, flush);
    }
  }

  lemma WithFirst<T(!new)>(s: seq<T>, x: T) returns (rest: seq<T>)
    requires x in s
    ensures Reordered(s, [x] + rest)
  {
    var i :| 0 <= i < |s| && s[i] == x;
    rest := s[..i] + s[i + 1..];
    TakenOut(s, i);
    assert multiset([x] + rest) == multiset([x]) + multiset(rest);
  }

  /** Put first, an observation that no other would replace stays. */
  lemma PutFirst(t: Option<Time>, os: seq<Observation>, flush: nat, o: Observation) returns (other: seq<Observation>)
    requires o in os && Stays(t, os, flush, o)
    ensures Reordered(os, other) && LiveFold(t, other, flush) == Some(o.observedAt)
  {
    var rest := WithFirst(os, o);
    other := [o] + rest;
    SameMembers(os, other);
    assert other[1..] == rest && forall p :: p in rest ==> p in os;
    FoldStays(Some(o.observedAt), rest, flush);
  }

  lemma {:induction false} LiveEndReached(t: Option<Time>, os: seq<Observation>, flush: nat, e: Option<Time>)
    returns (other: seq<Observation>)
    requires LiveEnd(t, os, flush, e)
    ensures Reordered(os, other) && LiveFold(t, other, flush) == e
  {
    if NoneReach(t, os, flush) {
      FoldStays(t, os, flush);
      other := os;
    } else {
      var o :| o in os && Stays(t, os, flush, o) && e == Some(o.observedAt);
      other := PutFirst(t, os, flush, o);
    }
  }

  /** Only which observations there are matters to what an order can end with. */
  lemma EndOfReordered(t: Option<Time>, os: seq<Observation>, other: seq<Observation>, flush: nat, e: Option<Time>)
    requires forall o :: o in os && !o.isBuffered <==> o in other && !o.isBuffered
    ensures LiveEnd(t, os, flush, e) ==> LiveEnd(t, other, flush, e)
  {
    assert NoneReach(t, os, flush) <==> NoneReach(t, other, flush);
    if LiveEnd(t, os, flush, e) && !NoneReach(t, os, flush) {
      var o :| o in os && Stays(t, os, flush, o) && e == Some(o.observedAt);
      assert o in other && Stays(t, other, flush, o);
    }
  }

  /** Some order of the observations ends with a live time exactly when it is one of these. */
  lemma LiveEndsExact(c: ConnectivityRow, os: seq<Observation>, w: Windows, e: Option<Time>)
    ensures (exists other :: Reordered(os, other) && UpdatedAll(c, other, w).lastLiveEvent == e)
       <==> LiveEnd(c.lastLiveEvent, os, w.flush, e)
  {
    forall other | Reordered(os, other)
      ensures LiveEnd(c.lastLiveEvent, os, w.flush, UpdatedAll(c, other, w).lastLiveEvent)
    {
      LiveFolds(c, other, w);
      FoldLands(c.lastLiveEvent, other, w.flush);
      SameMembers(os, other);
      EndOfReordered(c.lastLiveEvent, other, os, w.flush, LiveFold(c.lastLiveEvent, other, w.flush));
    }
    if LiveEnd(c.lastLiveEvent, os, w.flush, e) {
      var other := LiveEndReached(c.lastLiveEvent, os, w.flush, e);
      LiveFolds(c, other, w);
      assert Reordered(os, other) && UpdatedAll(c, other, w).lastLiveEvent == e;
    }
  }

  /** The greatest live time that reaches the flush distance. */
  ghost predicate IsNewest(t: Option<Time>, os: seq<Observation>, flush: nat, q: Observation) {
    && q in os && Reaches(t, q, flush)
    && forall p :: p in os && Reaches(t, p, flush) ==> p.observedAt <= q.observedAt
  }

  lemma {:induction false} NewestExists(t: Option<Time>, os: seq<Observation>, flush: nat) returns (q: Observation)
    requires !NoneReach(t, os, flush)
    ensures IsNewest(t, os, flush, q)
    decreases |os|
  {
    var o, rest := os[0], os[1..];
    assert forall p :: p in os <==> p == o || p in rest;
    if NoneReach(t, rest, flush) {
      q := o;
    } else {
      q := NewestExists(t, rest, flush);
      if Reaches(t, o, flush) && o.observedAt > q.observedAt {
        q := o;
      }
    }
  }

  /** Of the live times that reach the flush distance, all but the greatest lie a flush distance below it. */
  ghost predicate ApartFromNewest(t: Option<Time>, os: seq<Observation>, flush: nat) {
    forall p, q :: p in os && Reaches(t, p, flush) && IsNewest(t, os, flush, q) && p.observedAt < q.observedAt ==>
      q.observedAt - p.observedAt >= flush
  }

  ghost predicate LiveTimeIgnoresOrder(c: ConnectivityRow, os: seq<Observation>, w: Windows) {
    forall other :: Reordered(os, other) ==>
      UpdatedAll(c, other, w).lastLiveEvent == UpdatedAll(c, os, w).lastLiveEvent
  }

  lemma EndIsNewest(t: Option<Time>, os: seq<Observation>, flush: nat, q: Observation, e: Option<Time>)
    requires ApartFromNewest(t, os, flush) && IsNewest(t, os, flush, q) && LiveEnd(t, os, flush, e)
    ensures e == Some(q.observedAt)
  {
    assert !NoneReach(t, os, flush);
    var o :| o in os && Stays(t, os, flush, o) && e == Some(o.observedAt);
    assert Reaches(t, q, flush) && Reaches(t, o, flush);
  }

  /** The live time is the same in every order exactly when the newest one stands apart. */
  lemma LiveTimeOrderIff(c: ConnectivityRow, os: seq<Observation>, w: Windows)
    ensures LiveTimeIgnoresOrder(c, os, w) <==> ApartFromNewest(c.lastLiveEvent, os, w.flush)
  {
    var t, flush := c.lastLiveEvent, w.flush;
    assert Reordered(os, os);
    LiveEndsExact(c, os, w, UpdatedAll(c, os, w).lastLiveEvent);
    if ApartFromNewest(t, os, flush) {
      forall other | Reordered(os, other)
        ensures UpdatedAll(c, other, w).lastLiveEvent == UpdatedAll(c, os, w).lastLiveEvent
      {
        LiveEndsExact(c, os, w, UpdatedAll(c, other, w).lastLiveEvent);
        if !NoneReach(t, os, flush) {
          var q := NewestExists(t, os, flush);
          EndIsNewest(t, os, flush, q, UpdatedAll(c, other, w).lastLiveEvent);
          EndIsNewest(t, os, flush, q, UpdatedAll(c, os, w).lastLiveEvent);
        }
      }
    } else {
      var p, q :| p in os && Reaches(t, p, flush) && IsNewest(t, os, flush, q) && p.observedAt < q.observedAt
          && q.observedAt - p.observedAt < flush;
      assert Stays(t, os, flush, p) && Stays(t, os, flush, q) && !NoneReach(t, os, flush);
      LiveEndsExact(c, os, w, Some(p.observedAt));
      LiveEndsExact(c, os, w, Some(q.observedAt));
    }
  }

  // ----- The stored freshness -----

  /** What a live observation of a drained receipt stores when it leaves this live time. */
  function Computed(c: ConnectivityRow, r: Receipt, e: Option<Time>, w: Windows): Freshness {
    EffectiveFreshness(
      c.(heartbeat := LaterOf(c.heartbeat, r.receivedAt), backlogDrained := true,
         readerCoverageOk := r.readerCoverageOk, oldestBuffered := None, lastLiveEvent := e),
      w, r.receivedAt)
  }

  /** What a receipt without a live observation, or with a backlog, stores. */
  function Carried(c: ConnectivityRow, r: Receipt): Freshness {
    if r.backlogDrained && r.readerCoverageOk && ReachedBy(c.lastLiveReceived, r.receivedAt) then c.freshness else Stale
  }

  /**
   The stored freshness after one order: the last live computation, unless coverage is bad and a
   buffered one follows.
   */
  function FreshnessAfter(c: ConnectivityRow, r: Receipt, os: seq<Observation>, w: Windows): Freshness
    requires os != []
  {
    if !r.backlogDrained || !HasLive(os) then Carried(c, r)
    else if r.readerCoverageOk || !os[|os| - 1].isBuffered then
      Computed(c, r, LiveFold(c.lastLiveEvent, os, w.flush), w)
    else Stale
  }

  lemma OneFreshness(c: ConnectivityRow, r: Receipt, o: Observation, w: Windows)
    requires ReceiptOf(o) == r && c.statusReceivedAt <= r.receivedAt
    ensures Updated(c, o, w).freshness == FreshnessAfter(c, r, [o], w)
  {
    assert HasLive([o]) <==> !o.isBuffered by {
      assert o in [o];
    }
    assert [o][1..] == [];
    assert LiveFold(c.lastLiveEvent, [o], w.flush) == Updated(c, o, w).lastLiveEvent;
  }

  /** One observation of a current receipt leaves the same to be computed by the rest. */
  lemma FreshnessSteps(c: ConnectivityRow, r: Receipt, os: seq<Observation>, w: Windows)
    requires |os| > 1 && (forall o :: o in os ==> ReceiptOf(o) == r)
    requires c.statusReceivedAt <= r.receivedAt
    ensures FreshnessAfter(Updated(c, os[0], w), r, os[1..], w) == FreshnessAfter(c, r, os, w)
  {
    var next := Updated(c, os[0], w);
    assert os[0] in os;
    SplitFirst(os);
    assert os[1..][|os[1..]| - 1] == os[|os| - 1];
    assert next.lastLiveEvent == if Reaches(c.lastLiveEvent, os[0], w.flush) then Some(os[0].observedAt)
        else c.lastLiveEvent;
    assert LiveFold(next.lastLiveEvent, os[1..], w.flush) == LiveFold(c.lastLiveEvent, os, w.flush);
    if !HasLive(os[1..]) {
      FoldStays(next.lastLiveEvent, os[1..], w.flush);
      assert os[|os| - 1] in os[1..];
    }
  }

  lemma {:induction false} FreshnessFolds(c: ConnectivityRow, r: Receipt, os: seq<Observation>, w: Windows)
    requires os != [] && (forall o :: o in os ==> ReceiptOf(o) == r)
    requires c.statusReceivedAt <= r.receivedAt
    ensures UpdatedAll(c, os, w).freshness == FreshnessAfter(c, r, os, w)
    decreases |os|
  {
    var next := Updated(c, os[0], w);
    assert os[0] in os;
    if |os| == 1 {
      assert os == [os[0]] && UpdatedAll(next, os[1..], w) == next;
      OneFreshness(c, r, os[0], w);
    } else {
      assert forall o :: o in os[1..] ==> o in os;
      FreshnessSteps(c, r, os, w);
      FreshnessFolds(next, r, os[1..], w);
    }
  }

  /** The freshness values some order of a current receipt ends with, said without an order. */
  ghost predicate FreshnessEnd(c: ConnectivityRow, r: Receipt, os: seq<Observation>, w: Windows, f: Freshness) {
    if !r.backlogDrained || !HasLive(os) then f == Carried(c, r)
    else
      || (exists e :: LiveEnd(c.lastLiveEvent, os, w.flush, e) && f == Computed(c, r, e, w))
      || (!r.readerCoverageOk && HasBuffered(os) && f == Stale)
  }

  function Only(os: seq<Observation>, buffered: bool): seq<Observation> {
    if os == [] then []
    else (if os[0].isBuffered == buffered then [os[0]] else []) + Only(os[1..], buffered)
  }

  lemma {:induction false} OnlyMembers(os: seq<Observation>, b: bool)
    ensures forall o :: o in Only(os, b) <==> o in os && o.isBuffered == b
  {
    if os != [] {
      OnlyMembers(os[1..], b);
      assert forall o :: o in os <==> o == os[0] || o in os[1..];
    }
  }

  lemma {:induction false} OnlyParts(os: seq<Observation>)
    ensures multiset(Only(os, true)) + multiset(Only(os, false)) == multiset(os)
  {
    if os != [] {
      OnlyParts(os[1..]);
      assert os == [os[0]] + os[1..];
      assert multiset(os) == multiset([os[0]]) + multiset(os[1..]);
      var kept, same := Only(os[1..], os[0].isBuffered), Only(os[1..], !os[0].isBuffered);
      assert Only(os, os[0].isBuffered) == [os[0]] + kept;
      assert Only(os, !os[0].isBuffered) == same by {
        assert [] + same == same;
      }
      assert multiset([os[0]] + kept) == multiset([os[0]]) + multiset(kept);
    }
  }

  /** Any live time that can be the last one can be so with the buffered observations all before or all after. */
  lemma BufferedAside(c: ConnectivityRow, os: seq<Observation>, w: Windows, e: Option<Time>, after: bool)
    returns (other: seq<Observation>)
    requires HasLive(os) && LiveEnd(c.lastLiveEvent, os, w.flush, e)
    ensures Reordered(os, other) && LiveFold(c.lastLiveEvent, other, w.flush) == e && other != []
    ensures other[|other| - 1].isBuffered <==> after && HasBuffered(os)
  {
    var lives, buffered := Only(os, false), Only(os, true);
    OnlyParts(os);
    OnlyMembers(os, true);
    OnlyMembers(os, false);
    EndOfReordered(c.lastLiveEvent, os, lives, w.flush, e);
    var ordered := LiveEndReached(c.lastLiveEvent, lives, w.flush, e);
    SameMembers(lives, ordered);
    other := if after then ordered + buffered else buffered + ordered;
    FoldAppend(c.lastLiveEvent, ordered, buffered, w.flush);
    FoldAppend(c.lastLiveEvent, buffered, ordered, w.flush);
    FoldStays(c.lastLiveEvent, buffered, w.flush);
    FoldStays(e, buffered, w.flush);
    LastKind(os, ordered, buffered);
  }

  lemma LastKind(os: seq<Observation>, lives: seq<Observation>, buffered: seq<Observation>)
    requires HasLive(os)
    requires forall o :: o in lives <==> o in os && !o.isBuffered
    requires forall o :: o in buffered <==> o in os && o.isBuffered
    ensures lives != [] && !(buffered + lives)[|buffered + lives| - 1].isBuffered
    ensures (lives + buffered)[|lives + buffered| - 1].isBuffered <==> HasBuffered(os)
  {
    assert lives[|lives| - 1] in lives;
    if buffered != [] {
      assert buffered[|buffered| - 1] in buffered;
    }
  }

  /** Some order of a current receipt stores a freshness exactly when it is one of these. */
  lemma FreshnessEndsExact(c: ConnectivityRow, r: Receipt, os: seq<Observation>, w: Windows, f: Freshness)
    requires os != [] && (forall o :: o in os ==> ReceiptOf(o) == r)
    requires c.statusReceivedAt <= r.receivedAt
    ensures (exists other :: Reordered(os, other) && UpdatedAll(c, other, w).freshness == f)
       <==> FreshnessEnd(c, r, os, w, f)
  {
    forall other | Reordered(os, other)
      ensures FreshnessEnd(c, r, os, w, UpdatedAll(c, other, w).freshness)
    {
      SameMembers(os, other);
      FreshnessFolds(c, r, other, w);
      FoldLands(c.lastLiveEvent, other, w.flush);
      EndOfReordered(c.lastLiveEvent, other, os, w.flush, LiveFold(c.lastLiveEvent, other, w.flush));
      assert other[|other| - 1] in os;
    }
    if FreshnessEnd(c, r, os, w, f) {
      var other := FreshnessReached(c, r, os, w, f);
      assert Reordered(os, other) && UpdatedAll(c, other, w).freshness == f;
    }
  }

  lemma FreshnessReached(c: ConnectivityRow, r: Receipt, os: seq<Observation>, w: Windows, f: Freshness)
    returns (other: seq<Observation>)
    requires os != [] && (forall o :: o in os ==> ReceiptOf(o) == r)
    requires c.statusReceivedAt <= r.receivedAt && FreshnessEnd(c, r, os, w, f)
    ensures Reordered(os, other) && UpdatedAll(c, other, w).freshness == f
  {
    other := os;
    if r.backlogDrained && HasLive(os) {
      FoldLands(c.lastLiveEvent, os, w.flush);
      if e :| LiveEnd(c.lastLiveEvent, os, w.flush, e) && f == Computed(c, r, e, w) {
        other := BufferedAside(c, os, w, e, false);
      } else {
        other := BufferedAside(c, os, w, LiveFold(c.lastLiveEvent, os, w.flush), true);
      }
    }
    SameMembers(os, other);
    FreshnessFolds(c, r, other, w);
  }

  ghost predicate FreshnessIgnoresOrder(c: ConnectivityRow, os: seq<Observation>, w: Windows) {
    forall other :: Reordered(os, other) ==> UpdatedAll(c, other, w).freshness == UpdatedAll(c, os, w).freshness
  }

  /**
   All live times that some order ends with compute the same freshness, and where a buffered
   observation may come last and store stale, that freshness is stale as well.
   */
  ghost predicate OneComputation(c: ConnectivityRow, r: Receipt, os: seq<Observation>, w: Windows) {
    && (forall d, e :: LiveEnd(c.lastLiveEvent, os, w.flush, d) && LiveEnd(c.lastLiveEvent, os, w.flush, e) ==>
          Computed(c, r, d, w) == Computed(c, r, e, w))
    && (!r.readerCoverageOk && HasBuffered(os) ==>
          forall e :: LiveEnd(c.lastLiveEvent, os, w.flush, e) ==> Computed(c, r, e, w) == Stale)
  }

  /** The stored freshness of a current receipt is the same in every order exactly under this condition. */
  lemma FreshnessOrderIff(c: ConnectivityRow, r: Receipt, os: seq<Observation>, w: Windows)
    requires os != [] && (forall o :: o in os ==> ReceiptOf(o) == r)
    requires c.statusReceivedAt <= r.receivedAt
    ensures FreshnessIgnoresOrder(c, os, w) <==> (r.backlogDrained && HasLive(os) ==> OneComputation(c, r, os, w))
  {
    var stored := UpdatedAll(c, os, w).freshness;
    assert Reordered(os, os);
    FreshnessEndsExact(c, r, os, w, stored);
    if FreshnessIgnoresOrder(c, os, w) {
      forall f | FreshnessEnd(c, r, os, w, f)
        ensures f == stored
      {
        var other := FreshnessReached(c, r, os, w, f);
      }
    }
    forall other | Reordered(os, other)
      ensures FreshnessEnd(c, r, os, w, UpdatedAll(c, other, w).freshness)
    {
      FreshnessEndsExact(c, r, os, w, UpdatedAll(c, other, w).freshness);
    }
    assert FreshnessIgnoresOrder(c, os, w) <==> forall f :: FreshnessEnd(c, r, os, w, f) ==> f == stored;
    FoldLands(c.lastLiveEvent, os, w.flush);
    if r.backlogDrained && HasLive(os) {
      EndsAgree(c, r, os, w, stored);
    }
  }

  lemma EndsAgree(c: ConnectivityRow, r: Receipt, os: seq<Observation>, w: Windows, stored: Freshness)
    requires r.backlogDrained && HasLive(os) && FreshnessEnd(c, r, os, w, stored)
    ensures (forall f :: FreshnessEnd(c, r, os, w, f) ==> f == stored) <==> OneComputation(c, r, os, w)
  {
    var last := LiveFold(c.lastLiveEvent, os, w.flush);
    FoldLands(c.lastLiveEvent, os, w.flush);
    if forall f :: FreshnessEnd(c, r, os, w, f) ==> f == stored {
      assert FreshnessEnd(c, r, os, w, Computed(c, r, last, w));
      assert !r.readerCoverageOk && HasBuffered(os) ==> FreshnessEnd(c, r, os, w, Stale);
      forall e | LiveEnd(c.lastLiveEvent, os, w.flush, e)
        ensures Computed(c, r, e, w) == stored
      {
        assert FreshnessEnd(c, r, os, w, Computed(c, r, e, w));
      }
    }
  }
}
