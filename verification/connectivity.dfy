/**
 Store connectivity: what the newest gateway receipt says about backlog and coverage, and
 how live and buffered observations update it. Ingress and workers touch the row in any
 order, so results must not depend on the order within a receipt, nor on late workers.
 */
module Connectivity {
  import opened Basics
  import opened Observations

  datatype Freshness = Stale | Degraded | Live

  datatype ConnectivityRow = ConnectivityRow(
    heartbeat: Option<Time>,
    statusReceivedAt: Time,
    backlogDrained: bool,
    readerCoverageOk: bool,
    oldestBuffered: Option<Time>,
    lastLiveReceived: Option<Time>,
    lastLiveEvent: Option<Time>,
    reconciliationRequired: Option<Time>,
    freshness: Freshness)

  datatype Windows = Windows(stale: nat, live: nat, flush: nat)

  datatype Receipt = Receipt(receivedAt: Time, backlogDrained: bool, readerCoverageOk: bool)

  function ReceiptOf(o: Observation): Receipt {
    Receipt(o.receivedAt, o.backlogDrained, o.readerCoverageOk)
  }

  function FirstRow(r: Receipt): ConnectivityRow {
    ConnectivityRow(Some(r.receivedAt), r.receivedAt, r.backlogDrained, r.readerCoverageOk, None, None, None, None,
        Stale)
  }

  // ----- Freshness derived at read time -----

  function Age(now: Time, t: Time): nat { if now < t then 0 else now - t }

  function EffectiveFreshness(c: ConnectivityRow, w: Windows, now: Time): Freshness {
    if c.heartbeat.None? || c.lastLiveEvent.None? || !c.backlogDrained || c.oldestBuffered.Some? then Stale
    else
      var heartbeatAge := Age(now, c.heartbeat.value);
      var liveAge := Age(now, c.lastLiveEvent.value);
      if heartbeatAge > w.stale || liveAge > w.stale then Stale
      else if c.reconciliationRequired.Some? then Degraded
      else if c.readerCoverageOk && heartbeatAge <= w.live && liveAge <= w.live then Live
      else Degraded
  }

  predicate Recent(t: Option<Time>, now: Time, within: nat) { t.Some? && now <= t.value + within }

  /** Nothing buffered is outstanding. */
  predicate CaughtUp(c: ConnectivityRow) { c.backlogDrained && c.oldestBuffered.None? }

  /**
   A store is live exactly when it is caught up, covered by readers and without open
   reconciliation, and both heartbeat and live event are within the live window; it is stale
   exactly when it is not caught up or one of them is beyond the stale window.
   */
  lemma FreshnessIff(c: ConnectivityRow, w: Windows, now: Time)
    requires w.live <= w.stale
    ensures EffectiveFreshness(c, w, now) == Live <==>
            && CaughtUp(c) && c.readerCoverageOk && c.reconciliationRequired.None?
            && Recent(c.heartbeat, now, w.live) && Recent(c.lastLiveEvent, now, w.live)
    ensures EffectiveFreshness(c, w, now) == Stale <==>
            !(CaughtUp(c) && Recent(c.heartbeat, now, w.stale) && Recent(c.lastLiveEvent, now, w.stale))
  {
  }

  function Rank(f: Freshness): nat {
    match f
    case Stale => 0
    case Degraded => 1
    case Live => 2
  }

  /** Without an update, freshness only falls as time passes, and in the end the store is stale. */
  lemma FreshnessFalls(c: ConnectivityRow, w: Windows, now: Time, later: Time)
    requires w.live <= w.stale && now <= later
    ensures Rank(EffectiveFreshness(c, w, later)) <= Rank(EffectiveFreshness(c, w, now))
    ensures c.heartbeat.Some? && c.heartbeat.value + w.stale < later ==> EffectiveFreshness(c, w, later) == Stale
  {
    FreshnessIff(c, w, now);
    FreshnessIff(c, w, later);
  }

  // ----- The two updates -----

  function Locked(existing: Option<ConnectivityRow>, r: Receipt): (ConnectivityRow, bool) {
    var c := if existing.None? then FirstRow(r) else existing.value;
    var c := if c.heartbeat.None? || r.receivedAt > c.heartbeat.value then c.(heartbeat := Some(r.receivedAt)) else c;
    if r.receivedAt >= c.statusReceivedAt then
      (c.(statusReceivedAt := r.receivedAt, backlogDrained := r.backlogDrained, readerCoverageOk := r.readerCoverageOk,
          freshness := if !r.backlogDrained || !r.readerCoverageOk then Stale else c.freshness), true)
    else (c, false)
  }

  predicate ReachedBy(t: Option<Time>, at: Time) { t.Some? && t.value >= at }

  function EarlierOf(t: Option<Time>, at: Time): Option<Time> {
    if t.None? || at < t.value then Some(at) else t
  }

  function LaterOf(t: Option<Time>, at: Time): Option<Time> {
    if t.None? || at > t.value then Some(at) else t
  }

  function Applied(c: ConnectivityRow, o: Observation, w: Windows, current: bool): ConnectivityRow {
    if o.isBuffered then
      if current && !(o.backlogDrained && ReachedBy(c.lastLiveReceived, o.receivedAt)) then
        c.(oldestBuffered := EarlierOf(c.oldestBuffered, o.observedAt), backlogDrained := false, freshness := Stale)
      else c
    else
      var c := c.(
        lastLiveReceived := LaterOf(c.lastLiveReceived, o.receivedAt),
        lastLiveEvent :=
          if c.lastLiveEvent.None? || o.observedAt - c.lastLiveEvent.value >= w.flush then Some(o.observedAt)
          else c.lastLiveEvent);
      if !current then c
      else
        var c := if o.backlogDrained then c.(oldestBuffered := None) else c;
        c.(freshness := EffectiveFreshness(c, w, o.receivedAt))
  }

  function Updated(c: ConnectivityRow, o: Observation, w: Windows): ConnectivityRow {
    var (locked, current) := Locked(Some(c), ReceiptOf(o));
    Applied(locked, o, w, current)
  }

  function UpdatedAll(c: ConnectivityRow, os: seq<Observation>, w: Windows): ConnectivityRow
    decreases |os|
  {
    if os == [] then c else UpdatedAll(Updated(c, os[0], w), os[1..], w)
  }

  // ----- One receipt, in any order -----

  predicate HasLive(os: seq<Observation>) { exists o :: o in os && !o.isBuffered }

  predicate HasBuffered(os: seq<Observation>) { exists o :: o in os && o.isBuffered }

  function OldestOf(oldest: Option<Time>, os: seq<Observation>): Option<Time> {
    if os == [] then oldest
    else
      var rest := OldestOf(oldest, os[1..]);
      if os[0].isBuffered then EarlierOf(rest, os[0].observedAt) else rest
  }

  datatype Outlook = Outlook(backlogDrained: bool, oldestBuffered: Option<Time>, lastLiveReceived: Option<Time>)

  function OutlookOf(c: ConnectivityRow): Outlook {
    Outlook(c.backlogDrained, c.oldestBuffered, c.lastLiveReceived)
  }

  /** What a whole receipt amounts to, said without an order. */
  function ReceiptOutlook(c: ConnectivityRow, r: Receipt, os: seq<Observation>): Outlook {
    var resumed := HasLive(os) || ReachedBy(c.lastLiveReceived, r.receivedAt);
    Outlook(
      r.backlogDrained && (resumed || !HasBuffered(os)),
      if !r.backlogDrained then OldestOf(c.oldestBuffered, os)
      else if HasLive(os) then None
      else if ReachedBy(c.lastLiveReceived, r.receivedAt) then c.oldestBuffered
      else OldestOf(c.oldestBuffered, os),
      if HasLive(os) then LaterOf(c.lastLiveReceived, r.receivedAt) else c.lastLiveReceived)
  }

  lemma {:induction false} OldestShifts(t: Option<Time>, at: Time, os: seq<Observation>)
    ensures OldestOf(EarlierOf(t, at), os) == EarlierOf(OldestOf(t, os), at)
  {
    if os != [] {
      OldestShifts(t, at, os[1..]);
    }
  }

  lemma SplitFirst(os: seq<Observation>)
    requires os != []
    ensures HasLive(os) <==> !os[0].isBuffered || HasLive(os[1..])
    ensures HasBuffered(os) <==> os[0].isBuffered || HasBuffered(os[1..])
  {
    assert forall o :: o in os <==> o == os[0] || o in os[1..];
  }

  /** One observation of a current receipt leaves the same outlook to the rest. */
  lemma OutlookSteps(c: ConnectivityRow, r: Receipt, os: seq<Observation>, w: Windows)
    requires |os| > 1 && (forall o :: o in os ==> ReceiptOf(o) == r)
    requires c.statusReceivedAt <= r.receivedAt
    ensures ReceiptOutlook(Updated(c, os[0], w), r, os[1..]) == ReceiptOutlook(c, r, os)
  {
    assert os[0] in os;
    SplitFirst(os);
    OldestShifts(c.oldestBuffered, os[0].observedAt, os[1..]);
    SplitEither(os[1..]);
  }

  /** Folding the observations of a current receipt one by one gives the order-free outlook. */
  lemma {:induction false} ReceiptFolds(c: ConnectivityRow, r: Receipt, os: seq<Observation>, w: Windows)
    requires os != [] && (forall o :: o in os ==> ReceiptOf(o) == r)
    requires c.statusReceivedAt <= r.receivedAt
    ensures
      var last := UpdatedAll(c, os, w);
      && OutlookOf(last) == ReceiptOutlook(c, r, os)
      && last.statusReceivedAt == r.receivedAt && last.readerCoverageOk == r.readerCoverageOk
    decreases |os|
  {
    var next := Updated(c, os[0], w);
    SplitFirst(os);
    assert os[0] in os;
    if |os| == 1 {
      assert os[1..] == [] && !HasLive(os[1..]) && !HasBuffered(os[1..]);
      assert UpdatedAll(next, os[1..], w) == next;
      assert OldestOf(c.oldestBuffered, os[1..]) == c.oldestBuffered;
    } else {
      assert forall o :: o in os[1..] ==> o in os;
      OutlookSteps(c, r, os, w);
      ReceiptFolds(next, r, os[1..], w);
    }
  }

  lemma SplitEither(os: seq<Observation>)
    requires os != []
    ensures HasLive(os) || HasBuffered(os)
  {
    assert os[0] in os;
  }

  lemma TakenOut<T>(s: seq<T>, i: nat)
    requires i < |s|
    ensures multiset(s[..i] + s[i + 1..]) == multiset(s) - multiset{s[i]}
  {
    assert s == s[..i] + [s[i]] + s[i + 1..];
  }

  lemma WithoutFirst<T>(s: seq<T>)
    requires s != []
    ensures multiset(s[1..]) == multiset(s) - multiset{s[0]}
  {
    assert s == [s[0]] + s[1..];
  }

  lemma SameFirst<T>(s: seq<T>, other: seq<T>) returns (i: nat)
    requires s != [] && multiset(s) == multiset(other)
    ensures i < |other| && other[i] == s[0]
    ensures multiset(other[..i] + other[i + 1..]) == multiset(s[1..])
  {
    var first := s[0];
    assert first in multiset(other);
    i :| 0 <= i < |other| && other[i] == first;
    WithoutFirst(s);
    TakenOut(other, i);
  }

  lemma {:induction false} OldestIgnoresOrder(t: Option<Time>, os: seq<Observation>, other: seq<Observation>)
    requires multiset(os) == multiset(other)
    ensures OldestOf(t, os) == OldestOf(t, other)
    decreases |os|
  {
    if os == [] {
      assert |other| == |multiset(other)| == |multiset(os)| == 0;
    } else {
      var i := SameFirst(os, other);
      OldestIgnoresOrder(t, os[1..], other[..i] + other[i + 1..]);
      OldestTakes(t, other, i);
    }
  }

  lemma {:induction false} OldestTakes(t: Option<Time>, os: seq<Observation>, i: nat)
    requires i < |os|
    ensures
      var rest := OldestOf(t, os[..i] + os[i + 1..]);
      OldestOf(t, os) == if os[i].isBuffered then EarlierOf(rest, os[i].observedAt) else rest
  {
    if i == 0 {
      assert os[..0] + os[1..] == os[1..];
    } else {
      var rest := os[..i] + os[i + 1..];
      assert rest[1..] == os[1..][..i - 1] + os[1..][i..];
      OldestTakes(t, os[1..], i - 1);
    }
  }

  /**
   Workers may finish the observations of one receipt in any order: backlog, oldest
   buffered time, last live receipt, coverage and status time come out the same.
   */
  lemma ReceiptIgnoresOrder(c: ConnectivityRow, r: Receipt, os: seq<Observation>, other: seq<Observation>, w: Windows)
    requires multiset(os) == multiset(other) && (forall o :: o in os ==> ReceiptOf(o) == r)
    requires c.statusReceivedAt <= r.receivedAt
    ensures
      var (a, b) := (UpdatedAll(c, os, w), UpdatedAll(c, other, w));
      OutlookOf(a) == OutlookOf(b) && a.statusReceivedAt == b.statusReceivedAt
          && a.readerCoverageOk == b.readerCoverageOk
  {
    assert |os| == |multiset(os)| == |multiset(other)| == |other|;
    assert forall o :: o in os <==> o in multiset(os);
    assert forall o :: o in other <==> o in multiset(other);
    if os != [] {
      ReceiptFolds(c, r, os, w);
      ReceiptFolds(c, r, other, w);
      OldestIgnoresOrder(c.oldestBuffered, os, other);
    }
  }

  // ----- What updates amount to, by the times they carry -----

  /** The latest of a time, if there is one, and some others. */
  ghost predicate IsLatestOf(t: Option<Time>, before: Option<Time>, times: set<Time>) {
    && (t.None? ==> before.None? && times == {})
    && (t.Some? ==>
          && (before == t || t.value in times)
          && (before.Some? ==> before.value <= t.value) && forall u :: u in times ==> u <= t.value)
  }

  /** The earliest of a time, if there is one, and some others. */
  ghost predicate IsEarliestOf(t: Option<Time>, before: Option<Time>, times: set<Time>) {
    && (t.None? ==> before.None? && times == {})
    && (t.Some? ==>
          && (before == t || t.value in times)
          && (before.Some? ==> t.value <= before.value) && forall u :: u in times ==> t.value <= u)
  }

  function ReceiptTimes(os: seq<Observation>): set<Time> {
    set o | o in os :: o.receivedAt
  }

  function LiveReceiptTimes(os: seq<Observation>): set<Time> {
    set o | o in os && !o.isBuffered :: o.receivedAt
  }

  function BufferedTimes(os: seq<Observation>): set<Time> {
    set o | o in os && o.isBuffered :: o.observedAt
  }

  lemma FirstTimes(os: seq<Observation>)
    requires os != []
    ensures ReceiptTimes(os) == {os[0].receivedAt} + ReceiptTimes(os[1..])
    ensures LiveReceiptTimes(os) == (if os[0].isBuffered then {} else {os[0].receivedAt}) + LiveReceiptTimes(os[1..])
    ensures BufferedTimes(os) == (if os[0].isBuffered then {os[0].observedAt} else {}) + BufferedTimes(os[1..])
  {
    assert forall o :: o in os <==> o == os[0] || o in os[1..];
  }

  lemma LatestSteps(t: Option<Time>, before: Option<Time>, at: Time, times: set<Time>)
    requires IsLatestOf(t, LaterOf(before, at), times)
    ensures IsLatestOf(t, before, {at} + times)
  {
  }

  lemma UpdatedTimes(c: ConnectivityRow, o: Observation, w: Windows)
    ensures
      var next := Updated(c, o, w);
      && next.heartbeat == LaterOf(c.heartbeat, o.receivedAt)
      && next.lastLiveReceived == (if o.isBuffered then c.lastLiveReceived
          else LaterOf(c.lastLiveReceived, o.receivedAt))
      && next.reconciliationRequired == c.reconciliationRequired
  {
  }

  /** Heartbeat and last live receipt are the latest there were, whatever the receipts and the order. */
  lemma {:induction false} LatestUpdates(c: ConnectivityRow, os: seq<Observation>, w: Windows)
    ensures
      var last := UpdatedAll(c, os, w);
      && IsLatestOf(last.heartbeat, c.heartbeat, ReceiptTimes(os))
      && IsLatestOf(last.lastLiveReceived, c.lastLiveReceived, LiveReceiptTimes(os))
      && last.reconciliationRequired == c.reconciliationRequired
    decreases |os|
  {
    if os != [] {
      var last := UpdatedAll(c, os, w);
      FirstTimes(os);
      UpdatedTimes(c, os[0], w);
      LatestUpdates(Updated(c, os[0], w), os[1..], w);
      LatestSteps(last.heartbeat, c.heartbeat, os[0].receivedAt, ReceiptTimes(os[1..]));
      if !os[0].isBuffered {
        LatestSteps(last.lastLiveReceived, c.lastLiveReceived, os[0].receivedAt, LiveReceiptTimes(os[1..]));
      }
    }
  }

  /** A store starts stale, and stays so until a live event is known. */
  lemma NewStoreIsStale(r: Receipt, w: Windows, now: Time)
    ensures
      var (c, current) := Locked(None, r);
      && current && c.heartbeat == Some(r.receivedAt) && c.lastLiveEvent == None && c.reconciliationRequired == None
      && c.freshness == Stale && EffectiveFreshness(c, w, now) == Stale
  {
  }

  /** A receipt moves status only when no newer one has; bad news makes the stored freshness stale at once. */
  lemma LockOutcome(c: ConnectivityRow, r: Receipt)
    ensures
      var (next, current) := Locked(Some(c), r);
      && (current <==> c.statusReceivedAt <= r.receivedAt)
      && IsLatestOf(next.heartbeat, c.heartbeat, {r.receivedAt})
      && next.oldestBuffered == c.oldestBuffered && next.lastLiveReceived == c.lastLiveReceived
      && next.lastLiveEvent == c.lastLiveEvent && next.reconciliationRequired == c.reconciliationRequired
      && next.statusReceivedAt == (if current then r.receivedAt else c.statusReceivedAt)
      && next.backlogDrained == (if current then r.backlogDrained else c.backlogDrained)
      && next.readerCoverageOk == (if current then r.readerCoverageOk else c.readerCoverageOk)
      && next.freshness == (if current && !(r.backlogDrained && r.readerCoverageOk) then Stale else c.freshness)
  {
  }

  lemma {:induction false} OldestIsEarliest(t: Option<Time>, os: seq<Observation>)
    ensures IsEarliestOf(OldestOf(t, os), t, BufferedTimes(os))
  {
    if os != [] {
      FirstTimes(os);
      OldestIsEarliest(t, os[1..]);
    }
  }

  /**
   After all observations of a current receipt, in any order, the backlog is drained exactly when
   the receipt says so and live reads have resumed or nothing was buffered; the oldest buffered
   time is forgotten when live reads drain the backlog, and otherwise the earliest there was.
   */
  lemma ReceiptLeaves(c: ConnectivityRow, r: Receipt, os: seq<Observation>, w: Windows)
    requires os != [] && (forall o :: o in os ==> ReceiptOf(o) == r)
    requires c.statusReceivedAt <= r.receivedAt
    ensures
      var last := UpdatedAll(c, os, w);
      var live := exists o :: o in os && !o.isBuffered;
      var resumed := live || (c.lastLiveReceived.Some? && r.receivedAt <= c.lastLiveReceived.value);
      && (last.backlogDrained <==> r.backlogDrained && (resumed || forall o :: o in os ==> !o.isBuffered))
      && (if r.backlogDrained && live then last.oldestBuffered == None
          else if r.backlogDrained && resumed then last.oldestBuffered == c.oldestBuffered
          else IsEarliestOf(last.oldestBuffered, c.oldestBuffered, BufferedTimes(os)))
      && last.statusReceivedAt == r.receivedAt && last.readerCoverageOk == r.readerCoverageOk
  {
    ReceiptFolds(c, r, os, w);
    OldestIsEarliest(c.oldestBuffered, os);
  }

  lemma TwoUpdates(c: ConnectivityRow, a: Observation, b: Observation, w: Windows)
    ensures UpdatedAll(c, [a, b], w) == Updated(Updated(c, a, w), b, w)
  {
    assert [a, b][1..] == [b] && [b][1..] == [];
    assert UpdatedAll(Updated(c, a, w), [b], w) == UpdatedAll(Updated(Updated(c, a, w), b, w), [], w);
  }

  /** What the settings allow. */
  predicate ValidWindows(w: Windows) {
    10 <= w.live <= 3600 && 30 <= w.stale <= 86400 && w.live < w.stale && 1 <= w.flush <= 3600
  }

  /** What ingress makes of a read: buffered when it is over a minute late, healthy when readers have coverage. */
  predicate Ingested(o: Observation) {
    && (o.isBuffered <==> o.receivedAt - o.observedAt > 60)
    && o.readerHealth == (if o.readerCoverageOk then 1.0 else 0.0)
  }

  /** Two observations of a current receipt whose order decides the stored freshness. */
  ghost predicate OrderMatters(c: ConnectivityRow, a: Observation, b: Observation, w: Windows) {
    && ValidWindows(w) && Ingested(a) && Ingested(b) && a.eventId != b.eventId
    && ReceiptOf(a) == ReceiptOf(b) && c.statusReceivedAt <= a.receivedAt
    && UpdatedAll(c, [a, b], w).freshness != UpdatedAll(c, [b, a], w).freshness
  }

  ghost predicate LiveTimesAgree(c: ConnectivityRow, a: Observation, b: Observation, w: Windows) {
    UpdatedAll(c, [a, b], w).lastLiveEvent == UpdatedAll(c, [b, a], w).lastLiveEvent
  }

  /**
   The stored freshness and the throttled live time do depend on that order: two live
   observations, and, when readers lack coverage, a live and a buffered one.
   */
  lemma StoredFreshnessDependsOnOrder()
    ensures exists c, a, b, w :: OrderMatters(c, a, b, w) && !LiveTimesAgree(c, a, b, w)
    ensures exists c, a, b, w :: OrderMatters(c, a, b, w) && LiveTimesAgree(c, a, b, w)
  {
    TwoLivesDisagree();
    BufferedLastDisagrees();
  }

  lemma TwoLivesDisagree()
    ensures exists c, a, b, w :: OrderMatters(c, a, b, w) && !LiveTimesAgree(c, a, b, w)
  {
    var c := FirstRow(Receipt(100, true, true));
    var w := Windows(30, 10, 60);
    var a := Observation(1, 1, 1, Location(1, 1), 1, 100, 100, 0.0, None, 1.0, false, true, true, None);
    var b := a.(eventId := 2, observedAt := 50);
    TwoUpdates(c, a, b, w);
    TwoUpdates(c, b, a, w);
    var ab, ba := UpdatedAll(c, [a, b], w), UpdatedAll(c, [b, a], w);
    assert ab.lastLiveEvent == Some(100) && ba.lastLiveEvent == Some(50);
    assert ab.freshness == Live && ba.freshness == Stale;
    assert OrderMatters(c, a, b, w) && !LiveTimesAgree(c, a, b, w);
  }

  lemma BufferedLastDisagrees()
    ensures exists c, a, b, w :: OrderMatters(c, a, b, w) && LiveTimesAgree(c, a, b, w)
  {
    var c := FirstRow(Receipt(100, true, false));
    var w := Windows(30, 10, 60);
    var a := Observation(1, 1, 1, Location(1, 1), 1, 100, 100, 0.0, None, 0.0, false, true, false, None);
    var b := a.(eventId := 2, observedAt := 30, isBuffered := true);
    TwoUpdates(c, a, b, w);
    TwoUpdates(c, b, a, w);
    var ab, ba := UpdatedAll(c, [a, b], w), UpdatedAll(c, [b, a], w);
    assert ab.lastLiveEvent == Some(100) && ba.lastLiveEvent == Some(100);
    assert ab.freshness == Stale && ba.freshness == Degraded;
    assert OrderMatters(c, a, b, w) && LiveTimesAgree(c, a, b, w);
  }

  // ----- Late observations of older receipts -----

  /** What the newest receipt decides. */
  ghost predicate SameStatus(a: ConnectivityRow, b: ConnectivityRow) {
    && a.statusReceivedAt == b.statusReceivedAt && a.backlogDrained == b.backlogDrained
    && a.readerCoverageOk == b.readerCoverageOk && a.oldestBuffered == b.oldestBuffered
    && (ReachedBy(a.lastLiveReceived, a.statusReceivedAt) <==> ReachedBy(b.lastLiveReceived, b.statusReceivedAt))
  }

  function Newest(os: seq<Observation>, at: Time): seq<Observation> {
    if os == [] then []
    else if os[0].receivedAt == at then [os[0]] + Newest(os[1..], at)
    else Newest(os[1..], at)
  }

  lemma OlderChangesNothing(c: ConnectivityRow, o: Observation, w: Windows)
    requires o.receivedAt < c.statusReceivedAt
    ensures SameStatus(c, Updated(c, o, w))
  {
  }

  lemma SameStatusSteps(a: ConnectivityRow, b: ConnectivityRow, o: Observation, w: Windows)
    requires SameStatus(a, b) && o.receivedAt == a.statusReceivedAt
    ensures SameStatus(Updated(a, o, w), Updated(b, o, w))
    ensures Updated(a, o, w).statusReceivedAt == a.statusReceivedAt
  {
  }

  /**
   Once a receipt is the newest one, observations of older receipts that workers finish
   later, however they interleave with those of the newest, change nothing it decides.
   */
  lemma {:induction false} LateReceiptsChangeNothing(
    a: ConnectivityRow, b: ConnectivityRow, os: seq<Observation>, w: Windows)
    requires SameStatus(a, b) && forall o :: o in os ==> o.receivedAt <= a.statusReceivedAt
    ensures SameStatus(UpdatedAll(a, os, w), UpdatedAll(b, Newest(os, a.statusReceivedAt), w))
    decreases |os|
  {
    if os != [] {
      var o := os[0];
      assert o in os && forall p :: p in os[1..] ==> p in os;
      if o.receivedAt == a.statusReceivedAt {
        SameStatusSteps(a, b, o, w);
        LateReceiptsChangeNothing(Updated(a, o, w), Updated(b, o, w), os[1..], w);
        assert ([o] + Newest(os[1..], a.statusReceivedAt))[1..] == Newest(os[1..], a.statusReceivedAt);
      } else {
        OlderChangesNothing(a, o, w);
        LateReceiptsChangeNothing(Updated(a, o, w), b, os[1..], w);
      }
    }
  }

  // ----- The row as an object that both processes update in place -----

  class StoreConnectivity {
    var heartbeat: Option<Time>
    var statusReceivedAt: Time
    var backlogDrained: bool
    var readerCoverageOk: bool
    var oldestBuffered: Option<Time>
    var lastLiveReceived: Option<Time>
    var lastLiveEvent: Option<Time>
    var reconciliationRequired: Option<Time>
    var freshness: Freshness

    /** The first heartbeat of a store inserts the row. */
    constructor (r: Receipt)
      ensures View() == FirstRow(r)
    {
      heartbeat, statusReceivedAt := Some(r.receivedAt), r.receivedAt;
      backlogDrained, readerCoverageOk := r.backlogDrained, r.readerCoverageOk;
      oldestBuffered, lastLiveReceived, lastLiveEvent, reconciliationRequired := None, None, None, None;
      freshness := Stale;
    }

    function View(): ConnectivityRow
      reads this
    {
      ConnectivityRow(
        heartbeat, statusReceivedAt, backlogDrained, readerCoverageOk, oldestBuffered, lastLiveReceived, lastLiveEvent,
        reconciliationRequired, freshness)
    }

    method LockForReceipt(r: Receipt) returns (isCurrent: bool)
      modifies this
      ensures (View(), isCurrent) == Locked(Some(old(View())), r)
    {
      if heartbeat.None? || r.receivedAt > heartbeat.value {
        heartbeat := Some(r.receivedAt);
      }
      isCurrent := r.receivedAt >= statusReceivedAt;
      if isCurrent {
        statusReceivedAt := r.receivedAt;
        backlogDrained := r.backlogDrained;
        readerCoverageOk := r.readerCoverageOk;
        if !r.backlogDrained || !r.readerCoverageOk {
          freshness := Stale;
        }
      }
    }

    method ApplyObservation(o: Observation, w: Windows, isCurrent: bool)
      modifies this
      ensures View() == Applied(old(View()), o, w, isCurrent)
    {
      if o.isBuffered {
        if isCurrent {
          var liveHasResumed := o.backlogDrained && lastLiveReceived.Some? && lastLiveReceived.value >= o.receivedAt;
          if !liveHasResumed {
            if oldestBuffered.None? || o.observedAt < oldestBuffered.value {
              oldestBuffered := Some(o.observedAt);
            }
            backlogDrained := false;
            freshness := Stale;
          }
        }
      } else {
        if lastLiveReceived.None? || o.receivedAt > lastLiveReceived.value {
          lastLiveReceived := Some(o.receivedAt);
        }
        if lastLiveEvent.None? || o.observedAt - lastLiveEvent.value >= w.flush {
          lastLiveEvent := Some(o.observedAt);
        }
        if isCurrent {
          if o.backlogDrained {
            oldestBuffered := None;
          }
          freshness := EffectiveFreshness(View(), w, o.receivedAt);
        }
      }
    }

    method UpdateConnectivity(o: Observation, w: Windows)
      modifies this
      ensures View() == Updated(old(View()), o, w)
    {
      var isCurrent := LockForReceipt(ReceiptOf(o));
      ApplyObservation(o, w, isCurrent);
    }
  }
}
