/**
 The bounded evidence window of the event worker: one window of recent observations per
 EPC and a set of recently seen event ids, both evicted least-recently-used first. It
 lives in process memory, so a database rollback does not undo it; a checkpoint taken
 before the transaction is restored by hand.
 */
module RecentObservations {
  import opened Basics
  import opened Observations
  import opened OrderedDicts

  datatype Evidence = Evidence(windows: Dict<Epc, seq<Observation>>, eventIds: Dict<EventId, ()>)

  datatype Limits = Limits(epcs: nat, eventIds: nat)

  ghost predicate ValidEvidence(e: Evidence, limits: Limits) {
    && Distinct(e.windows) && |e.windows| <= limits.epcs
    && Distinct(e.eventIds) && |e.eventIds| <= limits.eventIds
  }

  function WindowOf(e: Evidence, epc: Epc): seq<Observation> {
    match Get(e.windows, epc)
    case None => []
    case Some(w) => w
  }

  // ----- The operations on values -----

  function Remember(e: Evidence, id: EventId, limits: Limits): (Evidence, bool) {
    if Contains(e.eventIds, id) then
      (e.(eventIds := Pop(e.eventIds, id) + [(id, ())]), false)
    else
      (e.(eventIds := Trim(e.eventIds + [(id, ())], limits.eventIds)), true)
  }

  function Forget(e: Evidence, id: EventId): Evidence {
    e.(eventIds := Pop(e.eventIds, id))
  }

  function Newest(window: seq<Observation>): (t: Time)
    requires window != []
    ensures forall o :: o in window ==> o.observedAt <= t
    ensures exists o :: o in window && o.observedAt == t
  {
    if |window| == 1 then window[0].observedAt
    else
      var rest := Newest(window[1..]);
      assert forall o :: o in window ==> o == window[0] || o in window[1..];
      if rest < window[0].observedAt then window[0].observedAt
      else
        assert exists o :: o in window[1..] && o.observedAt == rest;
        rest
  }

  predicate Kept(o: Observation, cutoff: Time, notBefore: Option<Time>) {
    cutoff <= o.observedAt && (notBefore.None? || notBefore.value <= o.observedAt)
  }

  function Retain(window: seq<Observation>, cutoff: Time, notBefore: Option<Time>): (kept: seq<Observation>)
    ensures forall o :: o in kept <==> o in window && Kept(o, cutoff, notBefore)
  {
    if window == [] then []
    else if Kept(window[0], cutoff, notBefore) then [window[0]] + Retain(window[1..], cutoff, notBefore)
    else Retain(window[1..], cutoff, notBefore)
  }

  /** The window an addition leaves behind. */
  function Extended(window: seq<Observation>, event: Observation, seconds: nat, notBefore: Option<Time>)
    : (kept: seq<Observation>)
    ensures forall o :: o in kept ==> o in window || o == event
    ensures forall o, p :: o in kept && p in kept ==> p.observedAt - o.observedAt <= seconds
  {
    var all := window + [event];
    assert event in all;
    Retain(all, Newest(all) - seconds, notBefore)
  }

  function Add(e: Evidence, event: Observation, seconds: nat, notBefore: Option<Time>, limits: Limits)
    : (Evidence, seq<Observation>)
  {
    var window := Extended(WindowOf(e, event.epc), event, seconds, notBefore);
    var moved := Pop(e.windows, event.epc) + [(event.epc, window)];
    (e.(windows := Trim(moved, limits.epcs)), window)
  }

  datatype Checkpoint = Checkpoint(
    eventKey: EventId,
    eventPreexisting: bool,
    oldestEventKey: Option<EventId>,
    windowKey: Epc,
    windowBefore: Option<seq<Observation>>,
    oldestWindow: Option<(Epc, seq<Observation>)>)

  function Take(e: Evidence, event: Observation): Checkpoint {
    Checkpoint(
      event.eventId,
      Contains(e.eventIds, event.eventId),
      if e.eventIds == [] then None else Some(e.eventIds[0].0),
      event.epc,
      Get(e.windows, event.epc),
      if e.windows == [] then None else Some(e.windows[0]))
  }

  function RewoundIds(ids: Dict<EventId, ()>, c: Checkpoint): Dict<EventId, ()> {
    var own := if c.eventPreexisting then Put(ids, c.eventKey, ()) else Pop(ids, c.eventKey);
    match c.oldestEventKey
    case None => own
    case Some(oldest) => MoveToFront(Put(own, oldest, ()), oldest)
  }

  function RewoundWindows(windows: Dict<Epc, seq<Observation>>, c: Checkpoint): Dict<Epc, seq<Observation>> {
    var own :=
      match c.windowBefore
      case None => Pop(windows, c.windowKey)
      case Some(before) => Put(windows, c.windowKey, before);
    match c.oldestWindow
    case None => own
    case Some((oldest, values)) =>
      MoveToFront(if oldest != c.windowKey || c.windowBefore.Some? then Put(own, oldest, values) else own, oldest)
  }

  function Rewind(e: Evidence, c: Checkpoint): Evidence {
    Evidence(RewoundWindows(e.windows, c), RewoundIds(e.eventIds, c))
  }

  // ----- One event may touch the evidence any number of times before a rollback -----

  datatype EvidenceOp =
    | ForgetOp
    | RememberOp
    | AddOp(observation: Observation, seconds: nat, notBefore: Option<Time>)

  function RunOp(e: Evidence, event: Observation, op: EvidenceOp, limits: Limits): Evidence {
    match op
    case ForgetOp => Forget(e, event.eventId)
    case RememberOp => Remember(e, event.eventId, limits).0
    case AddOp(o, seconds, notBefore) => Add(e, o.(epc := event.epc), seconds, notBefore, limits).0
  }

  function RunOps(e: Evidence, event: Observation, ops: seq<EvidenceOp>, limits: Limits): Evidence
    decreases |ops|
  {
    if ops == [] then e
    else RunOps(RunOp(e, event, ops[0], limits), event, ops[1..], limits)
  }

  /** What the work of one key can have made of a bounded dictionary. */
  ghost predicate Touched<K, V>(before: Dict<K, V>, now: Dict<K, V>, k: K, maximum: nat) {
    && |now| <= maximum
    && (now == before || now == Pop(now, k)
        || (Contains(now, k) && now == Pop(now, k) + [(k, Get(now, k).value)]))
    && (Pop(now, k) == Pop(before, k)
        || (!Contains(before, k) && before != [] && |before| == maximum && Pop(now, k) == before[1..]))
  }

  lemma {:induction false} PopShrinks<K, V>(d: Dict<K, V>, k: K)
    ensures |Pop(d, k)| <= |d|
    ensures Contains(d, k) ==> |Pop(d, k)| < |d|
    ensures !Contains(Pop(d, k), k)
    ensures Pop(Pop(d, k), k) == Pop(d, k)
  {
    if d != [] {
      PopShrinks(d[1..], k);
    }
  }

  lemma TouchedStart<K, V>(before: Dict<K, V>, k: K, maximum: nat)
    requires |before| <= maximum
    ensures Touched(before, before, k, maximum)
  {
  }

  lemma TouchedByPop<K, V>(before: Dict<K, V>, now: Dict<K, V>, k: K, maximum: nat)
    requires Touched(before, now, k, maximum)
    ensures Touched(before, Pop(now, k), k, maximum)
  {
    PopShrinks(now, k);
  }

  /** Using a key (writing it at the recent end, evicting if needed) keeps the relation. */
  lemma TouchedByUse<K, V>(before: Dict<K, V>, now: Dict<K, V>, k: K, v: V, maximum: nat)
    requires Distinct(before) && |before| <= maximum
    requires Touched(before, now, k, maximum)
    ensures Touched(before, Trim(Pop(now, k) + [(k, v)], maximum), k, maximum)
  {
    var rest := Pop(now, k);
    var used := rest + [(k, v)];
    PopShrinks(now, k);
    AppendPop(rest, k, v, k);
    AppendGet(rest, k, v, k);
    PopLength(before, k);
    if |used| > maximum {
      assert rest == Pop(before, k);
      PopAbsent(before, k);
      if before != [] {
        assert used[1..] == before[1..] + [(k, v)];
        PopAbsent(before[1..], k);
        AppendPop(before[1..], k, v, k);
        AppendGet(before[1..], k, v, k);
      }
    }
  }

  /** Restoring a key that was there before: its own value, then the oldest entry in front. */
  lemma RewindPresent<K(!new), V>(before: Dict<K, V>, now: Dict<K, V>, k: K, maximum: nat)
    requires Distinct(before) && Contains(before, k)
    requires Touched(before, now, k, maximum)
    ensures
      var v := Get(before, k).value;
      var back := MoveToFront(Put(Put(now, k, v), before[0].0, before[0].1), before[0].0);
      back == before || (before[0].0 != k && back == Pop(before, k) + [(k, v)])
  {
    var v := Get(before, k).value;
    var recent := Pop(before, k) + [(k, v)];
    var own := Put(now, k, v);
    PopShrinks(now, k);
    assert own == before || own == recent by {
      if now == before {
        PutSame(before, k);
      } else if now == Pop(now, k) {
        PutAbsent(now, k, v);
      } else {
        PutAppended(Pop(now, k), k, Get(now, k).value, v);
      }
    }
    OldestToFront(before, before);
    if own == recent {
      if before[0].0 == k {
        OldestReturns(before);
      } else {
        assert recent[0] == before[0];
        RecentSame(before, k);
        OldestToFront(recent, before);
      }
    }
  }

  /** Restoring a key that was not there: it goes away, and an evicted oldest entry returns. */
  lemma RewindNew<K, V>(before: Dict<K, V>, now: Dict<K, V>, k: K, maximum: nat)
    requires Distinct(before) && !Contains(before, k)
    requires Touched(before, now, k, maximum)
    ensures
      var own := Pop(now, k);
      before == if before == [] then own else MoveToFront(Put(own, before[0].0, before[0].1), before[0].0)
  {
    var own := Pop(now, k);
    PopAbsent(before, k);
    if before != [] {
      OldestToFront(before, before);
      if own == before[1..] {
        PutAbsent(own, before[0].0, before[0].1);
        OldestReturns(before);
      }
    }
  }

  lemma PutAppended<K, V>(d: Dict<K, V>, k: K, v: V, w: V)
    requires !Contains(d, k)
    ensures Put(d + [(k, v)], k, w) == d + [(k, w)]
  {
    PutAbsent(d, k, v);
    PutAbsent(d, k, w);
    PutTwice(d, k, v, w);
  }

  /** Re-writing the oldest entry of a dictionary that still has it in front is no change. */
  lemma OldestToFront<K, V>(d: Dict<K, V>, before: Dict<K, V>)
    requires d != [] && before != [] && d[0] == before[0] && Distinct(d)
    ensures MoveToFront(Put(d, before[0].0, before[0].1), before[0].0) == d
  {
    PutSame(d, d[0].0);
    PopAbsent(d[1..], d[0].0);
    assert [d[0]] + d[1..] == d;
  }

  /** The oldest entry, wherever an append has put it, is brought back to the front. */
  lemma OldestReturns<K, V>(before: Dict<K, V>)
    requires before != [] && Distinct(before)
    ensures
      var (k, v) := before[0];
      && Pop(before, k) == before[1..]
      && MoveToFront(Put(before[1..] + [(k, v)], k, v), k) == before
      && MoveToFront(before[1..] + [(k, v)], k) == before
  {
    var (k, v) := before[0];
    PopAbsent(before[1..], k);
    PutAppended(before[1..], k, v, v);
    AppendPop(before[1..], k, v, k);
    AppendGet(before[1..], k, v, k);
    assert [(k, v)] + before[1..] == before;
  }

  lemma UnitValue(u: ())
    ensures u == ()
  {
  }

  /** Moving an entry to the recent end keeps the contents. */
  lemma RecentSame<K(!new), V>(before: Dict<K, V>, k: K)
    requires Distinct(before) && Contains(before, k)
    ensures Distinct(Pop(before, k) + [(k, Get(before, k).value)])
    ensures SameContents(Pop(before, k) + [(k, Get(before, k).value)], before)
  {
    var v := Get(before, k).value;
    PopDistinct(before, k);
    PopShrinks(before, k);
    PopLength(before, k);
    AppendDistinct(Pop(before, k), k, v);
    forall j
      ensures Get(Pop(before, k) + [(k, v)], j) == Get(before, j)
    {
      PopGet(before, k, j);
      AppendGet(Pop(before, k), k, v, j);
    }
  }

  lemma {:induction false} OpsTouch(e0: Evidence, e: Evidence, event: Observation, ops: seq<EvidenceOp>, limits: Limits)
    requires ValidEvidence(e0, limits)
    requires Touched(e0.windows, e.windows, event.epc, limits.epcs)
    requires Touched(e0.eventIds, e.eventIds, event.eventId, limits.eventIds)
    ensures
      var after := RunOps(e, event, ops, limits);
      && Touched(e0.windows, after.windows, event.epc, limits.epcs)
      && Touched(e0.eventIds, after.eventIds, event.eventId, limits.eventIds)
    decreases |ops|
  {
    if ops != [] {
      var next := RunOp(e, event, ops[0], limits);
      match ops[0] {
        case ForgetOp =>
          TouchedByPop(e0.eventIds, e.eventIds, event.eventId, limits.eventIds);
        case RememberOp =>
          TouchedByUse(e0.eventIds, e.eventIds, event.eventId, (), limits.eventIds);
          PopShrinks(e.eventIds, event.eventId);
          if !Contains(e.eventIds, event.eventId) {
            PopAbsent(e.eventIds, event.eventId);
          } else {
            assert next.eventIds == Pop(e.eventIds, event.eventId) + [(event.eventId, ())];
            assert |next.eventIds| <= limits.eventIds;
          }
        case AddOp(o, seconds, notBefore) =>
          var window := Add(e, o.(epc := event.epc), seconds, notBefore, limits).1;
          TouchedByUse(e0.windows, e.windows, event.epc, window, limits.epcs);
      }
      OpsTouch(e0, next, event, ops[1..], limits);
    }
  }

  /**
   Whatever one event did to the evidence, in any number of forget, remember and add steps,
   restoring its checkpoint returns every window and the set of event ids to their earlier
   contents, an evicted oldest entry included. The recency order comes back too, except
   that the event's own entries that existed before and were not the oldest may stay at the
   recent end.
   */
  lemma RestoreUndoes(e: Evidence, event: Observation, ops: seq<EvidenceOp>, limits: Limits)
    requires ValidEvidence(e, limits)
    ensures
      var back := Rewind(RunOps(e, event, ops, limits), Take(e, event));
      && SameContents(back.windows, e.windows)
      && SameContents(back.eventIds, e.eventIds)
      && ValidEvidence(back, limits)
      && (back.windows == e.windows
          || (Contains(e.windows, event.epc) && e.windows[0].0 != event.epc
              && back.windows == MoveToEnd(e.windows, event.epc)))
      && (back.eventIds == e.eventIds
          || (Contains(e.eventIds, event.eventId) && e.eventIds[0].0 != event.eventId
              && back.eventIds == MoveToEnd(e.eventIds, event.eventId)))
  {
    var now := RunOps(e, event, ops, limits);
    TouchedStart(e.windows, event.epc, limits.epcs);
    TouchedStart(e.eventIds, event.eventId, limits.eventIds);
    OpsTouch(e, e, event, ops, limits);
    RestoreWindows(e, now, event, limits);
    RestoreIds(e, now, event, limits);
  }

  lemma RestoreWindows(e: Evidence, now: Evidence, event: Observation, limits: Limits)
    requires ValidEvidence(e, limits) && Touched(e.windows, now.windows, event.epc, limits.epcs)
    ensures
      var back := RewoundWindows(now.windows, Take(e, event));
      && SameContents(back, e.windows) && Distinct(back)
      && (back == e.windows
          || (Contains(e.windows, event.epc) && e.windows[0].0 != event.epc
              && back == MoveToEnd(e.windows, event.epc)))
  {
    if Contains(e.windows, event.epc) {
      RewindPresent(e.windows, now.windows, event.epc, limits.epcs);
      RecentSame(e.windows, event.epc);
    } else {
      RewindNew(e.windows, now.windows, event.epc, limits.epcs);
    }
  }

  lemma RestoreIds(e: Evidence, now: Evidence, event: Observation, limits: Limits)
    requires ValidEvidence(e, limits) && Touched(e.eventIds, now.eventIds, event.eventId, limits.eventIds)
    ensures
      var back := RewoundIds(now.eventIds, Take(e, event));
      && SameContents(back, e.eventIds) && Distinct(back)
      && (back == e.eventIds
          || (Contains(e.eventIds, event.eventId) && e.eventIds[0].0 != event.eventId
              && back == MoveToEnd(e.eventIds, event.eventId)))
  {
    if e.eventIds != [] {
      UnitValue(e.eventIds[0].1);
    }
    if Contains(e.eventIds, event.eventId) {
      UnitValue(Get(e.eventIds, event.eventId).value);
      RewindPresent(e.eventIds, now.eventIds, event.eventId, limits.eventIds);
      RecentSame(e.eventIds, event.eventId);
    } else {
      RewindNew(e.eventIds, now.eventIds, event.eventId, limits.eventIds);
    }
  }

  /** Both dictionaries stay within their bounds, whoever uses them. */
  lemma OpsStayBounded(e: Evidence, event: Observation, op: EvidenceOp, limits: Limits)
    requires ValidEvidence(e, limits)
    ensures ValidEvidence(RunOp(e, event, op, limits), limits)
  {
    PopDistinct(e.eventIds, event.eventId);
    PopShrinks(e.eventIds, event.eventId);
    match op
    case ForgetOp =>
    case RememberOp =>
      if Contains(e.eventIds, event.eventId) {
        AppendDistinct(Pop(e.eventIds, event.eventId), event.eventId, ());
      } else {
        AppendDistinct(e.eventIds, event.eventId, ());
      }
    case AddOp(o, seconds, notBefore) =>
      var window := Add(e, o.(epc := event.epc), seconds, notBefore, limits).1;
      PopDistinct(e.windows, event.epc);
      PopShrinks(e.windows, event.epc);
      AppendDistinct(Pop(e.windows, event.epc), event.epc, window);
  }

  /** What an addition does to the window of each EPC: only its own can grow. */
  lemma AddWindows(e: Evidence, event: Observation, seconds: nat, notBefore: Option<Time>, limits: Limits, epc: Epc)
    requires Distinct(e.windows)
    ensures
      var (after, window) := Add(e, event, seconds, notBefore, limits);
      && (epc == event.epc ==> WindowOf(after, epc) == window || WindowOf(after, epc) == [])
      && (epc != event.epc ==> WindowOf(after, epc) == WindowOf(e, epc) || WindowOf(after, epc) == [])
  {
    var (after, window) := Add(e, event, seconds, notBefore, limits);
    var rest := Pop(e.windows, event.epc);
    var moved := rest + [(event.epc, window)];
    PopGet(e.windows, event.epc, epc);
    PopShrinks(e.windows, event.epc);
    PopDistinct(e.windows, event.epc);
    AppendGet(rest, event.epc, window, epc);
    AppendDistinct(rest, event.epc, window);
  }

  // ----- The process-local object -----

  class RecentObservationState {
    var windows: Dict<Epc, seq<Observation>>
    var eventIds: Dict<EventId, ()>
    const limits: Limits

    constructor (maximumEpcs: nat, maximumEventIds: nat)
      ensures View() == Evidence([], []) && limits == Limits(maximumEpcs, maximumEventIds)
    {
      windows, eventIds := [], [];
      limits := Limits(maximumEpcs, maximumEventIds);
    }

    function View(): Evidence
      reads this
    {
      Evidence(windows, eventIds)
    }

    method RememberEvent(event: Observation) returns (isNew: bool)
      modifies this
      ensures (View(), isNew) == Remember(old(View()), event.eventId, limits)
    {
      if Contains(eventIds, event.eventId) {
        UnitValue(Get(eventIds, event.eventId).value);
        eventIds := MoveToEnd(eventIds, event.eventId);
        return false;
      }
      PutAbsent(eventIds, event.eventId, ());
      eventIds := Put(eventIds, event.eventId, ());
      if |eventIds| > limits.eventIds {
        eventIds := eventIds[1..];
      }
      return true;
    }

    method ForgetEvent(event: Observation)
      modifies this
      ensures View() == Forget(old(View()), event.eventId)
    {
      eventIds := Pop(eventIds, event.eventId);
    }

    method AddObservation(event: Observation, windowSeconds: nat, evidenceNotBefore: Option<Time>)
      returns (retained: seq<Observation>)
      modifies this
      ensures (View(), retained) == Add(old(View()), event, windowSeconds, evidenceNotBefore, limits)
    {
      if !Contains(windows, event.epc) {
        PutAbsent(windows, event.epc, []);
        PopAbsent(windows, event.epc);
        PutGet(windows, event.epc, [], event.epc);
        PutPop(windows, event.epc, []);
        windows := Put(windows, event.epc, []);
      }
      windows := MoveToEnd(windows, event.epc);
      ghost var rest := Pop(old(windows), event.epc);
      PopShrinks(old(windows), event.epc);
      assert windows == rest + [(event.epc, WindowOf(old(View()), event.epc))];
      AppendGet(rest, event.epc, WindowOf(old(View()), event.epc), event.epc);
      var window := Get(windows, event.epc).value + [event];
      assert event in window;
      var newest := Newest(window);
      var cutoff := newest - windowSeconds;
      retained := Retain(window, cutoff, evidenceNotBefore);
      PutAppended(rest, event.epc, windows[|windows| - 1].1, retained);
      windows := Put(windows, event.epc, retained);
      if |windows| > limits.epcs {
        windows := windows[1..];
      }
    }

    function CheckpointFor(event: Observation): Checkpoint
      reads this
    {
      Take(View(), event)
    }

    method Restore(checkpoint: Checkpoint)
      modifies this
      ensures View() == Rewind(old(View()), checkpoint)
    {
      if checkpoint.eventPreexisting {
        eventIds := Put(eventIds, checkpoint.eventKey, ());
      } else {
        eventIds := Pop(eventIds, checkpoint.eventKey);
      }
      if checkpoint.oldestEventKey.Some? {
        eventIds := Put(eventIds, checkpoint.oldestEventKey.value, ());
        eventIds := MoveToFront(eventIds, checkpoint.oldestEventKey.value);
      }
      if checkpoint.windowBefore.None? {
        windows := Pop(windows, checkpoint.windowKey);
      } else {
        windows := Put(windows, checkpoint.windowKey, checkpoint.windowBefore.value);
      }
      if checkpoint.oldestWindow.Some? {
        var (oldestKey, oldestValues) := checkpoint.oldestWindow.value;
        if oldestKey != checkpoint.windowKey || checkpoint.windowBefore.Some? {
          windows := Put(windows, oldestKey, oldestValues);
        }
        windows := MoveToFront(windows, oldestKey);
      }
    }
  }
}
