/**
 What an evaluation asks for and reports, which task a move is credited to and how a
 completed task counts, said by the fields of tasks, snapshots, zones and moves.
 */
module TaskOutcomes {
  import opened Basics
  import opened Observations
  import opened Tasks
  import Connectivity

  // ----- What an evaluation asks for -----

  /** The task that already asks for a SKU in a store: it is not over. */
  predicate AsksFor(b: Board, id: TaskId, store: StoreId, sku: SkuId) {
    && id in b.tasks && b.tasks[id].store == store && b.tasks[id].sku == sku
    && b.tasks[id].status in {Open, Claimed, InProgress}
  }

  ghost predicate NobodyAsks(b: Board, store: StoreId, sku: SkuId) {
    forall id :: !AsksFor(b, id, store, sku)
  }

  /**
   What is missing on the floor: nothing while the minimum is there, otherwise as much of the
   backroom as brings floor and task up to the target, and not beyond.
   */
  predicate IsShortage(s: Snapshot, asked: nat, n: nat)
    requires s.rule.Some?
  {
    var (minFloor, targetFloor) := s.rule.value;
    if minFloor <= s.floor then n == 0
    else
      && n <= s.backroom && (n > 0 ==> s.floor + asked + n <= targetFloor)
      && (n == s.backroom || targetFloor <= s.floor + asked + n)
  }

  predicate Heeded(s: Snapshot) { s.confident && s.rule.Some? }

  /** A new open task for the shortage, if there is one; nothing else changes. */
  predicate AskedAnew(b: Board, next: Board, store: StoreId, sku: SkuId, n: nat) {
    if n == 0 then next == b
    else
      && next.evidence == b.evidence && next.nextId == b.nextId + 1
      && next.tasks == b.tasks[b.nextId := Task(store, sku, Open, n, 0, 1, None, None, None)]
  }

  /** An open task is enlarged by the shortage, one that somebody works on is left alone. */
  predicate AskedMore(b: Board, next: Board, id: TaskId, n: nat)
    requires id in b.tasks
  {
    var t := b.tasks[id];
    if n == 0 || t.status != Open then next == b
    else next == b.(tasks := b.tasks[id := t.(quantity := t.quantity + n, version := t.version + 1)])
  }

  lemma AskingIsActive(b: Board, store: StoreId, sku: SkuId)
    ensures NobodyAsks(b, store, sku) <==> !HasActive(b, store, sku)
    ensures OneActive(b) ==> forall id :: AsksFor(b, id, store, sku) ==>
              HasActive(b, store, sku) && ActiveTask(b, store, sku) == id
  {
    forall id: TaskId
      ensures AsksFor(b, id, store, sku) <==> ActiveFor(b, id, store, sku)
    {
    }
  }

  lemma RequiredIsShortage(s: Snapshot, asked: nat)
    requires s.rule.Some?
    ensures IsShortage(s, asked, RequiredQuantity(s.floor, s.backroom, asked, s.rule.value.0, s.rule.value.1))
  {
  }

  /** One SKU of an evaluation asks for exactly what is missing, in a new task or in the open one. */
  lemma EvaluationOutcome(b: Board, store: StoreId, s: Snapshot)
    requires OneActive(b)
    ensures
      var next := EvaluateSku(b, store, s);
      && (!Heeded(s) ==> next == b)
      && (Heeded(s) && NobodyAsks(b, store, s.sku) ==>
            exists n: nat :: IsShortage(s, 0, n) && AskedAnew(b, next, store, s.sku, n))
      && (forall id :: Heeded(s) && AsksFor(b, id, store, s.sku) ==>
           exists n: nat :: IsShortage(s, b.tasks[id].quantity, n) && AskedMore(b, next, id, n))
  {
    AskingIsActive(b, store, s.sku);
    if Heeded(s) {
      var asked := if HasActive(b, store, s.sku) then b.tasks[ActiveTask(b, store, s.sku)].quantity else 0;
      RequiredIsShortage(s, asked);
    }
  }

  // ----- What it reports -----

  /** Only a shortage that somebody works on already is put off, and the whole of it. */
  lemma DeferredIs(b: Board, store: StoreId, s: Snapshot)
    requires OneActive(b)
    ensures !Heeded(s) || NobodyAsks(b, store, s.sku) ==> Deferred(b, store, s) == 0
    ensures forall id :: Heeded(s) && AsksFor(b, id, store, s.sku) ==>
              if b.tasks[id].status == Open then Deferred(b, store, s) == 0
              else IsShortage(s, b.tasks[id].quantity, Deferred(b, store, s))
  {
    AskingIsActive(b, store, s.sku);
    if Heeded(s) && HasActive(b, store, s.sku) {
      RequiredIsShortage(s, b.tasks[ActiveTask(b, store, s.sku)].quantity);
    }
  }

  /** What is put off at each snapshot, on the board that the ones before it leave. */
  ghost function DeferredAt(b: Board, store: StoreId, snapshots: seq<Snapshot>, i: nat): nat
    requires i < |snapshots|
  {
    Deferred(Evaluate(b, store, snapshots[..i]), store, snapshots[i])
  }

  function Untrusted(snapshots: seq<Snapshot>): set<nat> {
    set i: nat | i < |snapshots| && !snapshots[i].confident
  }

  ghost function PutOff(b: Board, store: StoreId, snapshots: seq<Snapshot>): set<nat> {
    set i: nat | i < |snapshots| && DeferredAt(b, store, snapshots, i) > 0
  }

  ghost function TotalPutOff(b: Board, store: StoreId, snapshots: seq<Snapshot>): nat
    decreases |snapshots|
  {
    if snapshots == [] then 0
    else
      var n := |snapshots| - 1;
      TotalPutOff(b, store, snapshots[..n]) + DeferredAt(b, store, snapshots, n)
  }

  lemma OneMoreSnapshot(b: Board, store: StoreId, snapshots: seq<Snapshot>)
    requires snapshots != []
    ensures
      var n := |snapshots| - 1;
      && Untrusted(snapshots) == Untrusted(snapshots[..n]) + (if snapshots[n].confident then {} else {n})
      && PutOff(b, store, snapshots) ==
         PutOff(b, store, snapshots[..n]) + (if DeferredAt(b, store, snapshots, n) > 0 then {n} else {})
      && n !in Untrusted(snapshots[..n]) && n !in PutOff(b, store, snapshots[..n])
  {
    var n := |snapshots| - 1;
    forall i: nat | i < n
      ensures DeferredAt(b, store, snapshots, i) == DeferredAt(b, store, snapshots[..n], i)
      ensures snapshots[i] == snapshots[..n][i]
    {
      assert snapshots[..n][..i] == snapshots[..i];
    }
  }

  /** The report counts the untrusted snapshots and those put off, and adds up what is put off. */
  lemma {:induction false} ReportOutcome(b: Board, store: StoreId, snapshots: seq<Snapshot>)
    ensures
      var r := ReportOf(b, store, snapshots);
      && !r.suppressedConnectivity && r.suppressedLowConfidence == |Untrusted(snapshots)|
      && r.deferredCount == |PutOff(b, store, snapshots)|
      && r.deferredQuantity == TotalPutOff(b, store, snapshots)
    decreases |snapshots|
  {
    if snapshots != [] {
      ReportOutcome(b, store, snapshots[..|snapshots| - 1]);
      OneMoreSnapshot(b, store, snapshots);
    }
  }

  /** A store is evaluated exactly when its connectivity row says that it is live; otherwise nothing changes. */
  lemma OnlyLiveStores(b: Board, store: StoreId, c: Link, snapshots: seq<Snapshot>)
    requires c.windows.live <= c.windows.stale
    ensures
      var live :=
        && c.row.Some? && Connectivity.CaughtUp(c.row.value) && c.row.value.readerCoverageOk
        && c.row.value.reconciliationRequired.None?
        && Connectivity.Recent(c.row.value.heartbeat, c.now, c.windows.live)
        && Connectivity.Recent(c.row.value.lastLiveEvent, c.now, c.windows.live);
      var (next, r) := EvaluateLive(b, store, c, snapshots);
      if live then next == Evaluate(b, store, snapshots) && r == ReportOf(b, store, snapshots)
      else next == b && r == Report(true, 0, 0, 0)
  {
    if c.row.Some? {
      Connectivity.FreshnessIff(c.row.value, c.windows, c.now);
    }
  }

  // ----- Which task a move is credited to -----

  /** The move takes the item from the backroom of its store to the sales floor. */
  predicate Restocks(zones: map<ZoneId, Zone>, m: Move) {
    && m.from in zones && zones[m.from].store == m.store && zones[m.from].kind == Backroom
    && m.to in zones && zones[m.to].store == m.store && zones[m.to].kind == SalesFloor
  }

  /** The task was started by then, is not filled yet, and is running or in its verification time. */
  predicate Waits(t: Task, m: Move) {
    && t.store == m.store && t.sku == m.sku && t.verified < t.quantity
    && t.startedAt.Some? && t.startedAt.value <= m.observedAt
    && match t.status
       case InProgress => true
       case Completed => t.deadline.Some? && m.observedAt <= t.deadline.value
       case _ => false
  }

  /** Running tasks come before completed ones, later started before earlier, and then the higher id. */
  predicate ComesFirst(t: Task, i: TaskId, u: Task, j: TaskId)
    requires t.startedAt.Some? && u.startedAt.Some?
  {
    || (t.status == InProgress && u.status != InProgress)
    || ((t.status == InProgress <==> u.status == InProgress)
        && (u.startedAt.value < t.startedAt.value || (u.startedAt == t.startedAt && j <= i)))
  }

  ghost predicate FirstWaiting(b: Board, m: Move, id: TaskId) {
    && id in b.tasks && Waits(b.tasks[id], m)
    && forall j :: j in b.tasks && Waits(b.tasks[j], m) ==> ComesFirst(b.tasks[id], id, b.tasks[j], j)
  }

  /** One verified unit and one piece of evidence more; nothing else changes. */
  predicate CreditedTo(b: Board, next: Board, m: Move, id: TaskId)
    requires id in b.tasks
  {
    var t := b.tasks[id];
    && next.tasks == b.tasks[id := t.(verified := t.verified + 1, version := t.version + 1)]
    && next.evidence == b.evidence[m.id := id] && next.nextId == b.nextId
  }

  /** A move is credited exactly when it restocks, is not evidence yet and a task waits for it: to the first such. */
  lemma AttributionOutcome(zones: map<ZoneId, Zone>, b: Board, m: Move)
    ensures
      var next := Attributed(zones, b, m);
      if Restocks(zones, m) && m.id !in b.evidence && exists id :: id in b.tasks && Waits(b.tasks[id], m) then
        exists id :: FirstWaiting(b, m, id) && CreditedTo(b, next, m, id)
      else next == b
  {
    forall t: Task
      ensures Waits(t, m) <==> Eligible(t, m)
    {
    }
    if exists id :: id in b.tasks && Waits(b.tasks[id], m) {
      var id := ChosenTask(b, m);
      forall j | j in b.tasks && Waits(b.tasks[j], m)
        ensures ComesFirst(b.tasks[id], id, b.tasks[j], j)
      {
        assert Preferred(b.tasks[id], id, b.tasks[j], j);
      }
      assert FirstWaiting(b, m, id);
    }
  }

  /** The order leaves no choice. */
  lemma OneComesFirst(b: Board, m: Move, i: TaskId, j: TaskId)
    requires FirstWaiting(b, m, i) && FirstWaiting(b, m, j)
    ensures i == j
  {
    assert ComesFirst(b.tasks[i], i, b.tasks[j], j) && ComesFirst(b.tasks[j], j, b.tasks[i], i);
  }

  // ----- How a completed task counts -----

  /** Only completed tasks count; one that is not filled counts as unverified from its deadline on. */
  lemma VerificationIff(t: Task, now: Time)
    ensures VerificationStatus(t, now) == NotApplicable <==> t.status != Completed
    ensures VerificationStatus(t, now) == Verified <==> t.status == Completed && t.quantity <= t.verified
    ensures VerificationStatus(t, now) == Unverified <==>
            t.status == Completed && t.verified < t.quantity && t.deadline.Some? && t.deadline.value <= now
  {
  }

  /** Once the deadline of a completed task has passed, only a move from before it can still change the verdict. */
  lemma VerdictAfterDeadline(zones: map<ZoneId, Zone>, b: Board, m: Move, id: TaskId, now: Time)
    requires id in b.tasks && VerificationStatus(b.tasks[id], now) == Unverified
            && b.tasks[id].deadline.value < m.observedAt
    ensures id in Attributed(zones, b, m).tasks && Attributed(zones, b, m).tasks[id] == b.tasks[id]
  {
    AttributionOutcome(zones, b, m);
    VerificationIff(b.tasks[id], now);
  }
}
