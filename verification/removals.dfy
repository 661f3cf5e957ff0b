/**
 Authoritative removals: exactly when one is accepted and which refusal is given otherwise,
 what an accepted one writes, and what every accepted one stands for in every later state.
 */
module Removals {
  import opened Basics
  import opened Observations
  import opened StableZones
  import opened Inboxes
  import opened Inventories
  import opened InventoryInvariants
  import opened EventWorkers
  import InventoryRuns

  type Ledger = map<EventId, LedgerRow>

  // ----- Acceptance -----

  /** No processed read of the item is later than the event. */
  ghost predicate NoLaterRead(ledger: Ledger, epc: Epc, at: Time) {
    forall id :: id in ledger && ledger[id].event.epc == epc && ledger[id].outcome.status == EventProcessed ==>
      ledger[id].event.observedAt <= at
  }

  /** The checks that come before the request key is looked up. */
  predicate InScope(q: RemovalRequest, stores: set<StoreId>, now: Time, skew: nat) {
    q.store in stores && q.occurredAt - now <= skew
  }

  /** The item is there to be removed. */
  predicate Present(inv: Inventory, epc: Epc) {
    epc in inv.items && inv.items[epc].removal.None? && inv.items[epc].location.Some?
  }

  ghost predicate MayRemove(
    inv: Inventory, ledger: Ledger, q: RemovalRequest, stores: set<StoreId>, now: Time, skew: nat)
  {
    && InScope(q, stores, now, skew) && q.key !in inv.events && Present(inv, q.epc)
    && inv.items[q.epc].location.value.store == q.store
    && inv.items[q.epc].lastObservedAt <= q.occurredAt && NoLaterRead(ledger, q.epc, q.occurredAt)
  }

  ghost function Answer(
    inv: Inventory, ledger: Ledger, q: RemovalRequest, stores: set<StoreId>, eventId: int, now: Time, skew: nat)
    : Result<(Inventory, BusinessEvent, bool), RemovalError>
  {
    AcceptRemoval(inv, q, stores, eventId, ProcessedWatermark(ledger, q.epc), now, skew)
  }

  lemma LateIffLaterRead(inv: Inventory, ledger: Ledger, epc: Epc, at: Time)
    requires epc in inv.items
    ensures Before(at, Watermark(inv, epc, ProcessedWatermark(ledger, epc))) <==>
            at < inv.items[epc].lastObservedAt || !NoLaterRead(ledger, epc, at)
  {
    var w := ProcessedWatermark(ledger, epc);
    assert IsNewest(ledger, epc, w);
    if w.Some? {
      var id :| id in ledger && CountsFor(ledger[id], epc) && ledger[id].event.observedAt == w.value;
    }
  }

  /** A removal is created, repeated or refused exactly under these conditions. */
  lemma RemovalOutcome(
    inv: Inventory, ledger: Ledger, q: RemovalRequest, stores: set<StoreId>, eventId: int, now: Time, skew: nat)
    ensures
      var r := Answer(inv, ledger, q, stores, eventId, now, skew);
      && (r.Ok? && r.value.2 <==> MayRemove(inv, ledger, q, stores, now, skew))
      && (r.Ok? && !r.value.2 <==>
          InScope(q, stores, now, skew) && q.key in inv.events && inv.events[q.key].fingerprint == q.fingerprint)
  {
    if q.epc in inv.items {
      LateIffLaterRead(inv, ledger, q.epc, q.occurredAt);
    }
  }

  lemma RemovalRefusal(
    inv: Inventory, ledger: Ledger, q: RemovalRequest, stores: set<StoreId>, eventId: int, now: Time, skew: nat)
    ensures
      var r := Answer(inv, ledger, q, stores, eventId, now, skew);
      var open := InScope(q, stores, now, skew) && q.key !in inv.events;
      && (r == Err(StoreNotFound) <==> q.store !in stores)
      && (r == Err(TooFarInFuture) <==> q.store in stores && q.occurredAt > now + skew)
      && (r == Err(IdempotencyConflict) <==>
          InScope(q, stores, now, skew) && q.key in inv.events && inv.events[q.key].fingerprint != q.fingerprint)
      && (r == Err(ItemNotFound) <==> open && q.epc !in inv.items)
      && (r == Err(AlreadyRemoved) <==> open && q.epc in inv.items && inv.items[q.epc].removal.Some?)
      && (r == Err(LocationUnavailable) <==>
          open && q.epc in inv.items && inv.items[q.epc].removal.None? && inv.items[q.epc].location.None?)
      && (r == Err(StoreMismatch) <==>
          open && Present(inv, q.epc) && inv.items[q.epc].location.value.store != q.store)
      && (r == Err(StaleEvent) <==>
          open && Present(inv, q.epc) && inv.items[q.epc].location.value.store == q.store
          && (q.occurredAt < inv.items[q.epc].lastObservedAt || !NoLaterRead(ledger, q.epc, q.occurredAt)))
  {
    if q.epc in inv.items {
      LateIffLaterRead(inv, ledger, q.epc, q.occurredAt);
    }
  }

  /** A repeated request changes nothing; a new one takes one unit from where the item is and says so. */
  lemma RemovalEffect(
    inv: Inventory, ledger: Ledger, q: RemovalRequest, stores: set<StoreId>, eventId: int, now: Time, skew: nat)
    requires Answer(inv, ledger, q, stores, eventId, now, skew).Ok?
    ensures
      var (next, event, created) := Answer(inv, ledger, q, stores, eventId, now, skew).value;
      if !created then next == inv && event == inv.events[q.key]
      else
        var s, s' := inv.items[q.epc], next.items[q.epc];
        var t := TransitionId(q.epc, s.version + 1);
        && next.items == inv.items[q.epc := s'] && next.outbox == inv.outbox[t := next.outbox[t]]
        && next.events == inv.events[q.key := event]
        && next.projection == inv.projection && next.applied == inv.applied && next.zones == inv.zones
        && s'.sku == s.sku && s'.location == None && s'.version == s.version + 1
        && s'.removal == Some(Removal(eventId, q.occurredAt)) && s'.lastObservedAt == s.lastObservedAt
        && next.outbox[t].phase == Pending && next.outbox[t].attempts == 0 && |next.outbox[t].deltas| == 1
        && next.outbox[t].deltas[0].quantity == -1
        && next.outbox[t].deltas[0].bucket == Bucket(s.location.value, s.sku)
        && event == BusinessEvent(eventId, q.fingerprint, q.store, q.epc, q.occurredAt, t)
  {
  }

  // ----- What an accepted removal stands for, in every later state -----

  /** The last row of the item took its one unit from the requested store; the item stays removed by this event. */
  ghost predicate Taken(inv: Inventory, k: ExternalKey)
    requires k in inv.events
  {
    var e := inv.events[k];
    && e.transition in inv.outbox && e.epc in inv.items
    && e.transition == TransitionId(e.epc, inv.items[e.epc].version)
    && |inv.outbox[e.transition].deltas| == 1 && inv.outbox[e.transition].deltas[0].quantity == -1
    && inv.outbox[e.transition].deltas[0].bucket.location.store == e.store
    && inv.outbox[e.transition].deltas[0].observedAt == e.occurredAt
    && inv.items[e.epc].removal == Some(Removal(e.id, e.occurredAt))
  }

  /** Every accepted removal stands, and no two of them are of the same item. */
  ghost predicate RemovalsStand(inv: Inventory) {
    && (forall k {:trigger Taken(inv, k)} :: k in inv.events ==> Taken(inv, k))
    && (forall j, k {:trigger inv.events[j], inv.events[k]} ::
          j in inv.events && k in inv.events && j != k ==> inv.events[j].epc != inv.events[k].epc)
  }

  ghost predicate KeepsDeltas(inv: Inventory, next: Inventory) {
    forall t :: t in inv.outbox ==> t in next.outbox && next.outbox[t].deltas == inv.outbox[t].deltas
  }

  /** Removed items and their events stay as they are. */
  ghost predicate KeepsRemoved(inv: Inventory, next: Inventory) {
    && KeepsDeltas(inv, next)
    && (forall epc :: Inventories.Removed(inv, epc) ==> epc in next.items && next.items[epc] == inv.items[epc])
    && (forall k :: k in inv.events ==> k in next.events && next.events[k] == inv.events[k])
  }

  lemma TakenStays(inv: Inventory, next: Inventory, k: ExternalKey)
    requires KeepsRemoved(inv, next) && k in inv.events && Taken(inv, k)
    ensures Taken(next, k)
  {
    assert Inventories.Removed(inv, inv.events[k].epc);
  }

  lemma NoNewRemovals(inv: Inventory, next: Inventory)
    requires RemovalsStand(inv) && KeepsRemoved(inv, next) && next.events.Keys == inv.events.Keys
    ensures RemovalsStand(next)
  {
    forall k | k in next.events
      ensures Taken(next, k)
    {
      assert Taken(inv, k);
      TakenStays(inv, next, k);
    }
  }

  lemma EvolvedKeepsDeltas(inv: Inventory, next: Inventory)
    requires Evolved(inv, next)
    ensures KeepsDeltas(inv, next)
  {
  }

  lemma RemoveItemStands(inv: Inventory, q: RemovalRequest, eventId: int)
    requires RemovalsStand(inv) && Present(inv, q.epc) && q.key !in inv.events
    requires inv.items[q.epc].location.value.store == q.store
    requires KeepsDeltas(inv, RemoveItem(inv, q, eventId))
    ensures RemovalsStand(RemoveItem(inv, q, eventId)) && KeepsRemoved(inv, RemoveItem(inv, q, eventId))
  {
    var next := RemoveItem(inv, q, eventId);
    forall k | k in inv.events
      ensures inv.events[k].epc != q.epc && Taken(next, k)
    {
      assert Taken(inv, k);
      TakenStays(inv, next, k);
    }
    assert Taken(next, q.key);
  }

  lemma RemoveStands(inv: Inventory, step: ItemStep)
    requires Base(inv) && RemovalsStand(inv) && step.RemoveStep?
    ensures RemovalsStand(RunItem(inv, step)) && KeepsRemoved(inv, RunItem(inv, step))
  {
    ItemStepKeeps(inv, step);
    EvolvedKeepsDeltas(inv, RunItem(inv, step));
    var r := AcceptRemoval(inv, step.request, step.stores, step.eventId, step.processed, step.now, step.skew);
    if r.Ok? && r.value.2 {
      RemoveItemStands(inv, step.request, step.eventId);
    }
  }

  lemma OthersKeepEvents(inv: Inventory, step: ItemStep)
    requires !step.RemoveStep?
    ensures RunItem(inv, step).events == inv.events
  {
  }

  lemma RemovedStays(inv: Inventory, step: ItemStep, epc: Epc)
    requires Inventories.Removed(inv, epc)
    ensures epc in RunItem(inv, step).items && RunItem(inv, step).items[epc] == inv.items[epc]
  {
    InventoryRuns.ItemStepAfterRemoval(inv, step, epc);
  }

  lemma OthersKeepRemoved(inv: Inventory, step: ItemStep)
    requires Base(inv) && !step.RemoveStep?
    ensures KeepsRemoved(inv, RunItem(inv, step)) && RunItem(inv, step).events == inv.events
  {
    var next := RunItem(inv, step);
    assert KeepsDeltas(inv, next) by {
      ItemStepKeeps(inv, step);
      EvolvedKeepsDeltas(inv, next);
    }
    forall epc | Inventories.Removed(inv, epc)
      ensures epc in next.items && next.items[epc] == inv.items[epc]
    {
      RemovedStays(inv, step, epc);
    }
    OthersKeepEvents(inv, step);
  }

  lemma ItemStands(inv: Inventory, step: ItemStep)
    requires Base(inv) && RemovalsStand(inv)
    ensures RemovalsStand(RunItem(inv, step)) && KeepsRemoved(inv, RunItem(inv, step))
  {
    if step.RemoveStep? {
      RemoveStands(inv, step);
    } else {
      OthersKeepRemoved(inv, step);
      NoNewRemovals(inv, RunItem(inv, step));
    }
  }

  lemma {:induction false} ItemsStand(inv: Inventory, steps: seq<ItemStep>)
    requires Base(inv) && RemovalsStand(inv)
    ensures RemovalsStand(RunItems(inv, steps)) && KeepsRemoved(inv, RunItems(inv, steps))
    decreases |steps|
  {
    if steps != [] {
      var next := RunItem(inv, steps[0]);
      ItemStepKeeps(inv, steps[0]);
      ItemStands(inv, steps[0]);
      ItemsStand(next, steps[1..]);
      assert forall epc :: Inventories.Removed(inv, epc) ==> Inventories.Removed(next, epc);
    }
  }

  lemma MarkingStands(inv: Inventory)
    requires RemovalsStand(inv)
    ensures RemovalsStand(Reconcile(inv))
  {
    NoNewRemovals(inv, Reconcile(inv));
  }

  lemma ReplacingStands(inv: Inventory, p: map<Bucket, nat>)
    requires RemovalsStand(inv)
    ensures RemovalsStand(inv.(projection := p))
  {
    NoNewRemovals(inv, inv.(projection := p));
  }

  lemma RebuildStands(
    inv: Inventory, a: seq<ItemStep>, b: seq<ItemStep>, c: seq<ItemStep>, d: seq<ItemStep>)
    requires Base(inv) && RemovalsStand(inv)
    ensures RemovalsStand(RunStep(inv, Rebuild(a, b, c, d)))
  {
    if !HasPending(inv) {
      var counted := RunItems(inv, a);
      ItemStepsKeep(inv, a);
      ItemsStand(inv, a);
      var checked := RunItems(counted, b);
      ItemStepsKeep(counted, b);
      ItemsStand(counted, b);
      var late := RunItems(checked, c);
      ItemStepsKeep(checked, c);
      ItemsStand(checked, c);
      InventoryRuns.ReconcileKeepsBase(late);
      MarkingStands(late);
      ItemsStand(Reconcile(late), d);
      ReplacingStands(RunItems(Reconcile(late), d), CountedProjection(counted));
    }
  }

  lemma PublishedStands(inv: Inventory, t: TransitionId, next: Inventory)
    requires RemovalsStand(inv) && t in inv.outbox && InventoryRuns.PublishesOnly(inv, t, next)
    ensures RemovalsStand(next)
  {
    NoNewRemovals(inv, next);
  }

  lemma FailedStands(inv: Inventory, t: TransitionId, maxAttempts: nat)
    requires RemovalsStand(inv) && t in inv.outbox
    ensures RemovalsStand(FailTransition(inv, t, maxAttempts))
  {
    NoNewRemovals(inv, FailTransition(inv, t, maxAttempts));
  }

  lemma PublishStands(inv: Inventory, t: TransitionId, maxAttempts: nat)
    requires Base(inv) && RemovalsStand(inv) && EarliestPending(inv, t)
    ensures RemovalsStand(RunStep(inv, Publish(t, maxAttempts)))
  {
    match PublishTransition(inv, t)
    case Ok(next) =>
      InventoryRuns.PublishOutcome(inv, t, next);
      PublishedStands(inv, t, next);
    case Err(_) => FailedStands(inv, t, maxAttempts);
  }

  lemma StepStands(inv: Inventory, step: Step)
    requires Base(inv) && RemovalsStand(inv)
    ensures RemovalsStand(RunStep(inv, step))
  {
    match step
    case Item(s) => ItemStands(inv, s);
    case Publish(t, maxAttempts) =>
      if EarliestPending(inv, t) {
        PublishStands(inv, t, maxAttempts);
      }
    case Rebuild(a, b, c, d) => RebuildStands(inv, a, b, c, d);
  }

  lemma {:induction false} RunStands(inv: Inventory, steps: seq<Step>)
    requires Base(inv) && RemovalsStand(inv)
    ensures RemovalsStand(Run(inv, steps))
    decreases |steps|
  {
    if steps != [] {
      InventoryRuns.StepKeepsBase(inv, steps[0]);
      StepStands(inv, steps[0]);
      RunStands(RunStep(inv, steps[0]), steps[1..]);
    }
  }

  /**
   In every reachable state each accepted removal is backed by the last row of its item, which
   took one unit from a bucket of the requested store at the time of the event; the item is
   removed by this event, and by no other.
   */
  lemma ReachableRemovals(zones: map<ZoneId, StoreId>, steps: seq<Step>)
    ensures RemovalsStand(Run(Initial(zones), steps))
  {
    InventoryRuns.InitialInvariant(zones);
    RunStands(Initial(zones), steps);
  }

  /**
   In every reachable state an accepted removal shows as projected exactly when its row was applied
   or reconciled, as failed exactly when the row is quarantined, and as pending otherwise.
   */
  lemma ReachableStatus(zones: map<ZoneId, StoreId>, steps: seq<Step>, k: ExternalKey)
    requires k in Run(Initial(zones), steps).events
    ensures
      var inv := Run(Initial(zones), steps);
      var e := inv.events[k];
      && e.transition in inv.outbox
      && BusinessEventStatus(inv, e) ==
         if inv.outbox[e.transition].phase in {Published, Reconciled} then Projected
         else if inv.outbox[e.transition].phase == Quarantined then Failed
         else PendingProjection
  {
    ReachableRemovals(zones, steps);
    assert Taken(Run(Initial(zones), steps), k);
  }
}
