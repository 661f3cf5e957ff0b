/**
 What one admitted read does to its item, said by the fields of the item, the read and the
 decision: when the item moves, when it is confirmed where it is, and when nothing is settled.
 */
module Readings {
  import opened Basics
  import opened Observations
  import opened StableZones
  import opened Inventories

  ghost predicate IsLatest(t: Time, times: set<Time>) { t in times && forall u :: u in times ==> u <= t }

  ghost predicate IsLowest(x: real, values: set<real>) { x in values && forall y :: y in values ==> x <= y }

  ghost predicate IsHighest(x: real, values: set<real>) { x in values && forall y :: y in values ==> y <= x }

  /** Something known of the item, or a processed read of it, is later than this. */
  predicate Outdated(inv: Inventory, r: Reading, at: Time) {
    || (r.epc in inv.items && at < inv.items[r.epc].lastObservedAt)
    || (r.processedWatermark.Some? && at < r.processedWatermark.value)
  }

  predicate Settles(inv: Inventory, r: Reading) {
    r.decision.Some? && !Outdated(inv, r, r.decision.value.observedAt)
  }

  /** The item is already known to be where the decision puts it, under the same SKU. */
  predicate InPlace(inv: Inventory, r: Reading, d: Decision) {
    r.epc in inv.items && inv.items[r.epc].sku == r.sku && inv.items[r.epc].location == Some(d.location)
  }

  /** Last-seen times are refreshed only when the flush distance has passed since the last refresh. */
  predicate Flushes(s: ItemState, r: Reading, flush: nat) { flush <= r.receivedAt - s.lastReceivedAt }

  /** The reads in the window are all from where the item is, under its SKU: nothing speaks against it. */
  predicate Agrees(s: ItemState, r: Reading) {
    s.sku == r.sku && s.location.Some? && r.locations == {s.location.value}
  }

  /** Neither place, SKU, version nor removal changes. */
  predicate Stays(s: ItemState, s': ItemState) {
    s'.sku == s.sku && s'.location == s.location && s'.version == s.version && s'.removal == s.removal
  }

  ghost predicate TableStays(inv: Inventory, next: Inventory, epc: Epc) {
    && next.items.Keys == inv.items.Keys && (forall e :: e in inv.items && e != epc ==> next.items[e] == inv.items[e])
    && next.outbox == inv.outbox && next.zones == inv.zones && next.projection == inv.projection
    && next.applied == inv.applied && next.events == inv.events
  }

  /** Ambiguous: confidence drops below one half unless the reads agree with what is known. */
  ghost predicate LeftOpen(s: ItemState, s': ItemState, r: Reading, flush: nat) {
    && Stays(s, s')
    && (if r.decision.None? && Agrees(s, r) then s'.confidence == s.confidence
        else IsLowest(s'.confidence, {s.confidence, 0.49}))
    && (if Flushes(s, r, flush) then
          IsLatest(s'.lastObservedAt, {s.lastObservedAt, r.observedAt}) && s'.lastReceivedAt == r.receivedAt
        else s'.lastObservedAt == s.lastObservedAt && s'.lastReceivedAt == s.lastReceivedAt)
  }

  /** Confirmed where it is: confidence recovers at once and may fall only when times are refreshed. */
  ghost predicate ConfirmedThere(s: ItemState, s': ItemState, r: Reading, d: Decision, flush: nat) {
    && Stays(s, s')
    && (if Flushes(s, r, flush) then
          && s'.confidence == d.confidence
          && IsLatest(s'.lastObservedAt, {s.lastObservedAt, d.observedAt, r.observedAt})
          && IsLatest(s'.lastReceivedAt, {s.lastReceivedAt, d.receivedAt})
        else
          && IsHighest(s'.confidence, {s.confidence, d.confidence})
          && s'.lastObservedAt == s.lastObservedAt && s'.lastReceivedAt == s.lastReceivedAt)
  }

  /** Moved: a new state and one pending row; nothing else in the tables changes. */
  ghost predicate MovedTo(inv: Inventory, next: Inventory, r: Reading, d: Decision) {
    var known := if r.epc in inv.items then Some(inv.items[r.epc]) else None;
    var t := TransitionId(r.epc, if known.Some? then known.value.version + 1 else 1);
    && r.epc in next.items && t in next.outbox
    && next.items == inv.items[r.epc := next.items[r.epc]] && next.outbox == inv.outbox[t := next.outbox[t]]
    && next.zones == inv.zones && next.projection == inv.projection && next.applied == inv.applied
    && next.events == inv.events
    && Arrived(next.items[r.epc], r, d) && next.items[r.epc].version == t.version
    && next.items[r.epc].removal == (if known.Some? then known.value.removal else None)
    && next.outbox[t].phase == Pending && next.outbox[t].attempts == 0
    && Carries(next.outbox[t].deltas, known, r.sku, d)
  }

  ghost predicate Arrived(s: ItemState, r: Reading, d: Decision) {
    && s.sku == r.sku && s.location == Some(d.location) && s.confidence == d.confidence
    && IsLatest(s.lastObservedAt, {r.observedAt, d.observedAt})
    && IsLatest(s.lastReceivedAt, {r.receivedAt, d.receivedAt})
  }

  /** One unit leaves where the item was, under the SKU it had there, and one arrives where it is. */
  ghost predicate Carries(deltas: seq<Delta>, known: Option<ItemState>, sku: SkuId, d: Decision) {
    var n := |deltas|;
    && n == (if known.Some? && known.value.location.Some? then 2 else 1)
    && deltas[n - 1].quantity == 1 && deltas[n - 1].bucket == Bucket(d.location, sku)
    && (n == 2 ==>
          deltas[0].quantity == -1 && deltas[0].bucket == Bucket(known.value.location.value, known.value.sku))
    && forall i :: 0 <= i < n ==> deltas[i].observedAt == d.observedAt && deltas[i].confidence == d.confidence
  }

  lemma LatestOfTwo(a: Time, b: Time)
    ensures IsLatest(Max(a, b), {a, b})
  {
  }

  lemma MovesAs(inv: Inventory, r: Reading, d: Decision)
    ensures MovedTo(inv, MoveItem(inv, r, d), r, d)
  {
    LatestOfTwo(r.observedAt, d.observedAt);
    LatestOfTwo(r.receivedAt, d.receivedAt);
  }

  lemma LeavesOpen(s: ItemState, r: Reading, flush: nat)
    ensures LeftOpen(s, Unsettled(s, r, !(r.decision.None? && Agrees(s, r)), flush), r, flush)
  {
    LatestOfTwo(s.lastObservedAt, r.observedAt);
  }

  lemma ConfirmsThere(s: ItemState, r: Reading, d: Decision, flush: nat)
    ensures ConfirmedThere(s, Confirmed(s, r, d, flush), r, d, flush)
  {
    LatestOfTwo(s.lastReceivedAt, d.receivedAt);
  }

  /** Left open, confirmed or moved, exactly under these conditions. */
  ghost predicate ConcludedAs(inv: Inventory, next: Inventory, disposition: Disposition, r: Reading, flush: nat) {
    if !Settles(inv, r) then
      && disposition == Ambiguous && TableStays(inv, next, r.epc)
      && (r.epc in inv.items ==> LeftOpen(inv.items[r.epc], next.items[r.epc], r, flush))
    else if InPlace(inv, r, r.decision.value) then
      && disposition == Processed && TableStays(inv, next, r.epc)
      && ConfirmedThere(inv.items[r.epc], next.items[r.epc], r, r.decision.value, flush)
    else disposition == Processed && MovedTo(inv, next, r, r.decision.value)
  }

  lemma ConcludesAs(inv: Inventory, r: Reading, flush: nat)
    ensures ConcludedAs(inv, Conclude(inv, r, flush).0, Conclude(inv, r, flush).1, r, flush)
  {
    if !Settles(inv, r) {
      StaysOpen(inv, r, flush);
    } else if InPlace(inv, r, r.decision.value) {
      StaysThere(inv, r, flush);
    } else {
      OutdatedIsBefore(inv, r, r.decision.value.observedAt);
      MovesAs(inv, r, r.decision.value);
    }
  }

  lemma StaysOpen(inv: Inventory, r: Reading, flush: nat)
    requires !Settles(inv, r)
    ensures
      var (next, disposition) := Conclude(inv, r, flush);
      && disposition == Ambiguous && TableStays(inv, next, r.epc)
      && (r.epc in inv.items ==> LeftOpen(inv.items[r.epc], next.items[r.epc], r, flush))
  {
    if r.decision.Some? {
      OutdatedIsBefore(inv, r, r.decision.value.observedAt);
    }
    if r.epc in inv.items {
      LeavesOpen(inv.items[r.epc], r, flush);
    }
  }

  lemma StaysThere(inv: Inventory, r: Reading, flush: nat)
    requires Settles(inv, r) && InPlace(inv, r, r.decision.value)
    ensures
      var (next, disposition) := Conclude(inv, r, flush);
      && disposition == Processed && TableStays(inv, next, r.epc)
      && ConfirmedThere(inv.items[r.epc], next.items[r.epc], r, r.decision.value, flush)
  {
    OutdatedIsBefore(inv, r, r.decision.value.observedAt);
    ConfirmsThere(inv.items[r.epc], r, r.decision.value, flush);
  }

  lemma OutdatedIsBefore(inv: Inventory, r: Reading, at: Time)
    ensures Before(at, Watermark(inv, r.epc, r.processedWatermark)) <==> Outdated(inv, r, at)
  {
  }

  /** A read that is outdated itself, or of a removed item, changes nothing. */
  lemma ObservesAs(inv: Inventory, r: Reading, flush: nat)
    ensures
      if Outdated(inv, r, r.observedAt) then Observe(inv, r, flush) == (inv, Late)
      else if r.epc in inv.items && inv.items[r.epc].removal.Some? then
        Observe(inv, r, flush) == (inv, RemovedItemObserved)
      else Observe(inv, r, flush) == Conclude(inv, r, flush)
  {
    OutdatedIsBefore(inv, r, r.observedAt);
  }
}
