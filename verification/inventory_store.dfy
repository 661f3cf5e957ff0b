/**
 The imperative side of the inventory tables: rows are changed field by field and bucket by
 bucket. Work done before a commit is kept in local variables, so an error leaves the
 tables as they were.
 */
module InventoryStores {
  import opened Basics
  import opened Observations
  import opened StableZones
  import opened FiniteSums
  import opened Inventories

  class InventoryStore {
    const zones: map<ZoneId, StoreId>
    var items: map<Epc, ItemState>
    var outbox: map<TransitionId, Transition>
    var projection: map<Bucket, nat>
    var applied: set<DeltaId>
    var events: map<ExternalKey, BusinessEvent>

    constructor (zones: map<ZoneId, StoreId>)
      ensures View() == Initial(zones)
    {
      this.zones := zones;
      items, outbox, projection, applied, events := map[], map[], map[], {}, map[];
    }

    function View(): Inventory
      reads this
    {
      Inventory(zones, items, outbox, projection, applied, events)
    }

    /** Undo everything since the transaction began. */
    method Rollback(saved: Inventory)
      requires saved.zones == zones
      modifies this
      ensures View() == saved
    {
      items, outbox, projection := saved.items, saved.outbox, saved.projection;
      applied, events := saved.applied, saved.events;
    }

    method ConcludeObservation(r: Reading, flush: nat) returns (disposition: Disposition)
      modifies this
      ensures (View(), disposition) == Conclude(old(View()), r, flush)
    {
      var watermark := Watermark(View(), r.epc, r.processedWatermark);
      var known := r.epc in items;
      if r.decision.None? {
        if known {
          var state := items[r.epc];
          var sameCurrentEvidence :=
            state.sku == r.sku && state.location.Some? && r.locations == {state.location.value};
          if !sameCurrentEvidence {
            state := state.(confidence := MinReal(state.confidence, AMBIGUOUS_CONFIDENCE));
          }
          if r.receivedAt - state.lastReceivedAt >= flush {
            state := state.(lastObservedAt := Max(state.lastObservedAt, r.observedAt));
            state := state.(lastReceivedAt := r.receivedAt);
          }
          items := items[r.epc := state];
        }
        return Ambiguous;
      }
      var d := r.decision.value;
      if Before(d.observedAt, watermark) {
        if known {
          var state := items[r.epc];
          state := state.(confidence := MinReal(state.confidence, AMBIGUOUS_CONFIDENCE));
          if r.receivedAt - state.lastReceivedAt >= flush {
            state := state.(lastObservedAt := Max(state.lastObservedAt, r.observedAt));
            state := state.(lastReceivedAt := r.receivedAt);
          }
          items := items[r.epc := state];
        }
        return Ambiguous;
      }
      if known && items[r.epc].sku == r.sku && items[r.epc].location == Some(d.location) {
        var state := items[r.epc];
        if d.confidence > state.confidence {
          state := state.(confidence := d.confidence);
        }
        if r.receivedAt - state.lastReceivedAt >= flush {
          state := state.(lastObservedAt := Max(state.lastObservedAt, Max(d.observedAt, r.observedAt)));
          state := state.(lastReceivedAt := Max(state.lastReceivedAt, d.receivedAt));
          state := state.(confidence := d.confidence);
        }
        items := items[r.epc := state];
        return Processed;
      }
      var nextVersion := if known then items[r.epc].version + 1 else 1;
      var t := TransitionId(r.epc, nextVersion);
      var plus := DeltaFor(t, Bucket(d.location, r.sku), 1, d.confidence, d.observedAt);
      var deltas := [plus];
      if known && items[r.epc].location.Some? {
        var left := Bucket(items[r.epc].location.value, items[r.epc].sku);
        deltas := [DeltaFor(t, left, -1, d.confidence, d.observedAt), plus];
      }
      var watermarkObserved := Max(r.observedAt, d.observedAt);
      var watermarkReceived := Max(r.receivedAt, d.receivedAt);
      if !known {
        items := items[r.epc :=
          ItemState(r.sku, Some(d.location), watermarkObserved, watermarkReceived, d.confidence, nextVersion, None)];
      } else {
        items := items[r.epc := items[r.epc].(
          sku := r.sku,
          location := Some(d.location),
          lastObservedAt := watermarkObserved,
          lastReceivedAt := watermarkReceived,
          confidence := d.confidence,
          version := nextVersion)];
      }
      outbox := outbox[t := Transition(t, deltas, Pending, 0)];
      return Processed;
    }

    method AcceptAuthoritativeRemoval(
      q: RemovalRequest, stores: set<StoreId>, eventId: int, processed: Option<Time>, now: Time, maxFutureSkew: nat)
      returns (r: Result<(BusinessEvent, bool), RemovalError>)
      modifies this
      ensures
        match AcceptRemoval(old(View()), q, stores, eventId, processed, now, maxFutureSkew)
        case Ok((next, event, created)) => View() == next && r == Ok((event, created))
        case Err(e) => View() == old(View()) && r == Err(e)
    {
      if q.store !in stores {
        return Err(StoreNotFound);
      }
      if q.occurredAt > now + maxFutureSkew {
        return Err(TooFarInFuture);
      }
      if q.key in events {
        if events[q.key].fingerprint != q.fingerprint {
          return Err(IdempotencyConflict);
        }
        return Ok((events[q.key], false));
      }
      if q.epc !in items {
        return Err(ItemNotFound);
      }
      var state := items[q.epc];
      if state.removal.Some? {
        return Err(AlreadyRemoved);
      }
      if state.location.None? {
        return Err(LocationUnavailable);
      }
      if state.location.value.store != q.store {
        return Err(StoreMismatch);
      }
      var durable := if processed.Some? then Max(processed.value, state.lastObservedAt) else state.lastObservedAt;
      if q.occurredAt < durable {
        return Err(StaleEvent);
      }
      var t := TransitionId(q.epc, state.version + 1);
      var delta := DeltaFor(t, Bucket(state.location.value, state.sku), -1, state.confidence, q.occurredAt);
      outbox := outbox[t := Transition(t, [delta], Pending, 0)];
      var event := BusinessEvent(eventId, q.fingerprint, q.store, q.epc, q.occurredAt, t);
      events := events[q.key := event];
      state := state.(location := None);
      state := state.(version := t.version);
      state := state.(removal := Some(Removal(eventId, q.occurredAt)));
      items := items[q.epc := state];
      return Ok((event, true));
    }

    /** Deduplicate, combine per bucket, and upsert: one consumer batch, all or nothing. */
    method ApplyInventoryDeltas(deltas: seq<Delta>) returns (r: Result<nat, DeltaError>)
      modifies this
      ensures
        match ApplyDeltas(old(View()), deltas)
        case Ok((next, n)) => View() == next && r == Ok(n)
        case Err(e) => View() == old(View()) && r == Err(e)
    {
      var unique := CollectById(deltas);
      var pending := map id | id in unique && id !in applied :: unique[id];
      assert pending == Unapplied(View(), deltas);
      var grouped := GroupByBucket(pending);
      var moved := UpsertBuckets(projection, grouped);
      UpsertIsMoved(View(), pending, grouped, moved);
      if moved.Err? {
        return Err(moved.error);
      }
      projection := moved.value;
      applied := applied + pending.Keys;
      return Ok(|pending|);
    }

    /** One projection row per occupied bucket, counted from the item states. */
    method RebuildInventoryProjection() returns (rebuilt: bool)
      modifies this
      ensures rebuilt == !HasPending(old(View()))
      ensures View() == RunRebuild(old(View()), [], [], [], []).0
    {
      var pending := set t | t in outbox && outbox[t].phase == Pending;
      if pending != {} {
        var t :| t in pending;
        assert IsPending(View(), t);
        return false;
      }
      assert forall t :: IsPending(View(), t) ==> t in pending;
      assert !HasPending(View());
      AtomicRebuild(View());
      projection := CountItems(View());
      outbox := map t | t in outbox :: if outbox[t].phase == Quarantined then outbox[t].(phase := Reconciled)
          else outbox[t];
      return true;
    }
  }

  /** A rebuild that nothing interleaves with. */
  lemma AtomicRebuild(inv: Inventory)
    requires !HasPending(inv)
    ensures RunRebuild(inv, [], [], [], []).0 == Reconcile(inv).(projection := CountedProjection(inv))
  {
  }

  /** The last delta of each id. */
  method CollectById(deltas: seq<Delta>) returns (unique: map<DeltaId, Delta>)
    ensures unique == UniqueById(deltas)
  {
    unique := map[];
    for i := 0 to |deltas|
      invariant unique == UniqueById(deltas[..i])
    {
      assert deltas[..i + 1][..i] == deltas[..i];
      unique := unique[deltas[i].id := deltas[i]];
    }
    assert deltas[..|deltas|] == deltas;
  }

  /** Totals of exactly the buckets that occur. */
  ghost predicate IsGrouping(grouped: map<Bucket, int>, deltas: map<DeltaId, Delta>) {
    && grouped.Keys == BucketsOf(deltas)
    && forall b :: b in grouped ==> grouped[b] == BucketTotal(deltas, b)
  }

  lemma GroupOneMore(grouped: map<Bucket, int>, done: map<DeltaId, Delta>, id: DeltaId, d: Delta)
    requires IsGrouping(grouped, done) && id !in done
    ensures IsGrouping(
              grouped[d.bucket := (if d.bucket in grouped then grouped[d.bucket] else 0) + d.quantity],
              done[id := d])
  {
    var next := grouped[d.bucket := (if d.bucket in grouped then grouped[d.bucket] else 0) + d.quantity];
    BucketsOfOneMore(done, id, d);
    if d.bucket !in grouped {
      MapSumZero(done, QuantityIn(d.bucket));
    }
    forall b | b in next
      ensures next[b] == BucketTotal(done[id := d], b)
    {
      MapSumInsert(done, QuantityIn(b), id, d);
    }
  }

  lemma BucketsOfOneMore(done: map<DeltaId, Delta>, id: DeltaId, d: Delta)
    requires id !in done
    ensures BucketsOf(done[id := d]) == BucketsOf(done) + {d.bucket}
  {
    forall b | b in BucketsOf(done)
      ensures b in BucketsOf(done[id := d])
    {
      var i :| i in done && done[i].bucket == b;
      assert done[id := d][i].bucket == b;
    }
    assert done[id := d][id].bucket == d.bucket;
  }

  /** Sum the deltas of each bucket. */
  method GroupByBucket(pending: map<DeltaId, Delta>) returns (grouped: map<Bucket, int>)
    ensures IsGrouping(grouped, pending)
  {
    grouped := map[];
    var todo := pending.Keys;
    ghost var done: map<DeltaId, Delta> := map[];
    while todo != {}
      invariant todo <= pending.Keys && done.Keys == pending.Keys - todo
      invariant forall id :: id in done ==> done[id] == pending[id]
      invariant IsGrouping(grouped, done)
      decreases todo
    {
      var id := Pick(todo);
      var d := pending[id];
      GroupOneMore(grouped, done, id, d);
      grouped := grouped[d.bucket := (if d.bucket in grouped then grouped[d.bucket] else 0) + d.quantity];
      done := done[id := d];
      todo := todo - {id};
    }
    MapsEqual(done, pending);
  }

  function QuantityOf(rows: map<Bucket, nat>, b: Bucket): nat { if b in rows then rows[b] else 0 }

  /** Rows in which exactly the buckets of some keys have been moved by their totals. */
  ghost predicate MovedFor(
    rows: map<Bucket, nat>, grouped: map<Bucket, int>, keys: set<Bucket>, moved: map<Bucket, nat>)
    requires keys <= grouped.Keys
  {
    && moved.Keys == rows.Keys + keys
    && (forall b :: b in keys ==> moved[b] == QuantityOf(rows, b) + grouped[b])
    && (forall b :: b in rows && b !in keys ==> moved[b] == rows[b])
  }

  lemma MovedOneMore(
    rows: map<Bucket, nat>, grouped: map<Bucket, int>, keys: set<Bucket>, moved: map<Bucket, nat>, b: Bucket)
    requires keys <= grouped.Keys && b in grouped && b !in keys && MovedFor(rows, grouped, keys, moved)
    requires 0 <= QuantityOf(rows, b) + grouped[b]
    ensures MovedFor(rows, grouped, keys + {b}, moved[b := QuantityOf(rows, b) + grouped[b]])
    ensures b in moved <==> b in rows
    ensures b in moved ==> moved[b] == rows[b]
  {
  }

  /** Add one total to its row, creating the row if it is missing. */
  method UpsertBucket(rows: map<Bucket, nat>, b: Bucket, delta: int)
    returns (r: Result<map<Bucket, nat>, DeltaError>)
    ensures r == if QuantityOf(rows, b) + delta < 0 then Err(NegativeProjection)
                 else Ok(rows[b := QuantityOf(rows, b) + delta])
  {
    if b !in rows {
      if delta < 0 {
        return Err(NegativeProjection);
      }
      return Ok(rows[b := delta]);
    }
    var nextQuantity := rows[b] + delta;
    if nextQuantity < 0 {
      return Err(NegativeProjection);
    }
    return Ok(rows[b := nextQuantity]);
  }

  method UpsertBuckets(rows: map<Bucket, nat>, grouped: map<Bucket, int>)
    returns (r: Result<map<Bucket, nat>, DeltaError>)
    ensures r.Err? <==> exists b :: b in grouped && QuantityOf(rows, b) + grouped[b] < 0
    ensures r.Err? ==> r.error == NegativeProjection
    ensures r.Ok? ==> MovedFor(rows, grouped, grouped.Keys, r.value)
  {
    var moved: map<Bucket, nat> := rows;
    var done: set<Bucket> := {};
    while done != grouped.Keys
      invariant done <= grouped.Keys
      invariant MovedFor(rows, grouped, done, moved)
      decreases grouped.Keys - done
    {
      var b := Pick(grouped.Keys - done);
      var next := UpsertBucket(moved, b, grouped[b]);
      assert QuantityOf(moved, b) == QuantityOf(rows, b);
      if next.Err? {
        return next;
      }
      MovedOneMore(rows, grouped, done, moved, b);
      moved := next.value;
      done := done + {b};
    }
    AllNonNegative(rows, grouped, moved);
    return Ok(moved);
  }

  lemma AllNonNegative(rows: map<Bucket, nat>, grouped: map<Bucket, int>, moved: map<Bucket, nat>)
    requires MovedFor(rows, grouped, grouped.Keys, moved)
    ensures forall b :: b in grouped ==> 0 <= QuantityOf(rows, b) + grouped[b]
  {
  }

  lemma UpsertIsMoved(
    inv: Inventory, pending: map<DeltaId, Delta>, grouped: map<Bucket, int>,
    moved: Result<map<Bucket, nat>, DeltaError>)
    requires IsGrouping(grouped, pending)
    requires moved.Err? <==> exists b :: b in grouped && QuantityOf(inv.projection, b) + grouped[b] < 0
    requires moved.Ok? ==> MovedFor(inv.projection, grouped, grouped.Keys, moved.value)
    ensures moved.Ok? <==> StaysNonNegative(inv, pending)
    ensures moved.Ok? ==> moved.value == MovedProjection(inv, pending)
  {
  }

  /** Group the located items by bucket. */
  method CountItems(inv: Inventory) returns (counts: map<Bucket, nat>)
    ensures counts == CountedProjection(inv)
  {
    counts := map[];
    var done: map<Epc, ItemState> := map[];
    while done.Keys != inv.items.Keys
      invariant done.Keys <= inv.items.Keys
      invariant forall epc :: epc in done ==> done[epc] == inv.items[epc]
      invariant counts == CountedProjection(inv.(items := done))
      decreases inv.items.Keys - done.Keys
    {
      SomeRemain(inv.items.Keys, done.Keys);
      var epc := Pick(inv.items.Keys - done.Keys);
      CountOneMore(inv.(items := done), epc, inv.items[epc]);
      var place := BucketOf(inv.items[epc]);
      if place.Some? {
        counts := counts[place.value := (if place.value in counts then counts[place.value] else 0) + 1];
      }
      done := done[epc := inv.items[epc]];
    }
    assert forall epc :: epc in done ==> epc in inv.items && done[epc] == inv.items[epc];
    MapsEqual(done, inv.items);
    assert inv.(items := done) == inv;
  }

  lemma LocatedOneMore(inv: Inventory, epc: Epc, s: ItemState, b: Bucket)
    requires epc !in inv.items
    ensures
      var next := inv.(items := inv.items[epc := s]);
      && LocatedAt(next, b) == LocatedAt(inv, b) + (if BucketOf(s) == Some(b) then 1 else 0)
      && (b in OccupiedBuckets(inv.items) <==> LocatedAt(inv, b) > 0)
      && (b in OccupiedBuckets(next.items) <==> LocatedAt(next, b) > 0)
  {
    var next := inv.(items := inv.items[epc := s]);
    MapSumInsert(inv.items, CountIn(b), epc, s);
    OccupiedIsPositive(inv, b);
    OccupiedIsPositive(next, b);
  }

  lemma CountOneMore(inv: Inventory, epc: Epc, s: ItemState)
    requires epc !in inv.items
    ensures
      var next := inv.(items := inv.items[epc := s]);
      CountedProjection(next) ==
      match BucketOf(s)
      case None => CountedProjection(inv)
      case Some(b) => CountedProjection(inv)[b := LocatedAt(inv, b) + 1]
    ensures forall b :: b !in OccupiedBuckets(inv.items) ==> LocatedAt(inv, b) == 0
  {
    var next := inv.(items := inv.items[epc := s]);
    forall b
      ensures LocatedAt(next, b) == LocatedAt(inv, b) + (if BucketOf(s) == Some(b) then 1 else 0)
      ensures b in OccupiedBuckets(inv.items) <==> LocatedAt(inv, b) > 0
      ensures b in OccupiedBuckets(next.items) <==> LocatedAt(next, b) > 0
    {
      LocatedOneMore(inv, epc, s, b);
    }
    var expected :=
      match BucketOf(s)
      case None => CountedProjection(inv)
      case Some(b) => CountedProjection(inv)[b := LocatedAt(inv, b) + 1];
    MapsEqual(CountedProjection(next), expected);
  }
}
