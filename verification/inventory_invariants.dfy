/**
 What every transaction on the inventory tables keeps, and what follows over whole runs:
 the outbox rows of an EPC are a gap-free chain, every applied delta belongs to a published
 row, and the projection is the sum of the settled rows - hence projection, pending and
 quarantined deltas together always equal the item count.
 */
module InventoryInvariants {
  import opened Basics
  import opened Observations
  import opened StableZones
  import opened FiniteSums
  import opened Inventories

  // ----- Shape of one outbox row -----

  ghost predicate Sided(inv: Inventory, t: TransitionId, deltas: seq<Delta>) {
    && 1 <= |deltas| <= 2
    && (forall i :: 0 <= i < |deltas| ==>
          && deltas[i].transition == t
          && deltas[i].epc == t.epc
          && deltas[i].id == DeltaId(t, deltas[i].bucket.sku, deltas[i].bucket.location.zone)
          && KnownLocation(inv, deltas[i].bucket.location)
          && deltas[i].observedAt == deltas[0].observedAt)
    && (|deltas| == 1 ==> deltas[0].quantity == 1 || deltas[0].quantity == -1)
    && (|deltas| == 2 ==> deltas[0].quantity == -1 && deltas[1].quantity == 1 && deltas[0].bucket != deltas[1].bucket)
  }

  /** The bucket an item leaves by a transition. */
  function From(row: Transition): Option<Bucket> {
    if row.deltas != [] && row.deltas[0].quantity == -1 then Some(row.deltas[0].bucket) else None
  }

  /** The bucket an item enters by a transition. */
  function To(row: Transition): Option<Bucket> {
    if row.deltas != [] && row.deltas[|row.deltas| - 1].quantity == 1
    then Some(row.deltas[|row.deltas| - 1].bucket) else None
  }

  function TimeOf(row: Transition): Time
    requires row.deltas != []
  {
    row.deltas[0].observedAt
  }

  function DeltaSum(deltas: seq<Delta>, b: Bucket): int {
    if deltas == [] then 0
    else DeltaSum(deltas[..|deltas| - 1], b) +
         (if deltas[|deltas| - 1].bucket == b then deltas[|deltas| - 1].quantity else 0)
  }

  function At(place: Option<Bucket>, b: Bucket): int { if place == Some(b) then 1 else 0 }

  lemma SidedSum(inv: Inventory, row: Transition, b: Bucket)
    requires Sided(inv, row.id, row.deltas)
    ensures DeltaSum(row.deltas, b) == At(To(row), b) - At(From(row), b)
  {
    if |row.deltas| == 1 {
      assert row.deltas[..0] == [];
    } else {
      var first := [row.deltas[0]];
      assert row.deltas[..1] == first;
      assert first[..0] == [];
      assert DeltaSum(first, b) == if first[0].bucket == b then -1 else 0;
    }
  }

  // ----- The invariant -----

  /** The outbox versions of each item are exactly 1..version. */
  ghost predicate Versioned(inv: Inventory) {
    && (forall t {:trigger t in inv.outbox} ::
          t in inv.outbox <==> t.epc in inv.items && 1 <= t.version <= inv.items[t.epc].version)
    && (forall t {:trigger inv.outbox[t]} :: t in inv.outbox ==> inv.outbox[t].id == t)
  }

  /** Each row leaves where the row before arrived, and its time is not earlier. */
  ghost predicate Linked(inv: Inventory, t: TransitionId)
    requires t in inv.outbox
  {
    && Sided(inv, t, inv.outbox[t].deltas)
    && if t.version <= 1 then From(inv.outbox[t]) == None
       else
         var before := TransitionId(t.epc, t.version - 1);
         && before in inv.outbox
         && From(inv.outbox[t]) == To(inv.outbox[before])
         && inv.outbox[before].deltas != []
         && TimeOf(inv.outbox[before]) <= TimeOf(inv.outbox[t])
  }

  ghost predicate Chained(inv: Inventory) {
    forall t {:trigger Linked(inv, t)} :: t in inv.outbox ==> Linked(inv, t)
  }

  /** The current state of an item is where its last transition put it. */
  ghost predicate ItemSettled(inv: Inventory, epc: Epc)
    requires epc in inv.items
  {
    var s := inv.items[epc];
    var last := TransitionId(epc, s.version);
    && 1 <= s.version
    && last in inv.outbox && inv.outbox[last].deltas != []
    && To(inv.outbox[last]) == BucketOf(s)
    && (s.removal.None? ==> TimeOf(inv.outbox[last]) <= s.lastObservedAt)
    && (s.removal.Some? ==> s.location.None?)
  }

  ghost predicate ItemsSettled(inv: Inventory) {
    forall epc {:trigger ItemSettled(inv, epc)} :: epc in inv.items ==> ItemSettled(inv, epc)
  }

  /** A delta id is recorded as applied exactly when its row is published. */
  ghost predicate RowApplied(inv: Inventory, t: TransitionId)
    requires t in inv.outbox
  {
    forall d :: d in inv.outbox[t].deltas ==> (d.id in inv.applied <==> inv.outbox[t].phase == Published)
  }

  ghost predicate AppliedExactly(inv: Inventory) {
    && (forall t {:trigger RowApplied(inv, t)} :: t in inv.outbox ==> RowApplied(inv, t))
    && (forall d {:trigger d in inv.applied} :: d in inv.applied ==> d.transition in inv.outbox)
  }

  /** Rows are settled in version order: the pending rows of an EPC are its newest ones. */
  ghost predicate SettledInOrder(inv: Inventory, u: TransitionId, t: TransitionId)
    requires t in inv.outbox && u in inv.outbox
  {
    t.epc == u.epc && u.version < t.version && inv.outbox[u].phase == Pending ==> inv.outbox[t].phase == Pending
  }

  ghost predicate PendingLast(inv: Inventory) {
    forall t, u {:trigger SettledInOrder(inv, u, t)} ::
      t in inv.outbox && u in inv.outbox ==> SettledInOrder(inv, u, t)
  }

  ghost predicate EventsBacked(inv: Inventory) {
    forall k :: k in inv.events ==> inv.events[k].transition in inv.outbox
  }

  ghost predicate Base(inv: Inventory) {
    && Versioned(inv) && Chained(inv) && ItemsSettled(inv)
    && AppliedExactly(inv) && PendingLast(inv) && EventsBacked(inv)
  }

  predicate Settled(phase: Phase) { phase == Published || phase == Reconciled }

  ghost function AllIn(b: Bucket): (TransitionId, Transition) -> int {
    (t: TransitionId, row: Transition) => DeltaSum(row.deltas, b)
  }

  ghost function SettledIn(b: Bucket): (TransitionId, Transition) -> int {
    (t: TransitionId, row: Transition) => if Settled(row.phase) then DeltaSum(row.deltas, b) else 0
  }

  ghost function OpenIn(b: Bucket): (TransitionId, Transition) -> int {
    (t: TransitionId, row: Transition) => if Settled(row.phase) then 0 else DeltaSum(row.deltas, b)
  }

  ghost function SettledAt(inv: Inventory, b: Bucket): int { MapSum(inv.outbox, SettledIn(b)) }

  /** Deltas not in the projection: pending rows and quarantined rows not yet reconciled. */
  ghost function OpenAt(inv: Inventory, b: Bucket): int { MapSum(inv.outbox, OpenIn(b)) }

  /** The projection is exactly the settled part of the outbox. */
  ghost predicate Balanced(inv: Inventory) {
    forall b :: StockAt(inv, b) == SettledAt(inv, b)
  }

  ghost predicate Invariant(inv: Inventory) {
    Base(inv) && Balanced(inv)
  }

  /** Projection plus what is still to be applied equals the item count, bucket by bucket. */
  ghost predicate Conserved(inv: Inventory) {
    forall b :: StockAt(inv, b) + OpenAt(inv, b) == LocatedAt(inv, b)
  }

  // ----- All deltas of all rows add up to the item count -----

  ghost function VersionSum(
    outbox: map<TransitionId, Transition>, f: (TransitionId, Transition) -> int, epc: Epc, n: nat): int
  {
    if n == 0 then 0
    else
      var t := TransitionId(epc, n);
      VersionSum(outbox, f, epc, n - 1) + (if t in outbox then f(t, outbox[t]) else 0)
  }

  ghost function PerItem(outbox: map<TransitionId, Transition>, f: (TransitionId, Transition) -> int)
    : (Epc, ItemState) -> int
  {
    (epc: Epc, s: ItemState) => VersionSum(outbox, f, epc, s.version)
  }

  function Without(outbox: map<TransitionId, Transition>, epc: Epc, n: nat): map<TransitionId, Transition> {
    map t | t in outbox && !(t.epc == epc && 1 <= t.version <= n) :: outbox[t]
  }

  lemma {:induction false} TakeVersions(
    outbox: map<TransitionId, Transition>, f: (TransitionId, Transition) -> int, epc: Epc, n: nat)
    ensures MapSum(outbox, f) == VersionSum(outbox, f, epc, n) + MapSum(Without(outbox, epc, n), f)
  {
    if n == 0 {
      assert Without(outbox, epc, 0) == outbox;
    } else {
      TakeVersions(outbox, f, epc, n - 1);
      var t := TransitionId(epc, n);
      var rest := Without(outbox, epc, n - 1);
      if t in outbox {
        MapSumTake(rest, f, t);
        assert rest - {t} == Without(outbox, epc, n);
      } else {
        assert rest == Without(outbox, epc, n);
      }
    }
  }

  lemma {:induction false} VersionSumElsewhere(
    outbox: map<TransitionId, Transition>, f: (TransitionId, Transition) -> int, epc: Epc, n: nat,
    other: Epc, m: nat)
    requires other != epc
    ensures VersionSum(Without(outbox, other, m), f, epc, n) == VersionSum(outbox, f, epc, n)
  {
    if n > 0 {
      VersionSumElsewhere(outbox, f, epc, n - 1, other, m);
    }
  }

  /** A sum over the rows may be taken item by item. */
  lemma {:induction false} Regroup(
    items: map<Epc, ItemState>, outbox: map<TransitionId, Transition>, f: (TransitionId, Transition) -> int)
    requires forall t :: t in outbox ==> t.epc in items && 1 <= t.version <= items[t.epc].version
    ensures MapSum(outbox, f) == MapSum(items, PerItem(outbox, f))
    decreases |items|
  {
    if items == map[] {
      assert outbox == map[];
    } else {
      var epc := PickKey(items);
      var n := items[epc].version;
      var rest := Without(outbox, epc, n);
      TakeVersions(outbox, f, epc, n);
      Regroup(items - {epc}, rest, f);
      MapSumTake(items, PerItem(outbox, f), epc);
      forall e | e in items - {epc}
        ensures PerItem(outbox, f)(e, (items - {epc})[e]) == PerItem(rest, f)(e, (items - {epc})[e])
      {
        VersionSumElsewhere(outbox, f, e, items[e].version, epc, n);
      }
      MapSumEqual(items - {epc}, PerItem(outbox, f), items - {epc}, PerItem(rest, f));
    }
  }

  /** The deltas of one item telescope to its last arrival. */
  lemma {:induction false} Telescope(inv: Inventory, epc: Epc, n: nat, b: Bucket)
    requires Versioned(inv) && Chained(inv)
    requires epc in inv.items && 1 <= n <= inv.items[epc].version
    ensures VersionSum(inv.outbox, AllIn(b), epc, n) == At(To(inv.outbox[TransitionId(epc, n)]), b)
  {
    var t := TransitionId(epc, n);
    assert t in inv.outbox;
    assert Linked(inv, t);
    SidedSum(inv, inv.outbox[t], b);
    if n == 1 {
      assert VersionSum(inv.outbox, AllIn(b), epc, 0) == 0;
    } else {
      Telescope(inv, epc, n - 1, b);
    }
  }

  lemma AllIsLocated(inv: Inventory, b: Bucket)
    requires Base(inv)
    ensures MapSum(inv.outbox, AllIn(b)) == LocatedAt(inv, b)
  {
    Regroup(inv.items, inv.outbox, AllIn(b));
    forall epc | epc in inv.items
      ensures PerItem(inv.outbox, AllIn(b))(epc, inv.items[epc]) == CountIn(b)(epc, inv.items[epc])
    {
      assert ItemSettled(inv, epc);
      Telescope(inv, epc, inv.items[epc].version, b);
    }
    MapSumEqual(inv.items, PerItem(inv.outbox, AllIn(b)), inv.items, CountIn(b));
  }

  lemma SettledAndOpen(inv: Inventory, b: Bucket)
    requires Base(inv)
    ensures SettledAt(inv, b) + OpenAt(inv, b) == LocatedAt(inv, b)
  {
    MapSumSplit(inv.outbox, SettledIn(b), OpenIn(b), AllIn(b));
    AllIsLocated(inv, b);
  }

  lemma BalancedConserves(inv: Inventory)
    requires Base(inv)
    ensures Balanced(inv) <==> Conserved(inv)
  {
    forall b
      ensures SettledAt(inv, b) + OpenAt(inv, b) == LocatedAt(inv, b)
    {
      SettledAndOpen(inv, b);
    }
  }

  // ----- Preservation by the item transactions -----

  /** What item transactions can do to the rows: append pending ones, quarantine pending ones. */
  ghost predicate Evolved(inv: Inventory, next: Inventory) {
    && next.zones == inv.zones && next.projection == inv.projection && next.applied == inv.applied
    && inv.outbox.Keys <= next.outbox.Keys
    && (forall t :: t in inv.outbox ==>
          && next.outbox[t].deltas == inv.outbox[t].deltas
          && (next.outbox[t].phase == inv.outbox[t].phase
              || (inv.outbox[t].phase == Pending && next.outbox[t].phase == Quarantined)))
    && (forall t :: t in next.outbox && t !in inv.outbox ==>
          next.outbox[t].phase == Pending || next.outbox[t].phase == Quarantined)
    && inv.items.Keys <= next.items.Keys
  }

  lemma EvolvedTrans(a: Inventory, b: Inventory, c: Inventory)
    requires Evolved(a, b) && Evolved(b, c)
    ensures Evolved(a, c)
  {
    forall t | t in c.outbox && t !in a.outbox
      ensures c.outbox[t].phase == Pending || c.outbox[t].phase == Quarantined
    {
      if t in b.outbox {
        assert b.outbox[t].phase == Pending || b.outbox[t].phase == Quarantined;
      }
    }
  }

  lemma EvolvedKeepsSettled(inv: Inventory, next: Inventory, b: Bucket)
    requires Evolved(inv, next)
    ensures SettledAt(next, b) == SettledAt(inv, b)
  {
    MapSumPart(next.outbox, SettledIn(b), inv.outbox, SettledIn(b));
  }

  /** Only times and confidence of one item change. */
  ghost predicate Refreshed(s: ItemState, s': ItemState) {
    && s'.sku == s.sku && s'.location == s.location && s'.version == s.version && s'.removal == s.removal
    && s.lastObservedAt <= s'.lastObservedAt
  }

  /** Rows whose deltas did not change are still a chain. */
  lemma SameDeltasChain(inv: Inventory, next: Inventory)
    requires Versioned(inv) && Chained(inv) && next.zones == inv.zones && next.outbox.Keys == inv.outbox.Keys
    requires forall t :: t in inv.outbox ==> next.outbox[t].deltas == inv.outbox[t].deltas && next.outbox[t].id == t
    requires next.items.Keys == inv.items.Keys
    requires forall epc :: epc in inv.items ==> next.items[epc].version == inv.items[epc].version
    ensures Versioned(next) && Chained(next)
  {
    forall t | t in next.outbox
      ensures Linked(next, t)
    {
      assert Linked(inv, t);
    }
  }

  /** Changing no delta, and only the phases quarantined and reconciled, keeps the row invariants. */
  lemma SimilarRowsKeep(inv: Inventory, next: Inventory)
    requires Base(inv) && next.zones == inv.zones && next.outbox.Keys == inv.outbox.Keys
    requires forall t :: t in inv.outbox ==> next.outbox[t].deltas == inv.outbox[t].deltas && next.outbox[t].id == t
    requires forall t :: t in inv.outbox ==>
               (next.outbox[t].phase == Pending <==> inv.outbox[t].phase == Pending)
               && (next.outbox[t].phase == Published <==> inv.outbox[t].phase == Published)
    requires next.applied == inv.applied && next.events == inv.events
    requires next.items.Keys == inv.items.Keys
    requires forall epc :: epc in inv.items ==> Refreshed(inv.items[epc], next.items[epc])
    ensures Base(next)
  {
    SameDeltasChain(inv, next);
    SameDeltasSettle(inv, next);
    forall t | t in next.outbox
      ensures RowApplied(next, t)
    {
      assert RowApplied(inv, t);
    }
    forall t, u | t in next.outbox && u in next.outbox
      ensures SettledInOrder(next, u, t)
    {
      assert SettledInOrder(inv, u, t);
    }
  }

  lemma SameDeltasSettle(inv: Inventory, next: Inventory)
    requires ItemsSettled(inv) && next.outbox.Keys == inv.outbox.Keys
    requires forall t :: t in inv.outbox ==> next.outbox[t].deltas == inv.outbox[t].deltas
    requires next.items.Keys == inv.items.Keys
    requires forall epc :: epc in inv.items ==> Refreshed(inv.items[epc], next.items[epc])
    ensures ItemsSettled(next)
  {
    forall e | e in next.items
      ensures ItemSettled(next, e)
    {
      assert ItemSettled(inv, e);
    }
  }

  lemma RefreshKeeps(inv: Inventory, epc: Epc, s: ItemState)
    requires Base(inv) && epc in inv.items && Refreshed(inv.items[epc], s)
    ensures Base(WithItem(inv, epc, s)) && Evolved(inv, WithItem(inv, epc, s))
  {
    SimilarRowsKeep(inv, WithItem(inv, epc, s));
  }

  /** The next state of an item and the row that carries the change fit together. */
  ghost predicate FitsNext(inv: Inventory, epc: Epc, s: ItemState, row: Transition) {
    var t := TransitionId(epc, NextVersion(inv, epc));
    && row.id == t && row.phase == Pending && Sided(inv, t, row.deltas)
    && s.version == t.version && To(row) == BucketOf(s)
    && (s.removal.None? ==> TimeOf(row) <= s.lastObservedAt)
    && (s.removal.Some? ==> s.location.None?)
    && (if epc in inv.items then
          && inv.items[epc].removal.None?
          && From(row) == BucketOf(inv.items[epc])
          && inv.items[epc].lastObservedAt <= TimeOf(row)
        else From(row) == None)
  }

  ghost predicate Extends(inv: Inventory, next: Inventory, epc: Epc, s: ItemState, row: Transition) {
    && FitsNext(inv, epc, s, row)
    && next.zones == inv.zones && next.items == inv.items[epc := s] && next.outbox == inv.outbox[row.id := row]
  }

  lemma ExtendVersions(inv: Inventory, next: Inventory, epc: Epc, s: ItemState, row: Transition)
    requires Base(inv) && Extends(inv, next, epc, s, row)
    ensures Versioned(next) && row.id !in inv.outbox
  {
    assert row.id !in inv.outbox;
    forall u
      ensures u in next.outbox <==> u.epc in next.items && 1 <= u.version <= next.items[u.epc].version
    {
      if u.epc == epc && epc in inv.items {
        assert ItemSettled(inv, epc);
      }
    }
  }

  lemma ExtendChains(inv: Inventory, next: Inventory, epc: Epc, s: ItemState, row: Transition)
    requires Base(inv) && Extends(inv, next, epc, s, row)
    ensures Chained(next)
  {
    ExtendVersions(inv, next, epc, s, row);
    forall u | u in next.outbox
      ensures Linked(next, u)
    {
      if u == row.id {
        if epc in inv.items {
          assert ItemSettled(inv, epc);
        }
      } else {
        assert Linked(inv, u);
      }
    }
  }

  lemma ExtendSettles(inv: Inventory, next: Inventory, epc: Epc, s: ItemState, row: Transition)
    requires Base(inv) && Extends(inv, next, epc, s, row)
    ensures ItemsSettled(next)
  {
    ExtendVersions(inv, next, epc, s, row);
    forall e | e in next.items
      ensures ItemSettled(next, e)
    {
      if e != epc {
        assert ItemSettled(inv, e);
      }
    }
  }

  lemma ExtendKeeps(inv: Inventory, next: Inventory, epc: Epc, s: ItemState, row: Transition)
    requires Base(inv) && Extends(inv, next, epc, s, row)
    requires next.projection == inv.projection && next.applied == inv.applied
    requires forall k :: k in next.events ==>
               (k in inv.events && next.events[k] == inv.events[k]) || next.events[k].transition == row.id
    ensures Base(next) && Evolved(inv, next)
  {
    ExtendVersions(inv, next, epc, s, row);
    ExtendChains(inv, next, epc, s, row);
    ExtendSettles(inv, next, epc, s, row);
    var t := row.id;
    assert AppliedExactly(next) by {
      forall u | u in next.outbox
        ensures RowApplied(next, u)
      {
        if u != t {
          assert RowApplied(inv, u);
        }
      }
    }
    assert PendingLast(next) by {
      forall a, u | a in next.outbox && u in next.outbox
        ensures SettledInOrder(next, u, a)
      {
        if a != t && u != t {
          assert SettledInOrder(inv, u, a);
        }
      }
    }
  }

  lemma MoveKeeps(inv: Inventory, r: Reading, d: Decision)
    requires Base(inv) && KnownLocation(inv, d.location)
    requires r.epc in inv.items ==> inv.items[r.epc].removal.None? && inv.items[r.epc].lastObservedAt <= d.observedAt
    requires !SettlesWhereItIs(inv, r, d)
    ensures Base(MoveItem(inv, r, d)) && Evolved(inv, MoveItem(inv, r, d))
  {
    var next := MoveItem(inv, r, d);
    var t := TransitionId(r.epc, NextVersion(inv, r.epc));
    if r.epc in inv.items {
      assert ItemSettled(inv, r.epc);
      if inv.items[r.epc].location.Some? {
        LeavesKnownLocation(inv, r.epc);
      }
    }
    ExtendKeeps(inv, next, r.epc, next.items[r.epc], next.outbox[t]);
  }

  lemma LeavesKnownLocation(inv: Inventory, epc: Epc)
    requires Base(inv) && epc in inv.items && inv.items[epc].location.Some?
    ensures KnownLocation(inv, inv.items[epc].location.value)
  {
    var last := TransitionId(epc, inv.items[epc].version);
    assert ItemSettled(inv, epc);
    assert Linked(inv, last);
  }

  lemma RemoveKeeps(inv: Inventory, q: RemovalRequest, eventId: int)
    requires Base(inv) && q.epc in inv.items && inv.items[q.epc].location.Some? && inv.items[q.epc].removal.None?
    requires inv.items[q.epc].lastObservedAt <= q.occurredAt
    ensures Base(RemoveItem(inv, q, eventId)) && Evolved(inv, RemoveItem(inv, q, eventId))
  {
    var next := RemoveItem(inv, q, eventId);
    var t := TransitionId(q.epc, inv.items[q.epc].version + 1);
    assert ItemSettled(inv, q.epc);
    LeavesKnownLocation(inv, q.epc);
    ExtendKeeps(inv, next, q.epc, next.items[q.epc], next.outbox[t]);
  }

  /** An earliest pending row may leave the pending phase, the others keep theirs. */
  lemma PhaseInOrder(inv: Inventory, next: Inventory, t: TransitionId)
    requires PendingLast(inv) && EarliestPending(inv, t) && next.outbox.Keys == inv.outbox.Keys
    requires forall u :: u in inv.outbox && u != t ==> next.outbox[u].phase == inv.outbox[u].phase
    ensures PendingLast(next)
  {
    forall a, u | a in next.outbox && u in next.outbox
      ensures SettledInOrder(next, u, a)
    {
      assert SettledInOrder(inv, u, a);
      if a == t && u.epc == t.epc && u.version < t.version {
        assert !IsPending(inv, u);
      }
    }
  }

  lemma FailKeeps(inv: Inventory, t: TransitionId, maxAttempts: nat)
    requires Base(inv) && EarliestPending(inv, t)
    ensures Base(FailTransition(inv, t, maxAttempts)) && Evolved(inv, FailTransition(inv, t, maxAttempts))
  {
    var next := FailTransition(inv, t, maxAttempts);
    SameDeltasChain(inv, next);
    SameDeltasSettle(inv, next);
    PhaseInOrder(inv, next, t);
    forall u | u in next.outbox
      ensures RowApplied(next, u)
    {
      assert RowApplied(inv, u);
    }
  }

  lemma ObserveKeeps(inv: Inventory, r: Reading, flush: nat)
    requires Base(inv) && Storable(inv, r)
    ensures Base(Observe(inv, r, flush).0) && Evolved(inv, Observe(inv, r, flush).0)
  {
    var next := Observe(inv, r, flush).0;
    var watermark := Watermark(inv, r.epc, r.processedWatermark);
    if next == inv {
    } else if r.decision.Some? && !Before(r.decision.value.observedAt, watermark)
        && !SettlesWhereItIs(inv, r, r.decision.value) {
      MoveKeeps(inv, r, r.decision.value);
    } else {
      RefreshKeeps(inv, r.epc, next.items[r.epc]);
    }
  }

  lemma ItemStepKeeps(inv: Inventory, step: ItemStep)
    requires Base(inv)
    ensures Base(RunItem(inv, step)) && Evolved(inv, RunItem(inv, step))
  {
    match step
    case ObserveStep(r, flush) =>
      if Storable(inv, r) {
        ObserveKeeps(inv, r, flush);
      }
    case RemoveStep(q, stores, eventId, processed, now, skew) =>
      var result := AcceptRemoval(inv, q, stores, eventId, processed, now, skew);
      if result.Ok? && result.value.2 {
        RemoveKeeps(inv, q, eventId);
      }
    case FailStep(t, maxAttempts) =>
      if EarliestPending(inv, t) {
        FailKeeps(inv, t, maxAttempts);
      }
  }

  lemma {:induction false} ItemStepsKeep(inv: Inventory, steps: seq<ItemStep>)
    requires Base(inv)
    ensures Base(RunItems(inv, steps)) && Evolved(inv, RunItems(inv, steps))
    decreases |steps|
  {
    if steps != [] {
      var next := RunItem(inv, steps[0]);
      ItemStepKeeps(inv, steps[0]);
      ItemStepsKeep(next, steps[1..]);
      EvolvedTrans(inv, next, RunItems(next, steps[1..]));
    }
  }
}
