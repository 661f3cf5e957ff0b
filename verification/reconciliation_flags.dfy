/**
 The reconciliation flag of a store: set when a poisoned transition that touches the store
 is quarantined, it keeps the store from counting as live until a rebuild has reconciled
 the transition. The rebuild clears the flags of all stores at once, in a statement of its
 own after the one that marks the quarantined rows.
 */
module ReconciliationFlags {
  import opened Basics
  import opened Observations
  import opened Connectivity
  import opened StableZones
  import opened Inventories
  import opened InventoryInvariants
  import InventoryRuns
  import Tasks

  type StoreRows = map<StoreId, ConnectivityRow>

  datatype Watched = Watched(inventory: Inventory, rows: StoreRows)

  // ----- Quarantine -----

  function DeltaStores(row: Transition): set<StoreId> {
    set d | d in row.deltas :: d.bucket.location.store
  }

  function ItemStore(inv: Inventory, epc: Epc): set<StoreId> {
    if epc in inv.items && inv.items[epc].location.Some? then {inv.items[epc].location.value.store} else {}
  }

  /** The stores a transition may have spoiled; when none of them is known, every store. */
  function Reach(w: Watched, t: TransitionId): set<StoreId>
    requires t in w.inventory.outbox
  {
    var touched := (DeltaStores(w.inventory.outbox[t]) + ItemStore(w.inventory, t.epc)) * w.rows.Keys;
    if touched == {} then w.rows.Keys else touched
  }

  function Flag(c: ConnectivityRow, at: Time): ConnectivityRow {
    c.(reconciliationRequired := Some(at), freshness := if c.freshness == Live then Degraded else c.freshness)
  }

  function Flagged(rows: StoreRows, stores: set<StoreId>, at: Time): StoreRows {
    map s | s in rows :: if s in stores then Flag(rows[s], at) else rows[s]
  }

  /** A failed attempt; the last allowed one quarantines the row and flags the stores. */
  function Failed(w: Watched, t: TransitionId, maxAttempts: nat, at: Time): Watched
    requires t in w.inventory.outbox
  {
    Watched(
      FailTransition(w.inventory, t, maxAttempts),
      if w.inventory.outbox[t].attempts + 1 >= maxAttempts then Flagged(w.rows, Reach(w, t), at) else w.rows)
  }

  // ----- Connectivity updates -----

  function Received(rows: StoreRows, s: StoreId, r: Receipt): StoreRows {
    rows[s := Locked(if s in rows then Some(rows[s]) else None, r).0]
  }

  function Heard(rows: StoreRows, s: StoreId, o: Observation, w: Windows): StoreRows {
    rows[s := Updated(if s in rows then rows[s] else FirstRow(ReceiptOf(o)), o, w)]
  }

  // ----- Steps -----

  /** Transactions that may commit between the statements of a rebuild. */
  datatype SideStep =
    | ItemAt(step: ItemStep, at: Time)
    | ReceiptAt(receivedBy: StoreId, receipt: Receipt)
    | ReadAt(readBy: StoreId, read: Observation, windows: Windows)

  datatype WatchedStep =
    | Side(step: SideStep)
    | PublishAt(transition: TransitionId, maxAttempts: nat, at: Time)
    | RebuildAt(
        beforeCount: seq<SideStep>, beforeCheck: seq<SideStep>,
        beforeReconcile: seq<SideStep>, beforeCommit: seq<SideStep>)

  /** Every read of a window wrote the row of its store before it could support a decision. */
  predicate Connected(w: Watched, step: ItemStep) {
    step.ObserveStep? && step.reading.decision.Some? ==> step.reading.decision.value.location.store in w.rows
  }

  ghost function RunSide(w: Watched, step: SideStep): Watched {
    match step
    case ItemAt(s, at) =>
      if s.FailStep? then
        if EarliestPending(w.inventory, s.transition) then Failed(w, s.transition, s.maxAttempts, at) else w
      else if Connected(w, s) then w.(inventory := RunItem(w.inventory, s))
      else w
    case ReceiptAt(s, r) => w.(rows := Received(w.rows, s, r))
    case ReadAt(s, o, windows) => w.(rows := Heard(w.rows, s, o, windows))
  }

  ghost function RunSides(w: Watched, steps: seq<SideStep>): Watched
    decreases |steps|
  {
    if steps == [] then w else RunSides(RunSide(w, steps[0]), steps[1..])
  }

  function Cleared(rows: StoreRows): StoreRows {
    map s | s in rows :: rows[s].(reconciliationRequired := None)
  }

  /** The tables at the moment a rebuild clears the flags; it commits unless something is pending before. */
  ghost function AtClearing(
    w: Watched, beforeCount: seq<SideStep>, beforeCheck: seq<SideStep>,
    beforeReconcile: seq<SideStep>, beforeCommit: seq<SideStep>): Watched
  {
    var late := RunSides(RunSides(RunSides(w, beforeCount), beforeCheck), beforeReconcile);
    RunSides(late.(inventory := Reconcile(late.inventory)), beforeCommit)
  }

  ghost predicate Commits(w: Watched, beforeCount: seq<SideStep>, beforeCheck: seq<SideStep>) {
    !HasPending(w.inventory) && !HasPending(RunSides(RunSides(w, beforeCount), beforeCheck).inventory)
  }

  ghost function RunRebuild(
    w: Watched, beforeCount: seq<SideStep>, beforeCheck: seq<SideStep>,
    beforeReconcile: seq<SideStep>, beforeCommit: seq<SideStep>): Watched
  {
    if HasPending(w.inventory) then w
    else if !Commits(w, beforeCount, beforeCheck) then RunSides(RunSides(w, beforeCount), beforeCheck)
    else
      var last := AtClearing(w, beforeCount, beforeCheck, beforeReconcile, beforeCommit);
      var counted := RunSides(w, beforeCount).inventory;
      Watched(last.inventory.(projection := CountedProjection(counted)), Cleared(last.rows))
  }

  ghost function RunStep(w: Watched, step: WatchedStep): Watched {
    match step
    case Side(s) => RunSide(w, s)
    case PublishAt(t, maxAttempts, at) =>
      if !EarliestPending(w.inventory, t) then w
      else
        (match PublishTransition(w.inventory, t)
         case Ok(next) => w.(inventory := next)
         case Err(_) => Failed(w, t, maxAttempts, at))
    case RebuildAt(a, b, c, d) => RunRebuild(w, a, b, c, d)
  }

  ghost function Run(w: Watched, steps: seq<WatchedStep>): Watched
    decreases |steps|
  {
    if steps == [] then w else Run(RunStep(w, steps[0]), steps[1..])
  }

  // ----- The inventory half -----

  /** The item transaction that a side step makes, if it makes one. */
  ghost function ItemOf(w: Watched, step: SideStep): seq<ItemStep> {
    match step
    case ItemAt(s, at) => if s.FailStep? || Connected(w, s) then [s] else []
    case _ => []
  }

  ghost function ItemsOf(w: Watched, steps: seq<SideStep>): seq<ItemStep>
    decreases |steps|
  {
    if steps == [] then [] else ItemOf(w, steps[0]) + ItemsOf(RunSide(w, steps[0]), steps[1..])
  }

  lemma {:induction false} SidesItems(w: Watched, steps: seq<SideStep>)
    ensures RunSides(w, steps).inventory == RunItems(w.inventory, ItemsOf(w, steps))
    decreases |steps|
  {
    if steps != [] {
      var first, rest := ItemOf(w, steps[0]), ItemsOf(RunSide(w, steps[0]), steps[1..]);
      SidesItems(RunSide(w, steps[0]), steps[1..]);
      if first == [] {
        assert first + rest == rest;
      } else {
        assert (first + rest)[0] == first[0] && (first + rest)[1..] == rest;
      }
    }
  }

  /** The rebuild of the inventory alone that a rebuild with its flags contains. */
  ghost function RebuildOf(
    w: Watched, beforeCount: seq<SideStep>, beforeCheck: seq<SideStep>,
    beforeReconcile: seq<SideStep>, beforeCommit: seq<SideStep>): Step
  {
    var counted := RunSides(w, beforeCount);
    var checked := RunSides(counted, beforeCheck);
    var late := RunSides(checked, beforeReconcile);
    Rebuild(
      ItemsOf(w, beforeCount), ItemsOf(counted, beforeCheck), ItemsOf(checked, beforeReconcile),
      ItemsOf(late.(inventory := Reconcile(late.inventory)), beforeCommit))
  }

  /** What the steps do to the inventory is what the inventory alone would do: the flags only watch. */
  lemma WatchedIsInventory(w: Watched, step: WatchedStep)
    ensures
      RunStep(w, step).inventory ==
      match step
      case Side(s) => RunItems(w.inventory, ItemOf(w, s))
      case PublishAt(t, maxAttempts, at) => Inventories.RunStep(w.inventory, Publish(t, maxAttempts))
      case RebuildAt(a, b, c, d) => Inventories.RunStep(w.inventory, RebuildOf(w, a, b, c, d))
  {
    match step
    case Side(s) =>
      SidesItems(w, [s]);
      assert ItemsOf(w, [s]) == ItemOf(w, s) + ItemsOf(RunSide(w, s), []);
      assert RunSides(w, [s]) == RunSides(RunSide(w, s), []);
    case PublishAt(t, maxAttempts, at) =>
    case RebuildAt(a, b, c, d) =>
      SidesItems(w, a);
      SidesItems(RunSides(w, a), b);
      SidesItems(RunSides(RunSides(w, a), b), c);
      var late := RunSides(RunSides(RunSides(w, a), b), c);
      SidesItems(late.(inventory := Reconcile(late.inventory)), d);
  }

  function Start(zones: map<ZoneId, StoreId>): Watched {
    Watched(Initial(zones), map[])
  }

  // ----- What is kept whatever happens -----

  /** Every store that a transition touches has a connectivity row. */
  ghost predicate RowsKnown(w: Watched) {
    forall t {:trigger w.inventory.outbox[t]} :: t in w.inventory.outbox ==>
      DeltaStores(w.inventory.outbox[t]) <= w.rows.Keys
  }

  ghost predicate WatchOk(w: Watched) { Base(w.inventory) && RowsKnown(w) }

  ghost predicate IsFlagged(rows: StoreRows, s: StoreId) { s in rows && rows[s].reconciliationRequired.Some? }

  /** A quarantined transition that was not reconciled touches this store. */
  ghost predicate Spoils(inv: Inventory, t: TransitionId, s: StoreId) {
    t in inv.outbox && inv.outbox[t].phase == Quarantined && s in DeltaStores(inv.outbox[t])
  }

  ghost predicate Exposed(w: Watched, s: StoreId) {
    !IsFlagged(w.rows, s) && exists t :: Spoils(w.inventory, t, s)
  }

  /** Fail closed: a store with an unreconciled quarantined transition is flagged. */
  ghost predicate FailsClosed(w: Watched) {
    forall s :: !Exposed(w, s)
  }

  /** A store the transition takes from or puts into, or where its item is now. */
  predicate Involved(inv: Inventory, t: TransitionId, s: StoreId)
    requires t in inv.outbox
  {
    || (exists d :: d in inv.outbox[t].deltas && d.bucket.location.store == s)
    || (t.epc in inv.items && inv.items[t.epc].location.Some? && inv.items[t.epc].location.value.store == s)
  }

  /** Flagged from then on, and no longer shown as live. */
  predicate HeldBack(c: ConnectivityRow, c': ConnectivityRow, at: Time) {
    && c'.reconciliationRequired == Some(at)
    && (c.freshness == Live ==> c'.freshness == Degraded) && (c.freshness != Live ==> c'.freshness == c.freshness)
    && c' == c.(reconciliationRequired := c'.reconciliationRequired, freshness := c'.freshness)
  }

  /**
   A failed attempt counts; the last allowed one quarantines the transition and holds back the stores
   involved in it, or every store when none of those is known. Nothing else changes.
   */
  lemma FailureOutcome(w: Watched, t: TransitionId, maxAttempts: nat, at: Time)
    requires t in w.inventory.outbox && w.inventory.outbox[t].phase == Pending
    ensures
      var next := Failed(w, t, maxAttempts, at);
      var (row, row') := (w.inventory.outbox[t], next.inventory.outbox[t]);
      var last := maxAttempts <= row.attempts + 1;
      var known := exists s :: s in w.rows && Involved(w.inventory, t, s);
      && next.inventory == w.inventory.(outbox := w.inventory.outbox[t := row'])
      && row' == row.(attempts := row.attempts + 1, phase := if last then Quarantined else Pending)
      && next.rows.Keys == w.rows.Keys
      && forall s :: s in w.rows ==>
           if last && (Involved(w.inventory, t, s) || !known) then HeldBack(w.rows[s], next.rows[s], at)
           else next.rows[s] == w.rows[s]
  {
    var row := w.inventory.outbox[t];
    forall s
      ensures s in DeltaStores(row) + ItemStore(w.inventory, t.epc) <==> Involved(w.inventory, t, s)
    {
    }
  }

  /** What that is for: such a store never counts as live. */
  lemma NeverLive(w: Watched, t: TransitionId, s: StoreId, windows: Windows, now: Time)
    requires WatchOk(w) && FailsClosed(w) && Spoils(w.inventory, t, s)
    ensures s in w.rows && EffectiveFreshness(w.rows[s], windows, now) != Live
  {
    assert !Exposed(w, s);
  }

  /** And so no evaluation acts on its projection. */
  lemma SpoiledIsNotEvaluated(
    w: Watched, t: TransitionId, s: StoreId, windows: Windows, now: Time, b: Tasks.Board,
    snapshots: seq<Tasks.Snapshot>)
    requires WatchOk(w) && FailsClosed(w) && Spoils(w.inventory, t, s)
    ensures s in w.rows
    ensures
      var (next, report) := Tasks.EvaluateLive(b, s, Tasks.Link(Some(w.rows[s]), windows, now), snapshots);
      next == b && report.suppressedConnectivity
  {
    NeverLive(w, t, s, windows, now);
  }

  /** Nothing becomes exposed: rows and flags stay, and what is newly quarantined is flagged. */
  ghost predicate Shielded(w: Watched, next: Watched) {
    && w.rows.Keys <= next.rows.Keys
    && (forall s :: IsFlagged(w.rows, s) ==> IsFlagged(next.rows, s))
    && (forall t, s :: Spoils(w.inventory, t, s) ==> Spoils(next.inventory, t, s))
    && (forall t, s :: Spoils(next.inventory, t, s) ==> Spoils(w.inventory, t, s) || IsFlagged(next.rows, s))
  }

  lemma ShieldedTrans(a: Watched, b: Watched, c: Watched)
    requires Shielded(a, b) && Shielded(b, c)
    ensures Shielded(a, c)
  {
    forall t, s | Spoils(c.inventory, t, s)
      ensures Spoils(a.inventory, t, s) || IsFlagged(c.rows, s)
    {
      assert Spoils(b.inventory, t, s) || IsFlagged(c.rows, s);
      assert IsFlagged(b.rows, s) ==> IsFlagged(c.rows, s);
    }
  }

  /** A step changes exposure only by flagging stores. */
  lemma ShieldedExposes(w: Watched, next: Watched, s: StoreId)
    requires Shielded(w, next)
    ensures Exposed(next, s) <==> Exposed(w, s) && !IsFlagged(next.rows, s)
  {
    if Exposed(w, s) && !IsFlagged(next.rows, s) {
      var t :| Spoils(w.inventory, t, s);
      assert Spoils(next.inventory, t, s);
    }
  }

  lemma FailedKeeps(w: Watched, t: TransitionId, maxAttempts: nat, at: Time)
    requires WatchOk(w) && EarliestPending(w.inventory, t)
    ensures WatchOk(Failed(w, t, maxAttempts, at)) && Shielded(w, Failed(w, t, maxAttempts, at))
  {
    var next := Failed(w, t, maxAttempts, at);
    FailKeeps(w.inventory, t, maxAttempts);
    assert DeltaStores(w.inventory.outbox[t]) <= w.rows.Keys;
    assert Linked(w.inventory, t);
    assert w.inventory.outbox[t].deltas[0].bucket.location.store in DeltaStores(w.inventory.outbox[t]);
    forall u, s | Spoils(next.inventory, u, s)
      ensures Spoils(w.inventory, u, s) || IsFlagged(next.rows, s)
    {
      assert u != t ==> Spoils(w.inventory, u, s);
    }
  }

  lemma RowsOnly(w: Watched, rows: StoreRows)
    requires WatchOk(w) && w.rows.Keys <= rows.Keys
    requires forall s :: s in w.rows ==> rows[s].reconciliationRequired == w.rows[s].reconciliationRequired
    ensures WatchOk(w.(rows := rows)) && Shielded(w, w.(rows := rows))
  {
  }

  /** An item is where its last transition put it, so its store is known. */
  lemma ItemStoreKnown(w: Watched, epc: Epc)
    requires WatchOk(w) && epc in w.inventory.items && w.inventory.items[epc].location.Some?
    ensures w.inventory.items[epc].location.value.store in w.rows
  {
    assert ItemSettled(w.inventory, epc);
    var last := TransitionId(epc, w.inventory.items[epc].version);
    var row := w.inventory.outbox[last];
    assert Linked(w.inventory, last) && DeltaStores(row) <= w.rows.Keys;
    assert forall d :: d in row.deltas ==> d.bucket.location.store in DeltaStores(row);
  }

  function EpcOf(step: ItemStep): Epc
    requires !step.FailStep?
  {
    if step.ObserveStep? then step.reading.epc else step.request.epc
  }

  /** Where the step may put the item. */
  function TargetStore(step: ItemStep): set<StoreId> {
    if step.ObserveStep? && step.reading.decision.Some? then {step.reading.decision.value.location.store} else {}
  }

  /** A step appends at most one row, pending and between the item's place and its target. */
  ghost predicate Appends(inv: Inventory, next: Inventory, stores: set<StoreId>) {
    || next.outbox == inv.outbox
    || exists t, row: Transition ::
         && t !in inv.outbox && next.outbox == inv.outbox[t := row]
         && row.phase == Pending && DeltaStores(row) <= stores
  }

  lemma ObserveAppends(inv: Inventory, r: Reading, flush: nat)
    requires Base(inv)
    ensures Appends(
              inv, RunItem(inv, ObserveStep(r, flush)),
              ItemStore(inv, r.epc) + TargetStore(ObserveStep(r, flush)))
  {
    var next := RunItem(inv, ObserveStep(r, flush));
    if next.outbox != inv.outbox {
      var t := TransitionId(r.epc, NextVersion(inv, r.epc));
      assert t !in inv.outbox;
      assert next == MoveItem(inv, r, r.decision.value);
      assert next.outbox == inv.outbox[t := next.outbox[t]];
    }
  }

  lemma RemoveAppends(inv: Inventory, step: ItemStep)
    requires Base(inv) && step.RemoveStep?
    ensures Appends(inv, RunItem(inv, step), ItemStore(inv, step.request.epc))
  {
    var next := RunItem(inv, step);
    if next.outbox != inv.outbox {
      var q := step.request;
      var t := TransitionId(q.epc, inv.items[q.epc].version + 1);
      assert t !in inv.outbox;
      assert next == RemoveItem(inv, q, step.eventId);
      assert next.outbox == inv.outbox[t := next.outbox[t]];
    }
  }

  /** New rows of the outbox are pending and touch only stores that are known. */
  lemma ItemKeepsRows(w: Watched, step: ItemStep)
    requires WatchOk(w) && !step.FailStep? && Connected(w, step)
    ensures RowsKnown(w.(inventory := RunItem(w.inventory, step)))
    ensures forall t :: t in RunItem(w.inventory, step).outbox ==>
              && (t in w.inventory.outbox ==> RunItem(w.inventory, step).outbox[t] == w.inventory.outbox[t])
              && (t !in w.inventory.outbox ==> RunItem(w.inventory, step).outbox[t].phase == Pending)
  {
    var stores := ItemStore(w.inventory, EpcOf(step)) + TargetStore(step);
    match step {
      case ObserveStep(r, flush) => ObserveAppends(w.inventory, r, flush);
      case RemoveStep(_, _, _, _, _, _) => RemoveAppends(w.inventory, step);
    }
    if ItemStore(w.inventory, EpcOf(step)) != {} {
      ItemStoreKnown(w, EpcOf(step));
    }
    AppendsKnown(w, RunItem(w.inventory, step), stores);
  }

  lemma AppendsKnown(w: Watched, next: Inventory, stores: set<StoreId>)
    requires RowsKnown(w) && Appends(w.inventory, next, stores) && stores <= w.rows.Keys
    ensures RowsKnown(w.(inventory := next))
    ensures forall t :: t in w.inventory.outbox ==> t in next.outbox && next.outbox[t] == w.inventory.outbox[t]
    ensures forall t :: t in next.outbox && t !in w.inventory.outbox ==> next.outbox[t].phase == Pending
  {
    forall t | t in next.outbox
      ensures DeltaStores(next.outbox[t]) <= w.rows.Keys
    {
      assert t in w.inventory.outbox ==> DeltaStores(w.inventory.outbox[t]) <= w.rows.Keys;
    }
  }

  lemma ItemShields(w: Watched, step: ItemStep)
    requires WatchOk(w) && !step.FailStep? && Connected(w, step)
    ensures WatchOk(w.(inventory := RunItem(w.inventory, step)))
    ensures Shielded(w, w.(inventory := RunItem(w.inventory, step)))
  {
    ItemStepKeeps(w.inventory, step);
    ItemKeepsRows(w, step);
  }

  lemma SideShields(w: Watched, step: SideStep)
    requires WatchOk(w)
    ensures WatchOk(RunSide(w, step)) && Shielded(w, RunSide(w, step))
  {
    match step
    case ItemAt(s, at) =>
      if s.FailStep? {
        if EarliestPending(w.inventory, s.transition) {
          FailedKeeps(w, s.transition, s.maxAttempts, at);
        }
      } else if Connected(w, s) {
        ItemShields(w, s);
      }
    case ReceiptAt(s, r) => RowsOnly(w, Received(w.rows, s, r));
    case ReadAt(s, o, windows) => RowsOnly(w, Heard(w.rows, s, o, windows));
  }

  lemma {:induction false} SidesShield(w: Watched, steps: seq<SideStep>)
    requires WatchOk(w)
    ensures WatchOk(RunSides(w, steps)) && Shielded(w, RunSides(w, steps))
    decreases |steps|
  {
    if steps != [] {
      SideShields(w, steps[0]);
      SidesShield(RunSide(w, steps[0]), steps[1..]);
      ShieldedTrans(w, RunSide(w, steps[0]), RunSides(w, steps));
    }
  }

  lemma PublishedKeeps(w: Watched, t: TransitionId, next: Inventory)
    requires WatchOk(w) && EarliestPending(w.inventory, t) && PublishTransition(w.inventory, t) == Ok(next)
    ensures WatchOk(w.(inventory := next)) && Shielded(w, w.(inventory := next))
  {
    InventoryRuns.PublishOutcome(w.inventory, t, next);
    InventoryRuns.PublishKeepsBase(w.inventory, t, next);
    RowChangesOnly(w, t, next);
  }

  lemma RowChangesOnly(w: Watched, t: TransitionId, next: Inventory)
    requires RowsKnown(w) && IsPending(w.inventory, t) && InventoryRuns.PublishesOnly(w.inventory, t, next)
    ensures RowsKnown(w.(inventory := next)) && Shielded(w, w.(inventory := next))
  {
    assert forall u :: u in next.outbox ==> next.outbox[u].deltas == w.inventory.outbox[u].deltas;
    forall u | u in next.outbox
      ensures DeltaStores(next.outbox[u]) <= w.rows.Keys
    {
      assert DeltaStores(w.inventory.outbox[u]) <= w.rows.Keys;
    }
  }

  lemma PublishShields(w: Watched, t: TransitionId, maxAttempts: nat, at: Time)
    requires WatchOk(w)
    ensures WatchOk(RunStep(w, PublishAt(t, maxAttempts, at))) && Shielded(w, RunStep(w, PublishAt(t, maxAttempts, at)))
  {
    if EarliestPending(w.inventory, t) {
      match PublishTransition(w.inventory, t)
      case Ok(next) => PublishedKeeps(w, t, next);
      case Err(_) => FailedKeeps(w, t, maxAttempts, at);
    }
  }

  lemma ClearingKeeps(
    w: Watched, beforeCount: seq<SideStep>, beforeCheck: seq<SideStep>,
    beforeReconcile: seq<SideStep>, beforeCommit: seq<SideStep>)
    requires WatchOk(w)
    ensures WatchOk(AtClearing(w, beforeCount, beforeCheck, beforeReconcile, beforeCommit))
  {
    var counted := RunSides(w, beforeCount);
    var checked := RunSides(counted, beforeCheck);
    var late := RunSides(checked, beforeReconcile);
    SidesShield(w, beforeCount);
    SidesShield(counted, beforeCheck);
    SidesShield(checked, beforeReconcile);
    InventoryRuns.ReconcileKeepsBase(late.inventory);
    SidesShield(late.(inventory := Reconcile(late.inventory)), beforeCommit);
  }

  // ----- The exact condition -----

  /** The stores that a rebuild leaves without a flag although a transition was quarantined after the marking. */
  ghost predicate ClearedTooMuch(
    w: Watched, beforeCount: seq<SideStep>, beforeCheck: seq<SideStep>,
    beforeReconcile: seq<SideStep>, beforeCommit: seq<SideStep>, s: StoreId)
  {
    exists t :: Spoils(AtClearing(w, beforeCount, beforeCheck, beforeReconcile, beforeCommit).inventory, t, s)
  }

  /**
   A committed rebuild exposes exactly the stores that a transition spoils at the moment the
   flags are cleared, that is, one quarantined since the quarantined rows were marked.
   */
  lemma RebuildExposes(
    w: Watched, beforeCount: seq<SideStep>, beforeCheck: seq<SideStep>,
    beforeReconcile: seq<SideStep>, beforeCommit: seq<SideStep>)
    requires WatchOk(w) && Commits(w, beforeCount, beforeCheck)
    ensures
      var next := RunRebuild(w, beforeCount, beforeCheck, beforeReconcile, beforeCommit);
      && WatchOk(next)
      && (forall s :: Exposed(next, s) <==>
                      ClearedTooMuch(w, beforeCount, beforeCheck, beforeReconcile, beforeCommit, s))
      && (FailsClosed(next) <==> forall t :: t in next.inventory.outbox ==>
           next.inventory.outbox[t].phase != Quarantined)
  {
    var last := AtClearing(w, beforeCount, beforeCheck, beforeReconcile, beforeCommit);
    var next := RunRebuild(w, beforeCount, beforeCheck, beforeReconcile, beforeCommit);
    ClearingKeeps(w, beforeCount, beforeCheck, beforeReconcile, beforeCommit);
    InventoryRuns.WithProjection(last.inventory, next.inventory.projection);
    forall s
      ensures Exposed(next, s) <==> exists t :: Spoils(last.inventory, t, s)
    {
      assert !IsFlagged(next.rows, s);
      assert forall t :: Spoils(next.inventory, t, s) <==> Spoils(last.inventory, t, s);
    }
    forall t | t in next.inventory.outbox && next.inventory.outbox[t].phase == Quarantined
      ensures !FailsClosed(next)
    {
      assert Linked(next.inventory, t);
      var s := next.inventory.outbox[t].deltas[0].bucket.location.store;
      assert Spoils(next.inventory, t, s);
      assert Exposed(next, s);
    }
  }

  /** The attempt that quarantines the row, which may have spoiled this store. */
  ghost predicate Quarantines(w: Watched, t: TransitionId, maxAttempts: nat, s: StoreId) {
    && EarliestPending(w.inventory, t) && w.inventory.outbox[t].attempts + 1 >= maxAttempts
    && s in Reach(w, t)
  }

  ghost predicate SideFlags(w: Watched, step: SideStep, s: StoreId) {
    && step.ItemAt? && step.step.FailStep?
    && Quarantines(w, step.step.transition, step.step.maxAttempts, s)
  }

  ghost predicate SidesFlag(w: Watched, steps: seq<SideStep>, s: StoreId)
    decreases |steps|
  {
    steps != [] && (SideFlags(w, steps[0], s) || SidesFlag(RunSide(w, steps[0]), steps[1..], s))
  }

  /** The step quarantines a row that may have spoiled this store. */
  ghost predicate Flags(w: Watched, step: WatchedStep, s: StoreId) {
    match step
    case Side(side) => SideFlags(w, side, s)
    case PublishAt(t, maxAttempts, _) =>
      Quarantines(w, t, maxAttempts, s) && PublishTransition(w.inventory, t).Err?
    case RebuildAt(a, b, _, _) =>
      !HasPending(w.inventory) && (SidesFlag(w, a, s) || SidesFlag(RunSides(w, a), b, s))
  }

  lemma FailedFlags(w: Watched, t: TransitionId, maxAttempts: nat, at: Time, s: StoreId)
    requires EarliestPending(w.inventory, t)
    ensures IsFlagged(Failed(w, t, maxAttempts, at).rows, s) <==>
            IsFlagged(w.rows, s) || Quarantines(w, t, maxAttempts, s)
  {
  }

  lemma SideFlagsExactly(w: Watched, step: SideStep, s: StoreId)
    ensures IsFlagged(RunSide(w, step).rows, s) <==> IsFlagged(w.rows, s) || SideFlags(w, step, s)
  {
    if step.ItemAt? && step.step.FailStep? && EarliestPending(w.inventory, step.step.transition) {
      FailedFlags(w, step.step.transition, step.step.maxAttempts, step.at, s);
    }
  }

  lemma {:induction false} SidesFlagExactly(w: Watched, steps: seq<SideStep>, s: StoreId)
    ensures IsFlagged(RunSides(w, steps).rows, s) <==> IsFlagged(w.rows, s) || SidesFlag(w, steps, s)
    decreases |steps|
  {
    if steps != [] {
      SideFlagsExactly(w, steps[0], s);
      SidesFlagExactly(RunSide(w, steps[0]), steps[1..], s);
    }
  }

  /** Which stores are exposed after a step, from which were before. */
  ghost predicate ExposedBy(w: Watched, step: WatchedStep, before: bool, s: StoreId) {
    if step.RebuildAt? && Commits(w, step.beforeCount, step.beforeCheck) then
      ClearedTooMuch(w, step.beforeCount, step.beforeCheck, step.beforeReconcile, step.beforeCommit, s)
    else before && !Flags(w, step, s)
  }

  ghost predicate ExposedAfter(w: Watched, steps: seq<WatchedStep>, before: bool, s: StoreId)
    decreases |steps|
  {
    if steps == [] then before
    else ExposedAfter(RunStep(w, steps[0]), steps[1..], ExposedBy(w, steps[0], before, s), s)
  }

  lemma StepExposes(w: Watched, step: WatchedStep, s: StoreId)
    requires WatchOk(w)
    ensures WatchOk(RunStep(w, step))
    ensures Exposed(RunStep(w, step), s) <==> ExposedBy(w, step, Exposed(w, s), s)
  {
    var next := RunStep(w, step);
    match step
    case Side(side) =>
      SideShields(w, side);
      ShieldedExposes(w, next, s);
      SideFlagsExactly(w, side, s);
    case PublishAt(t, maxAttempts, at) =>
      PublishShields(w, t, maxAttempts, at);
      ShieldedExposes(w, next, s);
      if EarliestPending(w.inventory, t) {
        FailedFlags(w, t, maxAttempts, at, s);
      }
    case RebuildAt(a, b, c, d) =>
      if Commits(w, a, b) {
        RebuildExposes(w, a, b, c, d);
      } else if !HasPending(w.inventory) {
        SidesShield(w, a);
        SidesShield(RunSides(w, a), b);
        ShieldedTrans(w, RunSides(w, a), next);
        ShieldedExposes(w, next, s);
        SidesFlagExactly(w, a, s);
        SidesFlagExactly(RunSides(w, a), b, s);
      }
  }

  lemma {:induction false} RunExposes(w: Watched, steps: seq<WatchedStep>, s: StoreId)
    requires WatchOk(w)
    ensures WatchOk(Run(w, steps))
    ensures Exposed(Run(w, steps), s) <==> ExposedAfter(w, steps, Exposed(w, s), s)
    decreases |steps|
  {
    if steps != [] {
      StepExposes(w, steps[0], s);
      RunExposes(RunStep(w, steps[0]), steps[1..], s);
    }
  }

  ghost predicate ExposedInRun(zones: map<ZoneId, StoreId>, steps: seq<WatchedStep>, s: StoreId) {
    ExposedAfter(Start(zones), steps, false, s)
  }

  /**
   In every reachable state the stores fail closed exactly when the last committed rebuild
   cleared no flag too much, or a later quarantine set it again.
   */
  lemma ReachableFailsClosed(zones: map<ZoneId, StoreId>, steps: seq<WatchedStep>)
    ensures WatchOk(Run(Start(zones), steps))
    ensures FailsClosed(Run(Start(zones), steps)) <==> forall s :: !ExposedInRun(zones, steps, s)
  {
    var last := Run(Start(zones), steps);
    InventoryRuns.InitialInvariant(zones);
    RunExposes(Start(zones), steps, 0);
    forall s
      ensures Exposed(last, s) <==> ExposedInRun(zones, steps, s)
    {
      assert !Exposed(Start(zones), s);
      RunExposes(Start(zones), steps, s);
    }
  }

  /**
   The rebuild can clear a flag it should have kept: after a live read, an item appears and
   its row is quarantined between the marking and the clearing, and the store counts as live.
   */
  lemma RebuildCanExpose()
    ensures
      var d := Decision(Location(1, 1), 1.0, 10, 10);
      var appear := ItemAt(ObserveStep(Reading(7, 10, 10, None, 5, Some(d), {Location(1, 1)}), 30), 10);
      var poison := ItemAt(FailStep(TransitionId(7, 1), 1), 11);
      var read := Observation(1, 1, 1, Location(1, 1), 7, 10, 10, 0.0, None, 1.0, false, true, true, None);
      var windows := Windows(120, 60, 30);
      var next := Run(Start(map[1 := 1]), [Side(ReadAt(1, read, windows)), RebuildAt([], [], [], [appear, poison])]);
      && ValidWindows(windows) && Ingested(read)
      && Spoils(next.inventory, TransitionId(7, 1), 1)
      && 1 in next.rows && EffectiveFreshness(next.rows[1], windows, 12) == Live
      && !FailsClosed(next)
  {
    var d := Decision(Location(1, 1), 1.0, 10, 10);
    var r := Reading(7, 10, 10, None, 5, Some(d), {Location(1, 1)});
    var t := TransitionId(7, 1);
    var appear, poison := ItemAt(ObserveStep(r, 30), 10), ItemAt(FailStep(t, 1), 11);
    var read := Observation(1, 1, 1, Location(1, 1), 7, 10, 10, 0.0, None, 1.0, false, true, true, None);
    var first, second := Side(ReadAt(1, read, Windows(120, 60, 30))), RebuildAt([], [], [], [appear, poison]);
    var heard := RunStep(Start(map[1 := 1]), first);
    assert Run(Start(map[1 := 1]), [first, second]) == RunStep(heard, second) by {
      assert [first, second][1..] == [second] && [second][1..] == [];
      assert Run(heard, [second]) == Run(RunStep(heard, second), []);
    }
    QuarantinedLate(heard, r, d, appear, poison);
    var next := RunStep(heard, second);
    assert Exposed(next, 1);
  }

  lemma QuarantinedLate(w: Watched, r: Reading, d: Decision, appear: SideStep, poison: SideStep)
    requires w.inventory == Initial(map[1 := 1]) && 1 in w.rows
    requires d == Decision(Location(1, 1), 1.0, 10, 10) && r == Reading(7, 10, 10, None, 5, Some(d), {Location(1, 1)})
    requires appear == ItemAt(ObserveStep(r, 30), 10) && poison == ItemAt(FailStep(TransitionId(7, 1), 1), 11)
    ensures
      var next := RunRebuild(w, [], [], [], [appear, poison]);
      && Spoils(next.inventory, TransitionId(7, 1), 1)
      && 1 in next.rows && next.rows[1] ==
         w.rows[1].(reconciliationRequired := None, freshness := next.rows[1].freshness)
  {
    var t := TransitionId(7, 1);
    assert !HasPending(w.inventory);
    assert Reconcile(w.inventory) == w.inventory;
    var seen := RunSide(w, appear);
    assert seen.inventory == MoveItem(w.inventory, r, d);
    assert seen.inventory.outbox.Keys == {t};
    assert EarliestPending(seen.inventory, t);
    var bad := RunSide(seen, poison);
    assert [appear, poison][1..] == [poison] && [poison][1..] == [];
    assert RunSides(seen, [poison]) == bad;
    assert RunSides(w, [appear, poison]) == bad;
    assert AtClearing(w, [], [], [], [appear, poison]) == bad;
    assert seen.inventory.outbox[t].deltas[0] in bad.inventory.outbox[t].deltas;
  }
}
