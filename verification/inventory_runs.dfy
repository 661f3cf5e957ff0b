/**
 Whole runs of the inventory tables: applying rows to the projection, rebuilding the
 projection while item transactions keep committing, and what holds in every reachable
 state.
 */
module InventoryRuns {
  import opened Basics
  import opened Observations
  import opened StableZones
  import opened FiniteSums
  import opened Inventories
  import opened InventoryInvariants

  // ----- Publishing one row -----

  lemma DistinctDeltaIds(inv: Inventory, t: TransitionId, deltas: seq<Delta>)
    requires Sided(inv, t, deltas)
    ensures DistinctIds(deltas)
  {
  }

  /**
   A row is applied only if it has deltas, all of its own transition and EPC, and none twice;
   each refusal has its guard.
   */
  lemma ValidationOutcome(row: Transition)
    ensures
      var r := ValidatedDeltas(row);
      var foreign := exists d :: d in row.deltas && d.transition != row.id;
      var misplaced := exists d :: d in row.deltas && d.epc != row.id.epc;
      var doubled := exists i, j :: 0 <= i < j < |row.deltas| && row.deltas[i].id == row.deltas[j].id;
      && (r == Err(NoDeltas) <==> |row.deltas| == 0)
      && (r == Err(WrongTransition) <==> |row.deltas| > 0 && foreign)
      && (r == Err(WrongEpc) <==> |row.deltas| > 0 && !foreign && misplaced)
      && (r == Err(DuplicateDeltaIds) <==> |row.deltas| > 0 && !foreign && !misplaced && doubled)
      && (r == Ok(row.deltas) <==> |row.deltas| > 0 && !foreign && !misplaced && !doubled)
  {
    forall d | d in row.deltas
      ensures exists i :: 0 <= i < |row.deltas| && row.deltas[i] == d
    {
    }
  }

  /** Rows written by the component always pass validation. */
  lemma RowsValidate(inv: Inventory, t: TransitionId)
    requires Base(inv) && t in inv.outbox
    ensures ValidatedDeltas(inv.outbox[t]) == Ok(inv.outbox[t].deltas)
  {
    assert Linked(inv, t);
    DistinctDeltaIds(inv, t, inv.outbox[t].deltas);
  }

  lemma {:induction false} UniqueOfDistinct(deltas: seq<Delta>)
    requires DistinctIds(deltas)
    ensures forall id :: id in UniqueById(deltas) <==> exists i :: 0 <= i < |deltas| && deltas[i].id == id
    ensures forall i :: 0 <= i < |deltas| ==>
            deltas[i].id in UniqueById(deltas) && UniqueById(deltas)[deltas[i].id] == deltas[i]
  {
    if deltas != [] {
      var front := deltas[..|deltas| - 1];
      var last := deltas[|deltas| - 1];
      UniqueOfDistinct(front);
      forall id
        ensures id in UniqueById(deltas) <==> exists i :: 0 <= i < |deltas| && deltas[i].id == id
      {
        if id == last.id {
          assert deltas[|deltas| - 1].id == id;
        } else if id in UniqueById(front) {
          var i :| 0 <= i < |front| && front[i].id == id;
          assert deltas[i].id == id;
        }
        if exists i :: 0 <= i < |deltas| && deltas[i].id == id {
          var i :| 0 <= i < |deltas| && deltas[i].id == id;
          assert i < |front| ==> front[i].id == id;
        }
      }
      forall i | 0 <= i < |deltas|
        ensures deltas[i].id in UniqueById(deltas) && UniqueById(deltas)[deltas[i].id] == deltas[i]
      {
        if i < |front| {
          assert front[i] == deltas[i] && deltas[i].id != last.id;
        }
      }
    }
  }

  lemma {:induction false} UniqueTotal(deltas: seq<Delta>, b: Bucket)
    requires DistinctIds(deltas)
    ensures BucketTotal(UniqueById(deltas), b) == DeltaSum(deltas, b)
  {
    if deltas != [] {
      var front := deltas[..|deltas| - 1];
      var last := deltas[|deltas| - 1];
      UniqueTotal(front, b);
      UniqueOfDistinct(front);
      MapSumInsert(UniqueById(front), QuantityIn(b), last.id, last);
    }
  }

  /** Nothing of a pending row has been applied before, so all of it is applied now. */
  lemma PendingIsFresh(inv: Inventory, t: TransitionId)
    requires Base(inv) && IsPending(inv, t)
    ensures Unapplied(inv, inv.outbox[t].deltas) == UniqueById(inv.outbox[t].deltas)
    ensures forall b :: BucketTotal(Unapplied(inv, inv.outbox[t].deltas), b) == DeltaSum(inv.outbox[t].deltas, b)
    ensures Unapplied(inv, inv.outbox[t].deltas).Keys == set d | d in inv.outbox[t].deltas :: d.id
  {
    var deltas := inv.outbox[t].deltas;
    assert Linked(inv, t) && RowApplied(inv, t);
    DistinctDeltaIds(inv, t, deltas);
    UniqueOfDistinct(deltas);
    forall id | id in UniqueById(deltas)
      ensures id !in inv.applied
    {
      var i :| 0 <= i < |deltas| && deltas[i].id == id;
      assert deltas[i] in deltas;
    }
    forall b
      ensures BucketTotal(UniqueById(deltas), b) == DeltaSum(deltas, b)
    {
      UniqueTotal(deltas, b);
    }
    forall id
      ensures id in UniqueById(deltas) <==> id in set d | d in deltas :: d.id
    {
      if id in UniqueById(deltas) {
        var i :| 0 <= i < |deltas| && deltas[i].id == id;
        assert deltas[i] in deltas;
      }
    }
  }

  ghost predicate PublishesOnly(inv: Inventory, t: TransitionId, next: Inventory)
    requires t in inv.outbox
  {
    && next.zones == inv.zones && next.items == inv.items && next.events == inv.events
    && next.outbox == inv.outbox[t := inv.outbox[t].(phase := Published, attempts := inv.outbox[t].attempts + 1)]
  }

  lemma PublishShape(inv: Inventory, t: TransitionId, next: Inventory)
    requires t in inv.outbox && ValidatedDeltas(inv.outbox[t]) == Ok(inv.outbox[t].deltas)
    requires PublishTransition(inv, t) == Ok(next)
    ensures PublishesOnly(inv, t, next)
    ensures next.applied == inv.applied + Unapplied(inv, inv.outbox[t].deltas).Keys
    ensures StaysNonNegative(inv, Unapplied(inv, inv.outbox[t].deltas))
    ensures next.projection == MovedProjection(inv, Unapplied(inv, inv.outbox[t].deltas))
  {
  }

  /** Publishing touches one row, records its delta ids and moves the projection. */
  lemma PublishOutcome(inv: Inventory, t: TransitionId, next: Inventory)
    requires Base(inv) && EarliestPending(inv, t) && PublishTransition(inv, t) == Ok(next)
    ensures PublishesOnly(inv, t, next)
    ensures next.applied == inv.applied + set d | d in inv.outbox[t].deltas :: d.id
  {
    RowsValidate(inv, t);
    PublishShape(inv, t, next);
    PendingIsFresh(inv, t);
  }

  lemma PublishKeepsBase(inv: Inventory, t: TransitionId, next: Inventory)
    requires Base(inv) && EarliestPending(inv, t) && PublishTransition(inv, t) == Ok(next)
    ensures Base(next)
  {
    PublishOutcome(inv, t, next);
    SameDeltasChain(inv, next);
    SameDeltasSettle(inv, next);
    PhaseInOrder(inv, next, t);
    PublishKeepsApplied(inv, t, next);
  }

  lemma PublishKeepsApplied(inv: Inventory, t: TransitionId, next: Inventory)
    requires Base(inv) && t in inv.outbox
    requires next.outbox == inv.outbox[t := inv.outbox[t].(phase := Published, attempts := inv.outbox[t].attempts + 1)]
    requires next.applied == inv.applied + set d | d in inv.outbox[t].deltas :: d.id
    ensures AppliedExactly(next)
  {
    assert Linked(inv, t);
    forall u | u in next.outbox
      ensures RowApplied(next, u)
    {
      assert RowApplied(inv, u) && Linked(inv, u);
    }
  }

  lemma MovedProjectionMoves(inv: Inventory, pending: map<DeltaId, Delta>, next: Inventory, b: Bucket)
    requires StaysNonNegative(inv, pending) && next.projection == MovedProjection(inv, pending)
    ensures StockAt(next, b) == StockAt(inv, b) + BucketTotal(pending, b)
  {
    if b !in BucketsOf(pending) {
      MapSumZero(pending, QuantityIn(b));
    }
  }

  lemma PublishMovesStock(inv: Inventory, t: TransitionId, next: Inventory, b: Bucket)
    requires Base(inv) && EarliestPending(inv, t) && PublishTransition(inv, t) == Ok(next)
    ensures StockAt(next, b) == StockAt(inv, b) + DeltaSum(inv.outbox[t].deltas, b)
    ensures SettledAt(next, b) == SettledAt(inv, b) + DeltaSum(inv.outbox[t].deltas, b)
  {
    RowsValidate(inv, t);
    PublishShape(inv, t, next);
    PendingIsFresh(inv, t);
    MovedProjectionMoves(inv, Unapplied(inv, inv.outbox[t].deltas), next, b);
    PublishSettles(inv, t, next, b);
  }

  lemma PublishSettles(inv: Inventory, t: TransitionId, next: Inventory, b: Bucket)
    requires t in inv.outbox && inv.outbox[t].phase == Pending && PublishesOnly(inv, t, next)
    ensures SettledAt(next, b) == SettledAt(inv, b) + DeltaSum(inv.outbox[t].deltas, b)
  {
    MapSumReplace(inv.outbox, SettledIn(b), t, next.outbox[t]);
  }

  lemma PublishKeeps(inv: Inventory, t: TransitionId, next: Inventory)
    requires Invariant(inv) && EarliestPending(inv, t) && PublishTransition(inv, t) == Ok(next)
    ensures Invariant(next)
  {
    PublishKeepsBase(inv, t, next);
    forall b
      ensures StockAt(next, b) == SettledAt(next, b)
    {
      PublishMovesStock(inv, t, next, b);
    }
  }

  /** Applying the same deltas again changes nothing: at-least-once delivery is enough. */
  lemma ApplyAgain(inv: Inventory, deltas: seq<Delta>, next: Inventory, n: nat)
    requires ApplyDeltas(inv, deltas) == Ok((next, n))
    ensures ApplyDeltas(next, deltas) == Ok((next, 0))
  {
    var again := Unapplied(next, deltas);
    assert next.applied == inv.applied + Unapplied(inv, deltas).Keys;
    assert again == map[];
    NothingPending(next, again);
  }

  lemma NothingPending(inv: Inventory, pending: map<DeltaId, Delta>)
    requires pending == map[]
    ensures StaysNonNegative(inv, pending) && MovedProjection(inv, pending) == inv.projection
    ensures inv.applied + pending.Keys == inv.applied
  {
  }

  // ----- No negative bucket without a quarantine -----

  ghost predicate NeverQuarantined(inv: Inventory) {
    forall t :: t in inv.outbox ==> inv.outbox[t].phase == Pending || inv.outbox[t].phase == Published
  }

  /** What one item has contributed to the projection: one unit where it last arrived. */
  lemma {:induction false} PublishedShare(inv: Inventory, epc: Epc, n: nat, b: Bucket)
    requires Base(inv) && NeverQuarantined(inv) && epc in inv.items && n <= inv.items[epc].version
    ensures 0 <= VersionSum(inv.outbox, SettledIn(b), epc, n)
    ensures
      var t := TransitionId(epc, n);
      1 <= n && inv.outbox[t].phase == Published ==>
        VersionSum(inv.outbox, SettledIn(b), epc, n) == At(To(inv.outbox[t]), b)
  {
    if n > 0 {
      var t := TransitionId(epc, n);
      assert t in inv.outbox && Linked(inv, t);
      PublishedShare(inv, epc, n - 1, b);
      SidedSum(inv, inv.outbox[t], b);
      if n > 1 {
        var before := TransitionId(epc, n - 1);
        assert before in inv.outbox && SettledInOrder(inv, before, t);
      }
    }
  }

  lemma {:induction false} PendingTail(inv: Inventory, t: TransitionId, n: nat, b: Bucket)
    requires Base(inv) && IsPending(inv, t) && t.version - 1 <= n <= inv.items[t.epc].version
    ensures VersionSum(inv.outbox, SettledIn(b), t.epc, n) == VersionSum(inv.outbox, SettledIn(b), t.epc, t.version - 1)
  {
    if n >= t.version {
      var u := TransitionId(t.epc, n);
      assert u in inv.outbox && SettledInOrder(inv, t, u);
      PendingTail(inv, t, n - 1, b);
    }
  }

  /** The bucket an earliest pending row takes a unit from holds one. */
  lemma SourceHasStock(inv: Inventory, t: TransitionId, b: Bucket)
    requires Invariant(inv) && NeverQuarantined(inv) && EarliestPending(inv, t)
    requires From(inv.outbox[t]) == Some(b)
    ensures 1 <= StockAt(inv, b)
  {
    var epc := t.epc;
    assert Linked(inv, t);
    var before := TransitionId(epc, t.version - 1);
    assert before in inv.outbox && !IsPending(inv, before);
    PublishedShare(inv, epc, t.version - 1, b);
    PendingTail(inv, t, inv.items[epc].version, b);
    Regroup(inv.items, inv.outbox, SettledIn(b));
    forall e | e in inv.items
      ensures 0 <= PerItem(inv.outbox, SettledIn(b))(e, inv.items[e])
    {
      PublishedShare(inv, e, inv.items[e].version, b);
    }
    MapSumNonNegative(inv.items, PerItem(inv.outbox, SettledIn(b)));
    assert PerItem(inv.outbox, SettledIn(b))(epc, inv.items[epc]) == 1;
    assert StockAt(inv, b) == SettledAt(inv, b);
  }

  /** As long as nothing was ever quarantined, an earliest pending row is always applicable. */
  lemma NeverNegative(inv: Inventory, t: TransitionId)
    requires Invariant(inv) && NeverQuarantined(inv) && EarliestPending(inv, t)
    ensures PublishTransition(inv, t).Ok?
  {
    RowsValidate(inv, t);
    PendingIsFresh(inv, t);
    var pending := Unapplied(inv, inv.outbox[t].deltas);
    forall b | b in BucketsOf(pending)
      ensures 0 <= StockAt(inv, b) + BucketTotal(pending, b)
    {
      assert Linked(inv, t);
      SidedSum(inv, inv.outbox[t], b);
      if From(inv.outbox[t]) == Some(b) {
        SourceHasStock(inv, t, b);
      }
    }
  }

  // ----- Rebuild -----

  lemma ReconcileKeepsBase(inv: Inventory)
    requires Base(inv)
    ensures Base(Reconcile(inv))
  {
    SimilarRowsKeep(inv, Reconcile(inv));
  }

  lemma WithProjection(inv: Inventory, p: map<Bucket, nat>)
    requires Base(inv)
    ensures Base(inv.(projection := p))
  {
    SimilarRowsKeep(inv, inv.(projection := p));
  }

  ghost function LostIn(counted: set<TransitionId>, b: Bucket): (TransitionId, Transition) -> int {
    (t: TransitionId, row: Transition) =>
      if t !in counted && row.phase == Reconciled then DeltaSum(row.deltas, b) else 0
  }

  /** Deltas of rows that were marked reconciled although the item count predates them. */
  ghost function LostAt(inv: Inventory, counted: set<TransitionId>, b: Bucket): int {
    MapSum(inv.outbox, LostIn(counted, b))
  }

  /** The rows that existed when the rebuild counted the items. */
  ghost function CountedRows(inv: Inventory, beforeCount: seq<ItemStep>): set<TransitionId> {
    RunItems(inv, beforeCount).outbox.Keys
  }

  /** The tables at the moment the rebuild marks the quarantined rows. */
  ghost function MarkedIn(
    inv: Inventory, beforeCount: seq<ItemStep>, beforeCheck: seq<ItemStep>, beforeReconcile: seq<ItemStep>): Inventory
  {
    RunItems(RunItems(RunItems(inv, beforeCount), beforeCheck), beforeReconcile)
  }

  ghost function UncountedIn(counted: set<TransitionId>, b: Bucket): (TransitionId, Transition) -> int {
    (t: TransitionId, row: Transition) =>
      if t !in counted && row.phase == Quarantined then DeltaSum(row.deltas, b) else 0
  }

  /** Deltas of the rows that are quarantined when they are marked but were not there when the items were counted. */
  ghost function LostWhenMarked(
    inv: Inventory, beforeCount: seq<ItemStep>, beforeCheck: seq<ItemStep>, beforeReconcile: seq<ItemStep>,
    b: Bucket): int
  {
    MapSum(
      MarkedIn(inv, beforeCount, beforeCheck, beforeReconcile).outbox,
      UncountedIn(CountedRows(inv, beforeCount), b))
  }

  /** No row created after the item count is quarantined when the quarantined rows are marked. */
  ghost predicate NothingLost(
    inv: Inventory, beforeCount: seq<ItemStep>, beforeCheck: seq<ItemStep>, beforeReconcile: seq<ItemStep>)
  {
    var late := MarkedIn(inv, beforeCount, beforeCheck, beforeReconcile);
    forall t :: t in late.outbox && late.outbox[t].phase == Quarantined ==> t in CountedRows(inv, beforeCount)
  }

  /** Where the settled rows stand relative to the item count a rebuild took. */
  lemma SettledAfterCount(counted: Inventory, reconciled: Inventory, b: Bucket)
    requires counted.outbox.Keys <= reconciled.outbox.Keys
    requires forall t :: t in counted.outbox ==>
               reconciled.outbox[t].deltas == counted.outbox[t].deltas && Settled(reconciled.outbox[t].phase)
    requires forall t :: t in reconciled.outbox && t !in counted.outbox ==>
               reconciled.outbox[t].phase == Pending || reconciled.outbox[t].phase == Reconciled
    ensures SettledAt(reconciled, b) ==
            MapSum(counted.outbox, AllIn(b)) + LostAt(reconciled, counted.outbox.Keys, b)
  {
    var early := (t: TransitionId, row: Transition) => if t in counted.outbox then DeltaSum(row.deltas, b) else 0;
    MapSumSplit(reconciled.outbox, early, LostIn(counted.outbox.Keys, b), SettledIn(b));
    MapSumPart(reconciled.outbox, early, counted.outbox, AllIn(b));
  }

  /** The snapshots of a rebuild that commits: all keep the row invariants. */
  lemma RebuildStages(
    inv: Inventory, beforeCount: seq<ItemStep>, beforeCheck: seq<ItemStep>,
    beforeReconcile: seq<ItemStep>, beforeCommit: seq<ItemStep>)
    returns (counted: Inventory, checked: Inventory, late: Inventory, last: Inventory)
    requires Base(inv)
    ensures counted == RunItems(inv, beforeCount) && Base(counted)
    ensures checked == RunItems(counted, beforeCheck) && Evolved(counted, checked)
    ensures late == RunItems(checked, beforeReconcile) && Evolved(checked, late) && Base(Reconcile(late))
    ensures last == RunItems(Reconcile(late), beforeCommit) && Evolved(Reconcile(late), last) && Base(last)
  {
    counted := RunItems(inv, beforeCount);
    ItemStepsKeep(inv, beforeCount);
    checked := RunItems(counted, beforeCheck);
    ItemStepsKeep(counted, beforeCheck);
    late := RunItems(checked, beforeReconcile);
    ItemStepsKeep(checked, beforeReconcile);
    ReconcileKeepsBase(late);
    last := RunItems(Reconcile(late), beforeCommit);
    ItemStepsKeep(Reconcile(late), beforeCommit);
  }

  lemma CountedProjectionCounts(inv: Inventory, counted: Inventory, b: Bucket)
    ensures StockAt(inv.(projection := CountedProjection(counted)), b) == LocatedAt(counted, b)
  {
    OccupiedIsPositive(counted, b);
  }

  /** What marking loses can be read off the rows before they are marked. */
  lemma LostIsUncounted(counted: Inventory, late: Inventory, b: Bucket)
    requires Evolved(counted, late)
    ensures LostAt(Reconcile(late), counted.outbox.Keys, b) ==
            MapSum(late.outbox, UncountedIn(counted.outbox.Keys, b))
  {
    MapSumEqual(
      Reconcile(late).outbox, LostIn(counted.outbox.Keys, b), late.outbox, UncountedIn(counted.outbox.Keys, b));
  }

  /**
   The exact effect of a rebuild that commits, whatever committed between its statements:
   the projection is the item count it took, and it falls short of the settled rows by
   exactly the lost deltas.
   */
  lemma RebuildEffect(
    inv: Inventory, beforeCount: seq<ItemStep>, beforeCheck: seq<ItemStep>,
    beforeReconcile: seq<ItemStep>, beforeCommit: seq<ItemStep>)
    requires Base(inv)
    requires RunRebuild(inv, beforeCount, beforeCheck, beforeReconcile, beforeCommit).1
    ensures
      var final := RunRebuild(inv, beforeCount, beforeCheck, beforeReconcile, beforeCommit).0;
      && Base(final)
      && (forall b ::
            && StockAt(final, b) == LocatedAt(RunItems(inv, beforeCount), b)
            && StockAt(final, b) + LostWhenMarked(inv, beforeCount, beforeCheck, beforeReconcile, b) ==
               SettledAt(final, b))
  {
    var counted, checked, late, last := RebuildStages(inv, beforeCount, beforeCheck, beforeReconcile, beforeCommit);
    var reconciled := Reconcile(late);
    var final := last.(projection := CountedProjection(counted));
    assert final == RunRebuild(inv, beforeCount, beforeCheck, beforeReconcile, beforeCommit).0;
    WithProjection(last, CountedProjection(counted));
    CountedWhenReconciled(counted, checked, late);
    EvolvedTrans(counted, checked, late);
    forall b
      ensures StockAt(final, b) == LocatedAt(counted, b)
      ensures StockAt(final, b) + LostWhenMarked(inv, beforeCount, beforeCheck, beforeReconcile, b) ==
              SettledAt(final, b)
    {
      CountedProjectionCounts(last, counted, b);
      AllIsLocated(counted, b);
      SettledAfterCount(counted, reconciled, b);
      EvolvedKeepsSettled(reconciled, last, b);
      LostIsUncounted(counted, late, b);
    }
  }

  /** After the second check every counted row is settled once the quarantined ones are marked. */
  lemma CountedWhenReconciled(counted: Inventory, checked: Inventory, late: Inventory)
    requires Evolved(counted, checked) && !HasPending(checked) && Evolved(checked, late)
    ensures
      var reconciled := Reconcile(late);
      && counted.outbox.Keys <= reconciled.outbox.Keys
      && (forall t :: t in counted.outbox ==>
            reconciled.outbox[t].deltas == counted.outbox[t].deltas && Settled(reconciled.outbox[t].phase))
      && (forall t :: t in reconciled.outbox && t !in counted.outbox ==>
            reconciled.outbox[t].phase == Pending || reconciled.outbox[t].phase == Reconciled)
  {
    forall t | t in counted.outbox
      ensures Settled(Reconcile(late).outbox[t].phase)
    {
      assert !IsPending(checked, t);
    }
    EvolvedTrans(counted, checked, late);
  }

  /**
   A committed rebuild leaves the equation true exactly when the rows that are quarantined
   when it marks them, but were not there when it counted, cancel out in every bucket. The
   equation need not hold before: such a rebuild heals what an earlier one lost.
   */
  lemma RebuildConservesIff(
    inv: Inventory, beforeCount: seq<ItemStep>, beforeCheck: seq<ItemStep>,
    beforeReconcile: seq<ItemStep>, beforeCommit: seq<ItemStep>)
    requires Base(inv)
    requires RunRebuild(inv, beforeCount, beforeCheck, beforeReconcile, beforeCommit).1
    ensures
      var final := RunRebuild(inv, beforeCount, beforeCheck, beforeReconcile, beforeCommit).0;
      && (Conserved(final) <==> forall b :: LostWhenMarked(inv, beforeCount, beforeCheck, beforeReconcile, b) == 0)
      && (NothingLost(inv, beforeCount, beforeCheck, beforeReconcile) ==> Conserved(final))
  {
    var final := RunRebuild(inv, beforeCount, beforeCheck, beforeReconcile, beforeCommit).0;
    RebuildEffect(inv, beforeCount, beforeCheck, beforeReconcile, beforeCommit);
    BalancedConserves(final);
    forall b
      ensures StockAt(final, b) == SettledAt(final, b) <==>
              LostWhenMarked(inv, beforeCount, beforeCheck, beforeReconcile, b) == 0
    {
    }
    if NothingLost(inv, beforeCount, beforeCheck, beforeReconcile) {
      NothingLostMeansZero(inv, beforeCount, beforeCheck, beforeReconcile);
    }
  }

  lemma NothingLostMeansZero(
    inv: Inventory, beforeCount: seq<ItemStep>, beforeCheck: seq<ItemStep>, beforeReconcile: seq<ItemStep>)
    requires NothingLost(inv, beforeCount, beforeCheck, beforeReconcile)
    ensures forall b :: LostWhenMarked(inv, beforeCount, beforeCheck, beforeReconcile, b) == 0
  {
    var late := MarkedIn(inv, beforeCount, beforeCheck, beforeReconcile);
    forall b
      ensures LostWhenMarked(inv, beforeCount, beforeCheck, beforeReconcile, b) == 0
    {
      MapSumZero(late.outbox, UncountedIn(CountedRows(inv, beforeCount), b));
    }
  }

  /**
   Not every interleaving is safe: an item that appears after the second check and whose row
   is quarantined before the quarantined rows are marked is reconciled away uncounted, even
   though nothing was quarantined between the item count and the second check.
   */
  lemma RebuildCanLose()
    ensures
      var inv := Initial(map[1 := 1]);
      var d := Decision(Location(1, 1), 1.0, 10, 10);
      var appear := ObserveStep(Reading(7, 10, 10, None, 5, Some(d), {Location(1, 1)}), 30);
      var poison := FailStep(TransitionId(7, 1), 1);
      var (final, committed) := RunRebuild(inv, [], [], [appear, poison], []);
      && committed
      && StockAt(final, Bucket(Location(1, 1), 5)) == 0
      && OpenAt(final, Bucket(Location(1, 1), 5)) == 0
      && LocatedAt(final, Bucket(Location(1, 1), 5)) == 1
  {
    var inv := Initial(map[1 := 1]);
    var d := Decision(Location(1, 1), 1.0, 10, 10);
    var r := Reading(7, 10, 10, None, 5, Some(d), {Location(1, 1)});
    var appear := ObserveStep(r, 30);
    var t := TransitionId(7, 1);
    var poison := FailStep(t, 1);
    var b := Bucket(Location(1, 1), 5);
    assert !HasPending(inv);
    var seen := RunItem(inv, appear);
    assert seen == MoveItem(inv, r, d);
    assert seen.outbox.Keys == {t};
    assert EarliestPending(seen, t);
    var bad := RunItem(seen, poison);
    assert [appear, poison][1..] == [poison];
    assert [poison][1..] == [];
    assert RunItems(seen, [poison]) == bad;
    assert RunItems(inv, [appear, poison]) == bad;
    var final := RunRebuild(inv, [], [], [appear, poison], []).0;
    assert final == Reconcile(bad).(projection := CountedProjection(inv));
    assert final.outbox.Keys == {t} && final.outbox[t].phase == Reconciled;
    MapSumZero(final.outbox, OpenIn(b));
    assert OccupiedBuckets(inv.items) == {};
    assert final.items == map[7 := seen.items[7]];
    MapSumInsert(map[], CountIn(b), 7, seen.items[7]);
    assert map[][7 := seen.items[7]] == final.items;
  }

  // ----- Every reachable state -----

  ghost predicate StepLosesNothing(inv: Inventory, step: Step) {
    step.Rebuild? && RunRebuild(inv, step.beforeCount, step.beforeCheck, step.beforeReconcile, step.beforeCommit).1 ==>
      NothingLost(inv, step.beforeCount, step.beforeCheck, step.beforeReconcile)
  }

  ghost predicate LosesNothing(inv: Inventory, steps: seq<Step>)
    decreases |steps|
  {
    steps == [] || (StepLosesNothing(inv, steps[0]) && LosesNothing(RunStep(inv, steps[0]), steps[1..]))
  }

  /** The row invariants do not depend on what a rebuild loses. */
  lemma StepKeepsBase(inv: Inventory, step: Step)
    requires Base(inv)
    ensures Base(RunStep(inv, step))
  {
    match step
    case Item(s) => ItemStepKeeps(inv, s);
    case Publish(t, maxAttempts) =>
      if EarliestPending(inv, t) {
        if PublishTransition(inv, t).Ok? {
          PublishKeepsBase(inv, t, PublishTransition(inv, t).value);
        } else {
          FailKeeps(inv, t, maxAttempts);
        }
      }
    case Rebuild(a, b, c, d) =>
      if RunRebuild(inv, a, b, c, d).1 {
        RebuildEffect(inv, a, b, c, d);
      } else if !HasPending(inv) {
        ItemStepsKeep(inv, a);
        ItemStepsKeep(RunItems(inv, a), b);
      }
  }

  lemma {:induction false} RunKeepsBase(inv: Inventory, steps: seq<Step>)
    requires Base(inv)
    ensures Base(Run(inv, steps))
    decreases |steps|
  {
    if steps != [] {
      StepKeepsBase(inv, steps[0]);
      RunKeepsBase(RunStep(inv, steps[0]), steps[1..]);
    }
  }

  /** What the last committed rebuild lost, given what was lost before. */
  ghost function LostOfStep(inv: Inventory, step: Step, b: Bucket, lost: int): int {
    if step.Rebuild?
      && RunRebuild(inv, step.beforeCount, step.beforeCheck, step.beforeReconcile, step.beforeCommit).1
    then LostWhenMarked(inv, step.beforeCount, step.beforeCheck, step.beforeReconcile, b)
    else lost
  }

  ghost function LostAfter(inv: Inventory, steps: seq<Step>, b: Bucket, lost: int): int
    decreases |steps|
  {
    if steps == [] then lost
    else LostAfter(RunStep(inv, steps[0]), steps[1..], b, LostOfStep(inv, steps[0], b, lost))
  }

  lemma ItemStepsKeepShortfall(inv: Inventory, steps: seq<ItemStep>, b: Bucket)
    requires Base(inv)
    ensures StockAt(RunItems(inv, steps), b) == StockAt(inv, b)
    ensures SettledAt(RunItems(inv, steps), b) == SettledAt(inv, b)
  {
    ItemStepsKeep(inv, steps);
    EvolvedKeepsSettled(inv, RunItems(inv, steps), b);
  }

  lemma PublishKeepsShortfall(inv: Inventory, t: TransitionId, maxAttempts: nat, b: Bucket)
    requires Base(inv)
    ensures
      var next := RunStep(inv, Publish(t, maxAttempts));
      StockAt(next, b) - StockAt(inv, b) == SettledAt(next, b) - SettledAt(inv, b)
  {
    if EarliestPending(inv, t) {
      if PublishTransition(inv, t).Ok? {
        PublishMovesStock(inv, t, PublishTransition(inv, t).value, b);
      } else {
        FailKeeps(inv, t, maxAttempts);
        EvolvedKeepsSettled(inv, FailTransition(inv, t, maxAttempts), b);
      }
    }
  }

  /** Only a committed rebuild changes by how much the projection falls short of the settled rows. */
  lemma StepKeepsShortfall(inv: Inventory, step: Step, b: Bucket, lost: int)
    requires Base(inv) && StockAt(inv, b) + lost == SettledAt(inv, b)
    ensures StockAt(RunStep(inv, step), b) + LostOfStep(inv, step, b, lost) == SettledAt(RunStep(inv, step), b)
  {
    match step
    case Item(s) =>
      ItemStepKeeps(inv, s);
      EvolvedKeepsSettled(inv, RunItem(inv, s), b);
    case Publish(t, maxAttempts) => PublishKeepsShortfall(inv, t, maxAttempts, b);
    case Rebuild(a, c, d, e) =>
      if RunRebuild(inv, a, c, d, e).1 {
        RebuildEffect(inv, a, c, d, e);
      } else if !HasPending(inv) {
        ItemStepsKeep(inv, a);
        ItemStepsKeepShortfall(inv, a, b);
        ItemStepsKeepShortfall(RunItems(inv, a), c, b);
      }
  }

  lemma {:induction false} RunKeepsShortfall(inv: Inventory, steps: seq<Step>, b: Bucket, lost: int)
    requires Base(inv) && StockAt(inv, b) + lost == SettledAt(inv, b)
    ensures StockAt(Run(inv, steps), b) + LostAfter(inv, steps, b, lost) == SettledAt(Run(inv, steps), b)
    decreases |steps|
  {
    if steps != [] {
      StepKeepsShortfall(inv, steps[0], b, lost);
      StepKeepsBase(inv, steps[0]);
      RunKeepsShortfall(RunStep(inv, steps[0]), steps[1..], b, LostOfStep(inv, steps[0], b, lost));
    }
  }

  /** A transaction keeps the invariant exactly when it is not a rebuild that loses something. */
  lemma StepKeeps(inv: Inventory, step: Step)
    requires Invariant(inv)
    ensures Base(RunStep(inv, step))
    ensures Invariant(RunStep(inv, step)) <==> forall b :: LostOfStep(inv, step, b, 0) == 0
  {
    StepKeepsBase(inv, step);
    forall b
      ensures StockAt(RunStep(inv, step), b) == SettledAt(RunStep(inv, step), b) <==>
              LostOfStep(inv, step, b, 0) == 0
    {
      StepKeepsShortfall(inv, step, b, 0);
    }
  }

  lemma {:induction false} ItemStepsKeepZones(inv: Inventory, steps: seq<ItemStep>)
    ensures RunItems(inv, steps).zones == inv.zones
    decreases |steps|
  {
    if steps != [] {
      ItemStepsKeepZones(RunItem(inv, steps[0]), steps[1..]);
    }
  }

  lemma StepKeepsZones(inv: Inventory, step: Step)
    ensures RunStep(inv, step).zones == inv.zones
  {
    if step.Rebuild? {
      var counted := RunItems(inv, step.beforeCount);
      var checked := RunItems(counted, step.beforeCheck);
      var late := RunItems(checked, step.beforeReconcile);
      ItemStepsKeepZones(inv, step.beforeCount);
      ItemStepsKeepZones(counted, step.beforeCheck);
      ItemStepsKeepZones(checked, step.beforeReconcile);
      ItemStepsKeepZones(Reconcile(late), step.beforeCommit);
    }
  }

  lemma InitialInvariant(zones: map<ZoneId, StoreId>)
    ensures Invariant(Initial(zones))
  {
  }

  lemma {:induction false} RunKeeps(inv: Inventory, steps: seq<Step>)
    requires Invariant(inv) && LosesNothing(inv, steps)
    ensures Invariant(Run(inv, steps))
    decreases |steps|
  {
    if steps != [] {
      var step := steps[0];
      if step.Rebuild? && NothingLost(inv, step.beforeCount, step.beforeCheck, step.beforeReconcile) {
        NothingLostMeansZero(inv, step.beforeCount, step.beforeCheck, step.beforeReconcile);
      }
      StepKeeps(inv, step);
      RunKeeps(RunStep(inv, step), steps[1..]);
    }
  }

  /**
   In every reachable state, for every bucket: projection quantity, plus pending deltas,
   plus deltas of quarantined rows not yet reconciled, plus what the last committed rebuild
   lost, equals the number of items there. So the conservation equation itself holds exactly
   when that rebuild lost nothing, whatever rebuilds before it lost.
   */
  lemma ReachableConserved(zones: map<ZoneId, StoreId>, steps: seq<Step>)
    ensures
      var inv := Run(Initial(zones), steps);
      && (forall b ::
            StockAt(inv, b) + OpenAt(inv, b) + LostAfter(Initial(zones), steps, b, 0) == LocatedAt(inv, b))
      && (Conserved(inv) <==> forall b :: LostAfter(Initial(zones), steps, b, 0) == 0)
  {
    var inv := Run(Initial(zones), steps);
    InitialInvariant(zones);
    RunKeepsBase(Initial(zones), steps);
    forall b
      ensures StockAt(inv, b) + OpenAt(inv, b) + LostAfter(Initial(zones), steps, b, 0) == LocatedAt(inv, b)
    {
      RunKeepsShortfall(Initial(zones), steps, b, 0);
      SettledAndOpen(inv, b);
    }
  }

  /** The outbox rows of one item: versions 1..n, each leaving where the one before arrived. */
  ghost predicate GaplessChain(inv: Inventory, epc: Epc)
    requires epc in inv.items
  {
    var n := inv.items[epc].version;
    && 1 <= n
    && (forall v: nat :: TransitionId(epc, v) in inv.outbox <==> 1 <= v <= n)
    && From(inv.outbox[TransitionId(epc, 1)]) == None
    && (forall v: nat :: 1 < v <= n ==>
          From(inv.outbox[TransitionId(epc, v)]) == To(inv.outbox[TransitionId(epc, v - 1)]))
    && To(inv.outbox[TransitionId(epc, n)]) == BucketOf(inv.items[epc])
  }

  lemma BaseIsGapless(inv: Inventory, epc: Epc)
    requires Base(inv) && epc in inv.items
    ensures GaplessChain(inv, epc)
  {
    assert ItemSettled(inv, epc);
    assert Linked(inv, TransitionId(epc, 1));
    forall v: nat | 1 < v <= inv.items[epc].version
      ensures From(inv.outbox[TransitionId(epc, v)]) == To(inv.outbox[TransitionId(epc, v - 1)])
    {
      assert Linked(inv, TransitionId(epc, v));
    }
  }

  /** In every reachable state the rows of each item form such a chain. */
  lemma ReachableChains(zones: map<ZoneId, StoreId>, steps: seq<Step>, epc: Epc)
    requires epc in Run(Initial(zones), steps).items
    ensures GaplessChain(Run(Initial(zones), steps), epc)
  {
    InitialInvariant(zones);
    RunKeepsBase(Initial(zones), steps);
    BaseIsGapless(Run(Initial(zones), steps), epc);
  }

  /** In every reachable state the observed times of an item's rows never decrease. */
  lemma ReachableTimesRise(zones: map<ZoneId, StoreId>, steps: seq<Step>, epc: Epc, u: nat, v: nat)
    requires epc in Run(Initial(zones), steps).items
    requires 1 <= u <= v <= Run(Initial(zones), steps).items[epc].version
    ensures
      var inv := Run(Initial(zones), steps);
      var early, late := TransitionId(epc, u), TransitionId(epc, v);
      && early in inv.outbox && late in inv.outbox
      && inv.outbox[early].deltas != [] && inv.outbox[late].deltas != []
      && TimeOf(inv.outbox[early]) <= TimeOf(inv.outbox[late])
  {
    InitialInvariant(zones);
    RunKeepsBase(Initial(zones), steps);
    TimesRise(Run(Initial(zones), steps), epc, u, v);
  }

  lemma {:induction false} TimesRise(inv: Inventory, epc: Epc, u: nat, v: nat)
    requires Base(inv) && epc in inv.items && 1 <= u <= v <= inv.items[epc].version
    ensures inv.outbox[TransitionId(epc, u)].deltas != [] && inv.outbox[TransitionId(epc, v)].deltas != []
    ensures TimeOf(inv.outbox[TransitionId(epc, u)]) <= TimeOf(inv.outbox[TransitionId(epc, v)])
  {
    assert Linked(inv, TransitionId(epc, v));
    if u < v {
      TimesRise(inv, epc, u, v - 1);
    }
  }

  // ----- Removal is final -----

  ghost predicate SameItem(inv: Inventory, next: Inventory, epc: Epc) {
    && epc in inv.items && epc in next.items && next.items[epc] == inv.items[epc]
    && forall v: nat :: TransitionId(epc, v) in next.outbox <==> TransitionId(epc, v) in inv.outbox
  }

  lemma ItemStepAfterRemoval(inv: Inventory, step: ItemStep, epc: Epc)
    requires Removed(inv, epc)
    ensures SameItem(inv, RunItem(inv, step), epc)
  {
  }

  lemma {:induction false} ItemStepsAfterRemoval(inv: Inventory, steps: seq<ItemStep>, epc: Epc)
    requires Removed(inv, epc)
    ensures SameItem(inv, RunItems(inv, steps), epc)
    decreases |steps|
  {
    if steps != [] {
      ItemStepAfterRemoval(inv, steps[0], epc);
      ItemStepsAfterRemoval(RunItem(inv, steps[0]), steps[1..], epc);
    }
  }

  lemma StepAfterRemoval(inv: Inventory, step: Step, epc: Epc)
    requires Removed(inv, epc)
    ensures SameItem(inv, RunStep(inv, step), epc)
  {
    match step
    case Item(s) => ItemStepAfterRemoval(inv, s, epc);
    case Publish(t, maxAttempts) =>
    case Rebuild(a, b, c, d) =>
      ItemStepsAfterRemoval(inv, a, epc);
      ItemStepsAfterRemoval(RunItems(inv, a), b, epc);
      var checked := RunItems(RunItems(inv, a), b);
      ItemStepsAfterRemoval(checked, c, epc);
      var reconciled := Reconcile(RunItems(checked, c));
      ItemStepsAfterRemoval(reconciled, d, epc);
  }

  /** After an authoritative removal no later step adds a transition or a location. */
  lemma {:induction false} RemovalIsFinal(inv: Inventory, steps: seq<Step>, epc: Epc)
    requires Removed(inv, epc)
    ensures SameItem(inv, Run(inv, steps), epc)
    decreases |steps|
  {
    if steps != [] {
      StepAfterRemoval(inv, steps[0], epc);
      RemovalIsFinal(RunStep(inv, steps[0]), steps[1..], epc);
    }
  }

  // ----- What the caller of a removal is told -----

  /** Phases that a row never leaves together: not pending, and closed under reconciling. */
  ghost predicate Lasting(phases: set<Phase>) {
    Pending !in phases && (Quarantined in phases ==> Reconciled in phases)
  }

  ghost predicate RowIn(inv: Inventory, t: TransitionId, phases: set<Phase>) {
    t in inv.outbox && inv.outbox[t].phase in phases
  }

  const SETTLED: set<Phase> := {Published, Reconciled}
  const POISONED: set<Phase> := {Quarantined, Reconciled}

  lemma EvolvedKeepsRow(inv: Inventory, next: Inventory, t: TransitionId, phases: set<Phase>)
    requires Evolved(inv, next) && RowIn(inv, t, phases) && Lasting(phases)
    ensures RowIn(next, t, phases)
  {
  }

  lemma RebuildKeepsRow(
    inv: Inventory, a: seq<ItemStep>, b: seq<ItemStep>, c: seq<ItemStep>, d: seq<ItemStep>, t: TransitionId,
    phases: set<Phase>)
    requires Base(inv) && RowIn(inv, t, phases) && Lasting(phases)
    ensures RowIn(RunRebuild(inv, a, b, c, d).0, t, phases)
  {
    if !HasPending(inv) {
      var counted, checked, late, last := RebuildStages(inv, a, b, c, d);
      ItemStepsKeep(inv, a);
      EvolvedKeepsRow(inv, counted, t, phases);
      EvolvedKeepsRow(counted, checked, t, phases);
      EvolvedKeepsRow(checked, late, t, phases);
      assert RowIn(Reconcile(late), t, phases);
      EvolvedKeepsRow(Reconcile(late), last, t, phases);
    }
  }

  lemma StepKeepsRow(inv: Inventory, step: Step, t: TransitionId, phases: set<Phase>)
    requires Base(inv) && RowIn(inv, t, phases) && Lasting(phases)
    ensures RowIn(RunStep(inv, step), t, phases)
  {
    match step
    case Item(s) => ItemStepKeeps(inv, s);
    case Publish(u, maxAttempts) =>
      if EarliestPending(inv, u) && PublishTransition(inv, u).Ok? {
        PublishOutcome(inv, u, PublishTransition(inv, u).value);
      }
    case Rebuild(a, b, c, d) => RebuildKeepsRow(inv, a, b, c, d, t, phases);
  }

  /** A row that was applied, or poisoned, is never pending again. */
  lemma {:induction false} RowLasts(inv: Inventory, steps: seq<Step>, t: TransitionId, phases: set<Phase>)
    requires Base(inv) && RowIn(inv, t, phases) && Lasting(phases)
    ensures RowIn(Run(inv, steps), t, phases)
    decreases |steps|
  {
    if steps != [] {
      StepKeepsBase(inv, steps[0]);
      StepKeepsRow(inv, steps[0], t, phases);
      RowLasts(RunStep(inv, steps[0]), steps[1..], t, phases);
    }
  }

  /** If nothing is or was quarantined at the end of a run, none of its rebuilds lost anything. */
  lemma {:induction false} UnquarantinedLosesNothing(inv: Inventory, steps: seq<Step>)
    requires Base(inv) && NeverQuarantined(Run(inv, steps))
    ensures LosesNothing(inv, steps)
    decreases |steps|
  {
    if steps != [] {
      var next := RunStep(inv, steps[0]);
      StepKeepsBase(inv, steps[0]);
      if !StepLosesNothing(inv, steps[0]) {
        var t := LostRowIsPoisoned(inv, steps[0]);
        RowLasts(next, steps[1..], t, POISONED);
      }
      UnquarantinedLosesNothing(next, steps[1..]);
    }
  }

  lemma LostRowIsPoisoned(inv: Inventory, step: Step) returns (t: TransitionId)
    requires Base(inv) && !StepLosesNothing(inv, step)
    ensures RowIn(RunStep(inv, step), t, POISONED)
  {
    var Rebuild(a, b, c, d) := step;
    var counted, checked, late, last := RebuildStages(inv, a, b, c, d);
    t :| t in late.outbox && late.outbox[t].phase == Quarantined && t !in CountedRows(inv, a);
    assert RowIn(Reconcile(late), t, POISONED);
    EvolvedKeepsRow(Reconcile(late), last, t, POISONED);
  }

  /** In a run without quarantine the worker never meets either "negative" error. */
  lemma ReachableNeverNegative(zones: map<ZoneId, StoreId>, steps: seq<Step>, t: TransitionId)
    requires NeverQuarantined(Run(Initial(zones), steps)) && EarliestPending(Run(Initial(zones), steps), t)
    ensures PublishTransition(Run(Initial(zones), steps), t).Ok?
  {
    InitialInvariant(zones);
    UnquarantinedLosesNothing(Initial(zones), steps);
    RunKeeps(Initial(zones), steps);
    NeverNegative(Run(Initial(zones), steps), t);
  }

  /**
   Every accepted removal has its outbox row, and once its status says projected it says so
   in every later state.
   */
  lemma {:induction false} ProjectedIsFinal(inv: Inventory, steps: seq<Step>, k: ExternalKey)
    requires Base(inv) && k in inv.events
    ensures inv.events[k].transition in Run(inv, steps).outbox
    ensures BusinessEventStatus(inv, inv.events[k]) == Projected ==>
              BusinessEventStatus(Run(inv, steps), inv.events[k]) == Projected
    decreases |steps|
  {
    if steps != [] {
      StepKeepsBase(inv, steps[0]);
      StepKeepsEvent(inv, steps[0], k);
      if RowIn(inv, inv.events[k].transition, SETTLED) {
        StepKeepsRow(inv, steps[0], inv.events[k].transition, SETTLED);
      }
      ProjectedIsFinal(RunStep(inv, steps[0]), steps[1..], k);
    }
  }

  /** An accepted business event is never replaced: its key is idempotent. */
  lemma StepKeepsEvent(inv: Inventory, step: Step, k: ExternalKey)
    requires k in inv.events && Base(inv)
    ensures k in RunStep(inv, step).events && RunStep(inv, step).events[k] == inv.events[k]
  {
    match step
    case Item(s) =>
    case Publish(u, maxAttempts) =>
    case Rebuild(a, b, c, d) =>
      ItemStepsKeepEvent(inv, a, k);
      ItemStepsKeepEvent(RunItems(inv, a), b, k);
      var checked := RunItems(RunItems(inv, a), b);
      ItemStepsKeepEvent(checked, c, k);
      ItemStepsKeepEvent(Reconcile(RunItems(checked, c)), d, k);
  }

  lemma {:induction false} ItemStepsKeepEvent(inv: Inventory, steps: seq<ItemStep>, k: ExternalKey)
    requires k in inv.events
    ensures k in RunItems(inv, steps).events && RunItems(inv, steps).events[k] == inv.events[k]
    decreases |steps|
  {
    if steps != [] {
      assert k in RunItem(inv, steps[0]).events && RunItem(inv, steps[0]).events[k] == inv.events[k];
      ItemStepsKeepEvent(RunItem(inv, steps[0]), steps[1..], k);
    }
  }
}
