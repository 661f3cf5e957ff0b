/**
 The task board beside the pipeline: an admitted read that moves an item from the backroom
 to the floor of its store credits a task in the same transaction, and evaluations read the
 projection and the items. What evidence and tasks stand for is proved over runs in which
 evaluations, task changes and every pipeline step interleave, during rebuilds too.
 */
module PipelineTasks {
  import opened Basics
  import opened Observations
  import opened StableZones
  import opened EventWorkers
  import opened Inventories
  import opened InventoryInvariants
  import InventoryRuns
  import EventWorkerInvariants
  import EventWorkerRuns
  import Tasks
  import TaskHistories
  import TaskOutcomes
  import opened Evaluations

  // ----- Which reads are moves -----

  /** The read gets past every earlier branch and is recorded as a change of place. */
  predicate Records(inv: Inventory, r: Reading) {
    var watermark := Watermark(inv, r.epc, r.processedWatermark);
    && r.decision.Some? && Storable(inv, r)
    && !Before(r.observedAt, watermark) && !Removed(inv, r.epc)
    && !Before(r.decision.value.observedAt, watermark) && !SettlesWhereItIs(inv, r, r.decision.value)
  }

  lemma RecordsMoves(inv: Inventory, r: Reading, flush: nat)
    requires Storable(inv, r)
    ensures Records(inv, r) ==> Observe(inv, r, flush).0 == MoveItem(inv, r, r.decision.value)
    ensures !Records(inv, r) ==> Observe(inv, r, flush).0.outbox == inv.outbox
  {
  }

  /** A recorded move within one store and of one SKU may verify a task. */
  function MoveOf(inv: Inventory, r: Reading): Option<Tasks.Move> {
    if !Records(inv, r) || r.epc !in inv.items || inv.items[r.epc].location.None? then None
    else
      var from, to := inv.items[r.epc].location.value, r.decision.value.location;
      if from.store != to.store || inv.items[r.epc].sku != r.sku then None
      else
        Some(Tasks.Move(
               TransitionId(r.epc, NextVersion(inv, r.epc)), to.store, r.sku, from.zone, to.zone,
               r.decision.value.observedAt))
  }

  ghost function AttributedItem(zones: Zones, inv: Inventory, b: Tasks.Board, step: ItemStep): Tasks.Board {
    if step.ObserveStep? && MoveOf(inv, step.reading).Some? then
      Tasks.Attributed(zones, b, MoveOf(inv, step.reading).value)
    else b
  }

  // ----- What evidence stands for -----

  /** The row took one unit of the task's SKU from the backroom to the floor of its store after the task was started. */
  ghost predicate IsFloorMove(zones: Zones, row: Transition, t: Tasks.Task) {
    && |row.deltas| == 2 && row.deltas[0].quantity == -1 && row.deltas[1].quantity == 1
    && row.deltas[0].bucket.sku == t.sku && row.deltas[1].bucket.sku == t.sku
    && row.deltas[0].bucket.location.store == t.store && row.deltas[1].bucket.location.store == t.store
    && Tasks.IsKind(zones, t.store, row.deltas[0].bucket.location.zone, Tasks.Backroom)
    && Tasks.IsKind(zones, t.store, row.deltas[1].bucket.location.zone, Tasks.SalesFloor)
    && t.startedAt.Some? && t.startedAt.value <= row.deltas[1].observedAt
  }

  ghost predicate BackedBy(zones: Zones, inv: Inventory, b: Tasks.Board, m: TransitionId)
    requires m in b.evidence
  {
    && m in inv.outbox && b.evidence[m] in b.tasks
    && IsFloorMove(zones, inv.outbox[m], b.tasks[b.evidence[m]])
  }

  ghost predicate Backed(zones: Zones, inv: Inventory, b: Tasks.Board) {
    forall m {:trigger BackedBy(zones, inv, b, m)} :: m in b.evidence ==> BackedBy(zones, inv, b, m)
  }

  ghost predicate Joined(zones: Zones, inv: Inventory, b: Tasks.Board) {
    Base(inv) && Tasks.BoardOk(b) && Backed(zones, inv, b)
  }

  /** Outbox rows stay and keep their deltas. */
  ghost predicate KeepsDeltas(inv: Inventory, next: Inventory) {
    forall t :: t in inv.outbox ==> t in next.outbox && next.outbox[t].deltas == inv.outbox[t].deltas
  }

  lemma BackedStays(zones: Zones, inv: Inventory, next: Inventory, b: Tasks.Board, b': Tasks.Board)
    requires Backed(zones, inv, b) && KeepsDeltas(inv, next) && Tasks.Advanced(b, b')
    ensures forall m {:trigger m in b.evidence} :: m in b.evidence ==> m in b'.evidence && BackedBy(zones, next, b', m)
  {
    forall m | m in b.evidence
      ensures m in b'.evidence && BackedBy(zones, next, b', m)
    {
      assert BackedBy(zones, inv, b, m) && m in b'.evidence && b.evidence[m] in b'.tasks;
    }
  }

  /**
   A read is offered to the tasks exactly when it adds a row for an item that was known to be in the
   same store under the same SKU, as a move from there to the place decided on.
   */
  lemma MoveOutcome(inv: Inventory, r: Reading, flush: nat)
    requires Base(inv) && Storable(inv, r)
    ensures
      var next := Observe(inv, r, flush).0;
      var inStore :=
        && r.epc in inv.items && inv.items[r.epc].location.Some? && inv.items[r.epc].sku == r.sku
        && r.decision.Some? && inv.items[r.epc].location.value.store == r.decision.value.location.store;
      && (MoveOf(inv, r).Some? <==> inStore && next.outbox != inv.outbox)
      && (MoveOf(inv, r).Some? ==>
            var m := MoveOf(inv, r).value;
            && m.id !in inv.outbox && m.id in next.outbox && m.id.epc == r.epc && m.sku == r.sku
            && Location(m.store, m.from) == inv.items[r.epc].location.value
            && Location(m.store, m.to) == r.decision.value.location && m.observedAt == r.decision.value.observedAt)
  {
    RecordsMoves(inv, r, flush);
    if Records(inv, r) {
      assert TransitionId(r.epc, NextVersion(inv, r.epc)) in MoveItem(inv, r, r.decision.value).outbox;
      assert r.epc in inv.items ==> ItemSettled(inv, r.epc);
    }
  }

  // ----- Which rows credit a task -----

  /** The row moves one unit of one SKU within one store. */
  predicate WithinStore(row: Transition) {
    && |row.deltas| == 2 && row.deltas[0].bucket.sku == row.deltas[1].bucket.sku
    && row.deltas[0].bucket.location.store == row.deltas[1].bucket.location.store
  }

  function MoveAs(t: TransitionId, row: Transition): Tasks.Move
    requires WithinStore(row)
  {
    var (left, arrived) := (row.deltas[0].bucket.location, row.deltas[1].bucket.location);
    Tasks.Move(t, left.store, row.deltas[1].bucket.sku, left.zone, arrived.zone, row.deltas[1].observedAt)
  }

  /**
   A row that restocks a floor some task waits for is credited to the first such task; no other
   row changes a task.
   */
  ghost predicate CreditsRow(zones: Zones, t: TransitionId, row: Transition, b: Tasks.Board, b': Tasks.Board) {
    if WithinStore(row) && TaskOutcomes.Restocks(zones, MoveAs(t, row))
       && exists id :: id in b.tasks && TaskOutcomes.Waits(b.tasks[id], MoveAs(t, row))
    then
      exists id :: TaskOutcomes.FirstWaiting(b, MoveAs(t, row), id)
                   && TaskOutcomes.CreditedTo(b, b', MoveAs(t, row), id)
    else b' == b
  }

  /** Without a new row no task changes; a new one credits what it restocks. */
  ghost predicate CreditsRows(zones: Zones, inv: Inventory, next: Inventory, b: Tasks.Board, b': Tasks.Board) {
    && (next.outbox.Keys == inv.outbox.Keys ==> b' == b)
    && forall t :: t in next.outbox && t !in inv.outbox ==> CreditsRow(zones, t, next.outbox[t], b, b')
  }

  lemma RecordedRow(inv: Inventory, r: Reading)
    requires Base(inv) && r.decision.Some?
    ensures
      var t := TransitionId(r.epc, NextVersion(inv, r.epc));
      t !in inv.outbox && MoveItem(inv, r, r.decision.value).outbox.Keys == inv.outbox.Keys + {t}
  {
    assert r.epc in inv.items ==> ItemSettled(inv, r.epc);
  }

  /** The move offered is the one that the row shows, and a row that shows none is not offered. */
  lemma RowShowsMove(inv: Inventory, r: Reading)
    requires Records(inv, r)
    ensures
      var t := TransitionId(r.epc, NextVersion(inv, r.epc));
      var row := MoveItem(inv, r, r.decision.value).outbox[t];
      MoveOf(inv, r) == if WithinStore(row) then Some(MoveAs(t, row)) else None
  {
  }

  lemma RowCredits(zones: Zones, inv: Inventory, b: Tasks.Board, r: Reading)
    requires Joined(zones, inv, b) && Records(inv, r)
    ensures
      var t := TransitionId(r.epc, NextVersion(inv, r.epc));
      var b' := if MoveOf(inv, r).Some? then Tasks.Attributed(zones, b, MoveOf(inv, r).value) else b;
      CreditsRow(zones, t, MoveItem(inv, r, r.decision.value).outbox[t], b, b')
  {
    RowShowsMove(inv, r);
    if MoveOf(inv, r).Some? {
      MoveIsNew(zones, inv, b, r);
      TaskOutcomes.AttributionOutcome(zones, b, MoveOf(inv, r).value);
    }
  }

  lemma ReadCredits(zones: Zones, inv: Inventory, b: Tasks.Board, r: Reading, flush: nat)
    requires Joined(zones, inv, b) && Storable(inv, r)
    ensures CreditsRows(
              zones, inv, Observe(inv, r, flush).0, b, AttributedItem(zones, inv, b, ObserveStep(r, flush)))
  {
    RecordsMoves(inv, r, flush);
    if Records(inv, r) {
      RecordedRow(inv, r);
      RowCredits(zones, inv, b, r);
    }
  }

  lemma ItemCredits(zones: Zones, inv: Inventory, b: Tasks.Board, step: ItemStep)
    requires Joined(zones, inv, b)
    ensures CreditsRows(zones, inv, RunItem(inv, step), b, AttributedItem(zones, inv, b, step))
  {
    match step
    case ObserveStep(r, flush) =>
      if Storable(inv, r) {
        ReadCredits(zones, inv, b, r, flush);
      }
    case RemoveStep(q, stores, eventId, processed, now, skew) =>
    case FailStep(t, maxAttempts) =>
  }

  /** The transition of a move is new, so the unique constraint on evidence never fires. */
  lemma MoveIsNew(zones: Zones, inv: Inventory, b: Tasks.Board, r: Reading)
    requires Joined(zones, inv, b) && MoveOf(inv, r).Some?
    ensures MoveOf(inv, r).value.id !in inv.outbox && MoveOf(inv, r).value.id !in b.evidence
  {
    var id := MoveOf(inv, r).value.id;
    assert id !in inv.outbox;
    assert id in b.evidence ==> BackedBy(zones, inv, b, id);
  }

  lemma CreditIsBacked(zones: Zones, inv: Inventory, b: Tasks.Board, r: Reading, flush: nat, id: Tasks.TaskId)
    requires MoveOf(inv, r).Some? && Tasks.ToFloor(zones, MoveOf(inv, r).value)
    requires Tasks.Chosen(b, MoveOf(inv, r).value, id)
    ensures
      var m := MoveOf(inv, r).value;
      BackedBy(zones, RunItem(inv, ObserveStep(r, flush)), Tasks.Credited(b, m, id), m.id)
  {
    RecordsMoves(inv, r, flush);
    var m := MoveOf(inv, r).value;
    var row := RunItem(inv, ObserveStep(r, flush)).outbox[m.id];
    assert |row.deltas| == 2 && row.deltas[1].observedAt == m.observedAt;
  }

  lemma CreditKeeps(zones: Zones, inv: Inventory, b: Tasks.Board, r: Reading, flush: nat)
    requires Joined(zones, inv, b) && MoveOf(inv, r).Some?
    requires Tasks.Attributed(zones, b, MoveOf(inv, r).value) != b
    requires KeepsDeltas(inv, RunItem(inv, ObserveStep(r, flush)))
    ensures Backed(zones, RunItem(inv, ObserveStep(r, flush)), Tasks.Attributed(zones, b, MoveOf(inv, r).value))
  {
    var m := MoveOf(inv, r).value;
    var id, b' := Tasks.ChosenTask(b, m), Tasks.Attributed(zones, b, m);
    Tasks.AttributedKeeps(zones, b, m);
    BackedStays(zones, inv, RunItem(inv, ObserveStep(r, flush)), b, b');
    CreditIsBacked(zones, inv, b, r, flush, id);
    assert forall j :: j in b'.evidence ==> j in b.evidence || j == m.id;
  }

  lemma ItemKeeps(zones: Zones, inv: Inventory, b: Tasks.Board, step: ItemStep)
    requires Joined(zones, inv, b)
    ensures Joined(zones, RunItem(inv, step), AttributedItem(zones, inv, b, step))
  {
    var next, b' := RunItem(inv, step), AttributedItem(zones, inv, b, step);
    ItemStepKeeps(inv, step);
    if b' == b {
      BackedStays(zones, inv, next, b, b);
    } else {
      Tasks.AttributedKeeps(zones, b, MoveOf(inv, step.reading).value);
      CreditKeeps(zones, inv, b, step.reading, step.flush);
    }
  }

  lemma SameDeltasKeep(zones: Zones, inv: Inventory, next: Inventory, b: Tasks.Board)
    requires Joined(zones, inv, b) && Base(next) && KeepsDeltas(inv, next)
    ensures Joined(zones, next, b)
  {
    BackedStays(zones, inv, next, b, b);
  }

  lemma PublishKeeps(zones: Zones, inv: Inventory, b: Tasks.Board, t: TransitionId, maxAttempts: nat)
    requires Joined(zones, inv, b)
    ensures Joined(zones, RunStep(inv, Publish(t, maxAttempts)), b)
  {
    var next := RunStep(inv, Publish(t, maxAttempts));
    InventoryRuns.StepKeepsBase(inv, Publish(t, maxAttempts));
    if EarliestPending(inv, t) {
      if PublishTransition(inv, t).Ok? {
        InventoryRuns.PublishOutcome(inv, t, next);
      } else {
        FailKeeps(inv, t, maxAttempts);
      }
    }
    SameDeltasKeep(zones, inv, next, b);
  }

  lemma EvaluationKeepsEvidence(
    zones: Zones, inv: Inventory, b: Tasks.Board, store: StoreId, snapshots: seq<Tasks.Snapshot>)
    requires Joined(zones, inv, b)
    ensures Joined(zones, inv, Tasks.Evaluate(b, store, snapshots))
  {
    Tasks.EvaluateKeeps(b, store, snapshots);
    SameEvidenceAfter(b, store, snapshots);
    BackedStays(zones, inv, inv, b, Tasks.Evaluate(b, store, snapshots));
  }

  lemma {:induction false} SameEvidenceAfter(b: Tasks.Board, store: StoreId, snapshots: seq<Tasks.Snapshot>)
    ensures Tasks.Evaluate(b, store, snapshots).evidence == b.evidence
    decreases |snapshots|
  {
    if snapshots != [] {
      SameEvidenceAfter(b, store, snapshots[..|snapshots| - 1]);
    }
  }

  lemma PatchKeepsEvidence(zones: Zones, inv: Inventory, b: Tasks.Board, id: Tasks.TaskId, q: Tasks.PatchRequest)
    requires Joined(zones, inv, b) && Tasks.PatchTask(b, id, q).Ok?
    ensures Joined(zones, inv, Tasks.PatchTask(b, id, q).value)
  {
    Tasks.PatchKeeps(b, id, q);
    BackedStays(zones, inv, inv, b, Tasks.PatchTask(b, id, q).value);
  }

  // ----- Runs of the pipeline and the board together -----

  datatype Whole = Whole(system: EventWorkerInvariants.System, board: Tasks.Board)

  /** Transactions that may commit while a rebuild runs. */
  datatype WholeSide =
    | PipelineSide(step: EventWorkerRuns.SideStep)
    | EvaluateStore(store: StoreId, link: Tasks.Link, skus: seq<SkuId>, criteria: Criteria)
    | ChangeTask(task: Tasks.TaskId, request: Tasks.PatchRequest)

  datatype WholeStep =
    | Aside(side: WholeSide)
    | ApplyStep(transition: TransitionId)
    | RebuildStep(
        beforeCount: seq<WholeSide>, beforeCheck: seq<WholeSide>,
        beforeReconcile: seq<WholeSide>, beforeCommit: seq<WholeSide>)

  ghost function AfterSide(zones: Zones, w: Whole, step: WholeSide, c: Config): Whole
    requires ValidSettings(c.settings)
  {
    match step
    case PipelineSide(p) =>
      var i := EventWorkerRuns.ItemStepOf(w.system, p, c);
      Whole(
        EventWorkerRuns.RunSide(w.system, p, c),
        if i.Some? then AttributedItem(zones, w.system.inventory, w.board, i.value) else w.board)
    case EvaluateStore(store, link, skus, criteria) =>
      if Listing(skus, criteria) then
        w.(board := EvaluateInventory(zones, w.system.inventory, w.board, store, link, skus, criteria))
      else w
    case ChangeTask(id, q) =>
      var r := Tasks.PatchTask(w.board, id, q);
      if r.Ok? then w.(board := r.value) else w
  }

  ghost function AfterSides(zones: Zones, w: Whole, steps: seq<WholeSide>, c: Config): Whole
    requires ValidSettings(c.settings)
    decreases |steps|
  {
    if steps == [] then w else AfterSides(zones, AfterSide(zones, w, steps[0], c), steps[1..], c)
  }

  ghost function AfterRebuild(
    zones: Zones, w: Whole, beforeCount: seq<WholeSide>, beforeCheck: seq<WholeSide>,
    beforeReconcile: seq<WholeSide>, beforeCommit: seq<WholeSide>, c: Config): Whole
    requires ValidSettings(c.settings)
  {
    if HasPending(w.system.inventory) then w
    else
      var counted := AfterSides(zones, w, beforeCount, c);
      var checked := AfterSides(zones, counted, beforeCheck, c);
      if HasPending(checked.system.inventory) then checked
      else
        var late := AfterSides(zones, checked, beforeReconcile, c);
        var last := AfterSides(zones, Whole(EventWorkerRuns.MarkedRows(late.system), late.board), beforeCommit, c);
        Whole(EventWorkerRuns.Replaced(last.system, counted.system.inventory), last.board)
  }

  ghost function WholeAfter(zones: Zones, w: Whole, step: WholeStep, c: Config): Whole
    requires ValidSettings(c.settings)
  {
    match step
    case Aside(side) => AfterSide(zones, w, side, c)
    case ApplyStep(t) => w.(system := EventWorkerRuns.RunStep(w.system, EventWorkerRuns.PublishStep(t), c))
    case RebuildStep(beforeCount, beforeCheck, beforeReconcile, beforeCommit) =>
      AfterRebuild(zones, w, beforeCount, beforeCheck, beforeReconcile, beforeCommit, c)
  }

  ghost function WholeRun(zones: Zones, w: Whole, steps: seq<WholeStep>, c: Config): Whole
    requires ValidSettings(c.settings)
    decreases |steps|
  {
    if steps == [] then w else WholeRun(zones, WholeAfter(zones, w, steps[0], c), steps[1..], c)
  }

  function StoresOf(zones: Zones): map<ZoneId, StoreId> {
    map z | z in zones :: zones[z].store
  }

  function WholeStart(zones: Zones): Whole {
    Whole(EventWorkerRuns.Start(StoresOf(zones)), Tasks.EMPTY)
  }

  // ----- The pipeline half of a run is a run of the pipeline -----

  function PipelineSides(steps: seq<WholeSide>): seq<EventWorkerRuns.SideStep> {
    if steps == [] then []
    else (if steps[0].PipelineSide? then [steps[0].step] else []) + PipelineSides(steps[1..])
  }

  function PipelineHalf(step: WholeStep): Option<EventWorkerRuns.SystemStep> {
    match step
    case Aside(side) => if side.PipelineSide? then Some(EventWorkerRuns.Side(side.step)) else None
    case ApplyStep(t) => Some(EventWorkerRuns.PublishStep(t))
    case RebuildStep(a, b, d, e) =>
      Some(EventWorkerRuns.RebuildStep(PipelineSides(a), PipelineSides(b), PipelineSides(d), PipelineSides(e)))
  }

  function PipelineSteps(steps: seq<WholeStep>): seq<EventWorkerRuns.SystemStep> {
    if steps == [] then []
    else
      var step := PipelineHalf(steps[0]);
      (if step.Some? then [step.value] else []) + PipelineSteps(steps[1..])
  }

  lemma SideHalves(zones: Zones, w: Whole, side: WholeSide, c: Config)
    requires ValidSettings(c.settings)
    ensures
      AfterSide(zones, w, side, c).system ==
      if side.PipelineSide? then EventWorkerRuns.RunSide(w.system, side.step, c) else w.system
  {
  }

  lemma FirstHalves(
    s: EventWorkerInvariants.System, next: EventWorkerInvariants.System, steps: seq<WholeSide>, c: Config)
    requires ValidSettings(c.settings) && steps != []
    requires next == if steps[0].PipelineSide? then EventWorkerRuns.RunSide(s, steps[0].step, c) else s
    ensures EventWorkerRuns.RunSides(s, PipelineSides(steps), c) ==
            EventWorkerRuns.RunSides(next, PipelineSides(steps[1..]), c)
  {
    var rest := PipelineSides(steps[1..]);
    if steps[0].PipelineSide? {
      EventWorkerRuns.RunSidesFirst(s, steps[0].step, rest, c);
    } else {
      assert [] + rest == rest;
    }
  }

  lemma {:induction false} SidesHalve(zones: Zones, w: Whole, steps: seq<WholeSide>, c: Config)
    requires ValidSettings(c.settings)
    ensures AfterSides(zones, w, steps, c).system == EventWorkerRuns.RunSides(w.system, PipelineSides(steps), c)
    decreases |steps|
  {
    if steps != [] {
      var next := AfterSide(zones, w, steps[0], c);
      SideHalves(zones, w, steps[0], c);
      SidesHalve(zones, next, steps[1..], c);
      FirstHalves(w.system, next.system, steps, c);
    }
  }

  lemma StepHalves(zones: Zones, w: Whole, step: WholeStep, c: Config)
    requires ValidSettings(c.settings)
    ensures
      var half := PipelineHalf(step);
      WholeAfter(zones, w, step, c).system ==
      if half.Some? then EventWorkerRuns.RunStep(w.system, half.value, c) else w.system
  {
    if step.RebuildStep? {
      var counted := AfterSides(zones, w, step.beforeCount, c);
      var checked := AfterSides(zones, counted, step.beforeCheck, c);
      var late := AfterSides(zones, checked, step.beforeReconcile, c);
      SidesHalve(zones, w, step.beforeCount, c);
      SidesHalve(zones, counted, step.beforeCheck, c);
      SidesHalve(zones, checked, step.beforeReconcile, c);
      SidesHalve(zones, Whole(EventWorkerRuns.MarkedRows(late.system), late.board), step.beforeCommit, c);
    }
  }

  /** Everything proved of pipeline runs holds beside the board. */
  lemma {:induction false} RunHalves(zones: Zones, w: Whole, steps: seq<WholeStep>, c: Config)
    requires ValidSettings(c.settings)
    ensures WholeRun(zones, w, steps, c).system == EventWorkerRuns.Run(w.system, PipelineSteps(steps), c)
    decreases |steps|
  {
    if steps != [] {
      var rest := PipelineSteps(steps[1..]);
      var half := PipelineHalf(steps[0]);
      StepHalves(zones, w, steps[0], c);
      RunHalves(zones, WholeAfter(zones, w, steps[0], c), steps[1..], c);
      if half.Some? {
        assert ([half.value] + rest)[1..] == rest;
      } else {
        assert [] + rest == rest;
      }
    }
  }

  // ----- What every run keeps -----

  ghost predicate WholeOk(zones: Zones, w: Whole, c: Config) {
    EventWorkerInvariants.SystemOk(w.system, c.limits) && Joined(zones, w.system.inventory, w.board)
  }

  /** In every state that runs reach, a transaction of the pipeline credits exactly the restocking rows it records. */
  lemma PipelineCredits(zones: Zones, w: Whole, p: EventWorkerRuns.SideStep, c: Config)
    requires ValidSettings(c.settings) && WholeOk(zones, w, c)
    ensures
      var next := AfterSide(zones, w, PipelineSide(p), c);
      CreditsRows(zones, w.system.inventory, next.system.inventory, w.board, next.board)
  {
    var i := EventWorkerRuns.ItemStepOf(w.system, p, c);
    EventWorkerRuns.SideProjects(w.system, p, c);
    if i.Some? {
      ItemCredits(zones, w.system.inventory, w.board, i.value);
    }
  }

  /** Beside the pipeline, allowed moves of tasks are made and live stores evaluated; neither touches the pipeline. */
  lemma BoardSides(zones: Zones, w: Whole, step: WholeSide, c: Config)
    requires ValidSettings(c.settings) && !step.PipelineSide?
    ensures
      var next := AfterSide(zones, w, step, c);
      && next.system == w.system
      && match step
         case EvaluateStore(store, link, skus, criteria) =>
           Listing(skus, criteria) ==>
             next.board == EvaluateInventory(zones, w.system.inventory, w.board, store, link, skus, criteria)
         case ChangeTask(id, q) =>
           if id in w.board.tasks && TaskHistories.MayMove(w.board.tasks[id], q)
               && w.board.tasks[id].version == q.version
           then id in next.board.tasks && next.board.tasks[id].status == q.status
           else next.board == w.board
         case _ => true
  {
    if step.ChangeTask? {
      TaskHistories.PatchOutcome(w.board, step.task, step.request);
    }
  }

  lemma SideKeeps(zones: Zones, w: Whole, step: WholeSide, c: Config)
    requires ValidSettings(c.settings) && WholeOk(zones, w, c)
    ensures WholeOk(zones, AfterSide(zones, w, step, c), c)
  {
    match step
    case PipelineSide(p) =>
      var i := EventWorkerRuns.ItemStepOf(w.system, p, c);
      EventWorkerRuns.SideKeeps(w.system, p, c);
      EventWorkerRuns.SideProjects(w.system, p, c);
      if i.Some? {
        ItemKeeps(zones, w.system.inventory, w.board, i.value);
      }
    case EvaluateStore(store, link, skus, criteria) =>
      if Listing(skus, criteria) {
        EvaluationKeepsEvidence(
          zones, w.system.inventory, w.board, store, Snapshots(zones, w.system.inventory, store, skus, criteria));
      }
    case ChangeTask(id, q) =>
      if Tasks.PatchTask(w.board, id, q).Ok? {
        PatchKeepsEvidence(zones, w.system.inventory, w.board, id, q);
      }
  }

  lemma {:induction false} SidesKeep(zones: Zones, w: Whole, steps: seq<WholeSide>, c: Config)
    requires ValidSettings(c.settings) && WholeOk(zones, w, c)
    ensures WholeOk(zones, AfterSides(zones, w, steps, c), c)
    decreases |steps|
  {
    if steps != [] {
      SideKeeps(zones, w, steps[0], c);
      SidesKeep(zones, AfterSide(zones, w, steps[0], c), steps[1..], c);
    }
  }

  lemma MarkingKeeps(zones: Zones, w: Whole, c: Config)
    requires WholeOk(zones, w, c)
    ensures WholeOk(zones, Whole(EventWorkerRuns.MarkedRows(w.system), w.board), c)
  {
    var inv := w.system.inventory;
    InventoryRuns.ReconcileKeepsBase(inv);
    EventWorkerRuns.InventoryChanges(w.system, Reconcile(inv), c.limits);
    SameDeltasKeep(zones, inv, Reconcile(inv), w.board);
  }

  lemma ReplacingKeeps(zones: Zones, w: Whole, counted: Inventory, c: Config)
    requires WholeOk(zones, w, c)
    ensures WholeOk(zones, Whole(EventWorkerRuns.Replaced(w.system, counted), w.board), c)
  {
    var inv := w.system.inventory;
    var next := inv.(projection := CountedProjection(counted));
    InventoryRuns.WithProjection(inv, CountedProjection(counted));
    EventWorkerRuns.InventoryChanges(w.system, next, c.limits);
    SameDeltasKeep(zones, inv, next, w.board);
  }

  /** Moves, evaluations and task changes that commit during a rebuild are like others. */
  /** The statements after the second check. */
  lemma ClosingKeeps(
    zones: Zones, checked: Whole, counted: Inventory, beforeReconcile: seq<WholeSide>, beforeCommit: seq<WholeSide>,
    c: Config)
    requires ValidSettings(c.settings) && WholeOk(zones, checked, c)
    ensures
      var late := AfterSides(zones, checked, beforeReconcile, c);
      var last := AfterSides(zones, Whole(EventWorkerRuns.MarkedRows(late.system), late.board), beforeCommit, c);
      WholeOk(zones, Whole(EventWorkerRuns.Replaced(last.system, counted), last.board), c)
  {
    var late := AfterSides(zones, checked, beforeReconcile, c);
    var marked := Whole(EventWorkerRuns.MarkedRows(late.system), late.board);
    SidesKeep(zones, checked, beforeReconcile, c);
    MarkingKeeps(zones, late, c);
    SidesKeep(zones, marked, beforeCommit, c);
    ReplacingKeeps(zones, AfterSides(zones, marked, beforeCommit, c), counted, c);
  }

  lemma RebuildKeeps(
    zones: Zones, w: Whole, beforeCount: seq<WholeSide>, beforeCheck: seq<WholeSide>,
    beforeReconcile: seq<WholeSide>, beforeCommit: seq<WholeSide>, c: Config)
    requires ValidSettings(c.settings) && WholeOk(zones, w, c)
    ensures WholeOk(zones, AfterRebuild(zones, w, beforeCount, beforeCheck, beforeReconcile, beforeCommit, c), c)
  {
    var counted := AfterSides(zones, w, beforeCount, c);
    SidesKeep(zones, w, beforeCount, c);
    SidesKeep(zones, counted, beforeCheck, c);
    ClosingKeeps(
      zones, AfterSides(zones, counted, beforeCheck, c), counted.system.inventory, beforeReconcile, beforeCommit, c);
  }

  lemma WholeStepKeeps(zones: Zones, w: Whole, step: WholeStep, c: Config)
    requires ValidSettings(c.settings) && WholeOk(zones, w, c)
    ensures WholeOk(zones, WholeAfter(zones, w, step, c), c)
  {
    match step
    case Aside(side) => SideKeeps(zones, w, side, c);
    case ApplyStep(t) =>
      EventWorkerRuns.StepKeeps(w.system, EventWorkerRuns.PublishStep(t), c);
      PublishKeeps(zones, w.system.inventory, w.board, t, c.settings.maxAttempts);
    case RebuildStep(a, b, d, e) => RebuildKeeps(zones, w, a, b, d, e, c);
  }

  lemma {:induction false} WholeRunKeeps(zones: Zones, w: Whole, steps: seq<WholeStep>, c: Config)
    requires ValidSettings(c.settings) && WholeOk(zones, w, c)
    ensures WholeOk(zones, WholeRun(zones, w, steps, c), c)
    decreases |steps|
  {
    if steps != [] {
      WholeStepKeeps(zones, w, steps[0], c);
      WholeRunKeeps(zones, WholeAfter(zones, w, steps[0], c), steps[1..], c);
    }
  }

  lemma StartOk(zones: Zones, c: Config)
    ensures WholeOk(zones, WholeStart(zones), c)
  {
    EventWorkerRuns.StartOk(StoresOf(zones), c.limits);
    InventoryRuns.InitialInvariant(StoresOf(zones));
  }

  lemma ReachableOk(zones: Zones, steps: seq<WholeStep>, c: Config)
    requires ValidSettings(c.settings)
    ensures WholeOk(zones, WholeRun(zones, WholeStart(zones), steps, c), c)
  {
    StartOk(zones, c);
    WholeRunKeeps(zones, WholeStart(zones), steps, c);
  }

  /**
   In every reachable state a task's verified quantity is the number of recorded transitions
   credited to it, never more than it asks for, and each of these transitions moved one unit
   of its SKU from the backroom to the floor of its store after it was started. No transition
   is credited to two tasks, because evidence is kept per transition.
   */
  lemma VerifiedMeansMoved(zones: Zones, steps: seq<WholeStep>, c: Config, id: Tasks.TaskId)
    requires ValidSettings(c.settings) && id in WholeRun(zones, WholeStart(zones), steps, c).board.tasks
    ensures
      var w := WholeRun(zones, WholeStart(zones), steps, c);
      var moves := Tasks.EvidenceFor(w.board, id);
      && w.board.tasks[id].verified == |moves| && |moves| <= w.board.tasks[id].quantity
      && (forall m :: m in moves ==>
            m in w.system.inventory.outbox && IsFloorMove(zones, w.system.inventory.outbox[m], w.board.tasks[id]))
  {
    ReachableOk(zones, steps, c);
    var w := WholeRun(zones, WholeStart(zones), steps, c);
    assert Tasks.TaskOk(w.board, id);
    forall m | m in Tasks.EvidenceFor(w.board, id)
      ensures BackedBy(zones, w.system.inventory, w.board, m)
    {
    }
  }

  /** In every reachable state the next move a worker records is not evidence yet: crediting it cannot conflict. */
  lemma CreditNeverConflicts(zones: Zones, steps: seq<WholeStep>, c: Config, p: EventWorkerRuns.SideStep)
    requires ValidSettings(c.settings)
    ensures
      var w := WholeRun(zones, WholeStart(zones), steps, c);
      var i := EventWorkerRuns.ItemStepOf(w.system, p, c);
      i.Some? && i.value.ObserveStep? && MoveOf(w.system.inventory, i.value.reading).Some? ==>
        MoveOf(w.system.inventory, i.value.reading).value.id !in w.board.evidence
  {
    ReachableOk(zones, steps, c);
    var w := WholeRun(zones, WholeStart(zones), steps, c);
    var i := EventWorkerRuns.ItemStepOf(w.system, p, c);
    if i.Some? && i.value.ObserveStep? && MoveOf(w.system.inventory, i.value.reading).Some? {
      MoveIsNew(zones, w.system.inventory, w.board, i.value.reading);
    }
  }

  /** What the last committed rebuild of the run lost. */
  ghost function LostInWhole(zones: Zones, steps: seq<WholeStep>, c: Config, b: Bucket): int
    requires ValidSettings(c.settings)
  {
    EventWorkerRuns.LostInRun(StoresOf(zones), PipelineSteps(steps), c, b)
  }

  /**
   In every reachable state, whatever an evaluation with a positive minimum confidence adds to
   the task of a SKU is what a rule's target lacks and is in the backroom: the projection rows
   of the SKU in floor and backroom equal the items located there, and their open deltas and
   what the last rebuild lost cancel out.
   */
  lemma AskedIsThere(
    zones: Zones, steps: seq<WholeStep>, c: Config,
    store: StoreId, link: Tasks.Link, skus: seq<SkuId>, criteria: Criteria, sku: SkuId)
    requires ValidSettings(c.settings) && 0.0 < criteria.minimum
    ensures
      var w := WholeRun(zones, WholeStart(zones), steps, c);
      var inv := w.system.inventory;
      var next := AfterSide(zones, w, EvaluateStore(store, link, skus, criteria), c);
      var before, after := Tasks.Asked(w.board, store, sku), Tasks.Asked(next.board, store, sku);
      after != before ==>
        && sku in criteria.items && RuleFor(criteria, store, sku).Ok? && RuleFor(criteria, store, sku).value.Some?
        && GrowsBy(zones, inv, store, sku, RuleFor(criteria, store, sku).value.value, before, after)
        && forall b :: b in inv.projection && Counts(zones, b, store, sku) ==>
             StockAt(inv, b) == LocatedAt(inv, b) && OpenAt(inv, b) + LostInWhole(zones, steps, c, b) == 0
  {
    ReachableOk(zones, steps, c);
    var w := WholeRun(zones, WholeStart(zones), steps, c);
    RunHalves(zones, WholeStart(zones), steps, c);
    EventWorkerRuns.ReachableConserved(StoresOf(zones), PipelineSteps(steps), c);
    if Listing(skus, criteria)
      && Tasks.Asked(EvaluateInventory(zones, w.system.inventory, w.board, store, link, skus, criteria), store, sku)
         != Tasks.Asked(w.board, store, sku)
    {
      AskedRestsOnItems(zones, w.system.inventory, w.board, store, link, skus, criteria, sku);
    }
  }
}
