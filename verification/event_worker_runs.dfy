/**
 Whole runs of the pipeline: acceptance, any number of workers that take rows, fail and
 restart, operator replay, authoritative removal, delta application with its failures, and
 a rebuild between whose statements all but application may commit.
 */
module EventWorkerRuns {
  import opened Basics
  import opened Observations
  import opened OrderedDicts
  import opened RecentObservations
  import opened Inboxes
  import opened Inventories
  import opened EventWorkers
  import opened EventWorkerInvariants
  import InboxInvariants
  import InventoryInvariants
  import InventoryRuns

  /** Transactions that do not take the projection lock and may commit while a rebuild runs. */
  datatype SideStep =
    | AcceptStep(token: DeviceId, request: BatchRequest, assignments: seq<Assignment>, batch: BatchId, receivedAt: Time)
    | ReplayStep(event: EventId)
    | StartWorker(worker: int)
    | TakeStep(worker: int, event: EventId, env: Environment)
    | RemovalStep(removal: RemovalRequest, stores: set<StoreId>, eventId: int, now: Time)
    | FaultStep(failed: TransitionId)

  /** A rebuild names what commits between its statements. */
  datatype SystemStep =
    | Side(step: SideStep)
    | PublishStep(transition: TransitionId)
    | RebuildStep(
        beforeCount: seq<SideStep>, beforeCheck: seq<SideStep>,
        beforeReconcile: seq<SideStep>, beforeCommit: seq<SideStep>)

  /** Device assignments reference zones by foreign key. */
  ghost predicate Possible(s: System, step: SideStep) {
    match step
    case AcceptStep(_, q, _, batch, _) => InboxInvariants.ValidRequest(s.inbox, q, batch)
    case TakeStep(w, id, env) =>
      w in s.workers && Takeable(s.inbox, id)
          && (env.assignment.Ok? ==> KnownLocation(s.inventory, env.assignment.value))
    case _ => true
  }

  /** The item transaction that a step performs, if it performs one; a fault is any failed attempt at a row. */
  ghost function ItemStepOf(s: System, step: SideStep, c: Config): Option<ItemStep>
    requires ValidSettings(c.settings)
  {
    match step
    case TakeStep(w, id, env) =>
      (if Possible(s, step) && env.fault.None? && id == s.inbox.queue[id].payload.eventId
          && Admit(s.inbox, s.inventory, s.inbox.queue[id].payload, env, c.settings).Admitted? then
         var reading := AdmittedResult(StateOf(s, w), s.inbox.queue[id].payload, env, c).2;
         Some(ObserveStep(reading, c.settings.lastSeenFlush))
       else None)
    case RemovalStep(q, stores, eventId, now) =>
      Some(RemoveStep(q, stores, eventId, ProcessedWatermark(s.inbox.ledger, q.epc), now, c.settings.maxFutureSkew))
    case FaultStep(t) => Some(FailStep(t, c.settings.maxAttempts))
    case _ => None
  }

  ghost function StateOf(s: System, w: int): State
    requires w in s.workers
  {
    State(s.inbox, s.inventory, s.workers[w])
  }

  ghost function RunSide(s: System, step: SideStep, c: Config): System
    requires ValidSettings(c.settings)
  {
    if !Possible(s, step) then s
    else
      match step
      case AcceptStep(_, _, _, _, _) => s.(inbox := InboxInvariants.RunStep(s.inbox, InboxStepOf(step)))
      case ReplayStep(_) => s.(inbox := InboxInvariants.RunStep(s.inbox, InboxStepOf(step)))
      case StartWorker(w) => s.(workers := s.workers[w := Evidence([], [])])
      case TakeStep(w, id, env) =>
        var next := TakeRow(StateOf(s, w), id, env, c).0;
        System(next.inbox, next.inventory, s.workers[w := next.evidence])
      case _ => s.(inventory := RunItem(s.inventory, ItemStepOf(s, step, c).value))
  }

  function InboxStepOf(step: SideStep): InboxInvariants.InboxStep
    requires step.AcceptStep? || step.ReplayStep?
  {
    match step
    case AcceptStep(token, q, assignments, batch, receivedAt) =>
      InboxInvariants.AcceptStep(token, q, assignments, batch, receivedAt)
    case ReplayStep(event) => InboxInvariants.ReplayStep(event)
  }

  ghost function RunSides(s: System, steps: seq<SideStep>, c: Config): System
    requires ValidSettings(c.settings)
    decreases |steps|
  {
    if steps == [] then s else RunSides(RunSide(s, steps[0], c), steps[1..], c)
  }

  lemma RunSidesFirst(s: System, first: SideStep, rest: seq<SideStep>, c: Config)
    requires ValidSettings(c.settings)
    ensures RunSides(s, [first] + rest, c) == RunSides(RunSide(s, first, c), rest, c)
  {
    assert ([first] + rest)[1..] == rest;
  }

  function MarkedRows(s: System): System { s.(inventory := Reconcile(s.inventory)) }

  ghost function Replaced(s: System, counted: Inventory): System {
    s.(inventory := s.inventory.(projection := CountedProjection(counted)))
  }

  ghost function RunStep(s: System, step: SystemStep, c: Config): System
    requires ValidSettings(c.settings)
  {
    match step
    case Side(side) => RunSide(s, side, c)
    case PublishStep(t) =>
      s.(inventory := Inventories.RunStep(s.inventory, Publish(t, c.settings.maxAttempts)))
    case RebuildStep(beforeCount, beforeCheck, beforeReconcile, beforeCommit) =>
      if HasPending(s.inventory) then s
      else
        var counted := RunSides(s, beforeCount, c);
        var checked := RunSides(counted, beforeCheck, c);
        if HasPending(checked.inventory) then checked
        else
          var late := RunSides(checked, beforeReconcile, c);
          Replaced(RunSides(MarkedRows(late), beforeCommit, c), counted.inventory)
  }

  ghost function Run(s: System, steps: seq<SystemStep>, c: Config): System
    requires ValidSettings(c.settings)
    decreases |steps|
  {
    if steps == [] then s else Run(RunStep(s, steps[0], c), steps[1..], c)
  }

  function Start(zones: map<ZoneId, StoreId>): System {
    System(EMPTY, Initial(zones), map[])
  }

  // ----- One step -----

  lemma OthersKeep(s: System, next: System, w: int, limits: Limits)
    requires WorkersOk(s, limits) && Exclusive(s.workers)
    requires Grown(s.inbox, next.inbox, s.inventory, next.inventory)
    requires w in next.workers && next.workers == s.workers[w := next.workers[w]]
    requires EvidenceOk(next.inbox, next.inventory, next.workers[w], limits)
    requires forall id :: Holds(next.workers[w], id) ==>
               (w in s.workers && Holds(s.workers[w], id)) || forall v :: v in s.workers ==> !Holds(s.workers[v], id)
    ensures WorkersOk(next, limits) && Exclusive(next.workers)
  {
    forall v | v in next.workers
      ensures EvidenceOk(next.inbox, next.inventory, next.workers[v], limits)
    {
      if v != w {
        GrownKeepsEvidence(s.inbox, next.inbox, s.inventory, next.inventory, s.workers[v], limits);
      }
    }
    forall u, v, id | u in next.workers && v in next.workers && u != v && Holds(next.workers[u], id)
      ensures !Holds(next.workers[v], id)
    {
      if u != w {
        assert Holds(s.workers[u], id);
      }
    }
  }

  lemma AllKeep(s: System, next: System, limits: Limits)
    requires WorkersOk(s, limits) && Exclusive(s.workers)
    requires Grown(s.inbox, next.inbox, s.inventory, next.inventory) && next.workers == s.workers
    ensures WorkersOk(next, limits) && Exclusive(next.workers)
  {
    forall v | v in next.workers
      ensures EvidenceOk(next.inbox, next.inventory, next.workers[v], limits)
    {
      GrownKeepsEvidence(s.inbox, next.inbox, s.inventory, next.inventory, s.workers[v], limits);
    }
  }

  lemma TakeKeeps(s: System, w: int, id: EventId, env: Environment, c: Config)
    requires ValidSettings(c.settings) && SystemOk(s, c.limits) && Possible(s, TakeStep(w, id, env))
    ensures SystemOk(RunSide(s, TakeStep(w, id, env), c), c.limits)
    ensures
      var next := RunSide(s, TakeStep(w, id, env), c);
      Grown(s.inbox, next.inbox, s.inventory, next.inventory)
  {
    var next := RunSide(s, TakeStep(w, id, env), c);
    TakeRowKeeps(StateOf(s, w), id, env, c);
    PayloadOf(s.inbox, id);
    forall v | v in s.workers
      ensures !Holds(s.workers[v], id)
    {
      PendingNotHeld(s.inbox, s.inventory, s.workers[v], id, c.limits);
    }
    OthersKeep(s, next, w, c.limits);
  }

  lemma AcceptGrows(inbox: Inbox, step: SideStep, inv: Inventory)
    requires InboxInvariants.InboxOk(inbox) && step.AcceptStep?
    ensures Grown(inbox, InboxInvariants.RunStep(inbox, InboxStepOf(step)), inv, inv)
  {
    var next := InboxInvariants.RunStep(inbox, InboxStepOf(step));
    InboxInvariants.StepRetains(inbox, InboxStepOf(step));
    if next != inbox {
      var q := step.request;
      InboxInvariants.BuiltEventsDistinct(q, step.assignments, step.batch, step.receivedAt);
      var events := BuildEvents(q, q.observations, step.assignments, step.batch, step.receivedAt).value;
      LedgerWithKeys(inbox.ledger, events);
      InboxInvariants.QueueWithKeys(inbox.queue, inbox.ledger, events, inbox.nextSequence);
      forall id | RememberedOk(inbox, id)
        ensures RememberedOk(next, id)
      {
        assert next.ledger[id] == inbox.ledger[id] && next.queue[id] == inbox.queue[id];
      }
    }
  }

  lemma ReplayGrows(inbox: Inbox, event: EventId, inv: Inventory)
    requires InboxInvariants.InboxOk(inbox)
    ensures Grown(inbox, InboxInvariants.RunStep(inbox, InboxInvariants.ReplayStep(event)), inv, inv)
  {
  }

  /** What holds and what is kept from one state to a later one. */
  ghost predicate Keeps(s: System, next: System, limits: Limits) {
    && SystemOk(next, limits) && next.inventory.zones == s.inventory.zones
    && InboxInvariants.Retained(s.inbox.ledger, next.inbox.ledger)
  }

  /** Changing only the inventory, and not its zones. */
  lemma InventoryChanges(s: System, inv: Inventory, limits: Limits)
    requires SystemOk(s, limits) && inv.zones == s.inventory.zones
    ensures Keeps(s, s.(inventory := inv), limits)
  {
    AllKeep(s, s.(inventory := inv), limits);
  }

  lemma SideKeeps(s: System, step: SideStep, c: Config)
    requires ValidSettings(c.settings) && SystemOk(s, c.limits)
    ensures Keeps(s, RunSide(s, step, c), c.limits)
  {
    if Possible(s, step) {
      match step
      case AcceptStep(_, _, _, _, _) =>
        InboxInvariants.StepKeeps(s.inbox, InboxStepOf(step));
        AcceptGrows(s.inbox, step, s.inventory);
        AllKeep(s, RunSide(s, step, c), c.limits);
      case ReplayStep(event) =>
        InboxInvariants.StepKeeps(s.inbox, InboxStepOf(step));
        ReplayGrows(s.inbox, event, s.inventory);
        AllKeep(s, RunSide(s, step, c), c.limits);
      case StartWorker(w) =>
      case TakeStep(w, id, env) => TakeKeeps(s, w, id, env, c);
      case _ => InventoryChanges(s, RunItem(s.inventory, ItemStepOf(s, step, c).value), c.limits);
    }
  }

  lemma {:induction false} SidesKeep(s: System, steps: seq<SideStep>, c: Config)
    requires ValidSettings(c.settings) && SystemOk(s, c.limits)
    ensures Keeps(s, RunSides(s, steps, c), c.limits)
    decreases |steps|
  {
    if steps != [] {
      SideKeeps(s, steps[0], c);
      SidesKeep(RunSide(s, steps[0], c), steps[1..], c);
    }
  }

  lemma RebuildKeeps(
    s: System, beforeCount: seq<SideStep>, beforeCheck: seq<SideStep>,
    beforeReconcile: seq<SideStep>, beforeCommit: seq<SideStep>, c: Config)
    requires ValidSettings(c.settings) && SystemOk(s, c.limits)
    ensures Keeps(s, RunStep(s, RebuildStep(beforeCount, beforeCheck, beforeReconcile, beforeCommit), c), c.limits)
  {
    var counted := RunSides(s, beforeCount, c);
    var checked := RunSides(counted, beforeCheck, c);
    var late := RunSides(checked, beforeReconcile, c);
    SidesKeep(s, beforeCount, c);
    SidesKeep(counted, beforeCheck, c);
    SidesKeep(checked, beforeReconcile, c);
    InventoryChanges(late, Reconcile(late.inventory), c.limits);
    SidesKeep(MarkedRows(late), beforeCommit, c);
    var last := RunSides(MarkedRows(late), beforeCommit, c);
    InventoryChanges(last, Replaced(last, counted.inventory).inventory, c.limits);
  }

  lemma StepKeeps(s: System, step: SystemStep, c: Config)
    requires ValidSettings(c.settings) && SystemOk(s, c.limits)
    ensures Keeps(s, RunStep(s, step, c), c.limits)
  {
    match step
    case Side(side) => SideKeeps(s, side, c);
    case PublishStep(t) =>
      InventoryRuns.StepKeepsZones(s.inventory, Publish(t, c.settings.maxAttempts));
      InventoryChanges(s, RunStep(s, step, c).inventory, c.limits);
    case RebuildStep(a, b, d, e) => RebuildKeeps(s, a, b, d, e, c);
  }

  lemma StartOk(zones: map<ZoneId, StoreId>, limits: Limits)
    ensures SystemOk(Start(zones), limits)
  {
  }

  lemma {:induction false} RunKeeps(s: System, steps: seq<SystemStep>, c: Config)
    requires ValidSettings(c.settings) && SystemOk(s, c.limits)
    ensures SystemOk(Run(s, steps, c), c.limits)
    decreases |steps|
  {
    if steps != [] {
      StepKeeps(s, steps[0], c);
      RunKeeps(RunStep(s, steps[0], c), steps[1..], c);
    }
  }

  /** In every reachable state inbox and evidence agree, and each event is evidence at most once. */
  lemma ReachableSystemOk(zones: map<ZoneId, StoreId>, steps: seq<SystemStep>, c: Config)
    requires ValidSettings(c.settings)
    ensures SystemOk(Run(Start(zones), steps, c), c.limits)
  {
    StartOk(zones, c.limits);
    RunKeeps(Start(zones), steps, c);
  }

  // ----- An event becomes evidence once -----

  lemma {:induction false} ProcessedStays(s: System, steps: seq<SystemStep>, c: Config, id: EventId)
    requires ValidSettings(c.settings) && SystemOk(s, c.limits)
    requires id in s.inbox.ledger && s.inbox.ledger[id].outcome.status == EventProcessed
    ensures
      var last := Run(s, steps, c).inbox;
      id in last.ledger && last.ledger[id] == s.inbox.ledger[id] && !Takeable(last, id)
    decreases |steps|
  {
    if steps == [] {
      assert InboxInvariants.EventOk(s.inbox, id);
    } else {
      StepKeeps(s, steps[0], c);
      ProcessedStays(RunStep(s, steps[0], c), steps[1..], c, id);
    }
  }

  /**
   Once a worker has committed a read as evidence, no worker ever takes that event again,
   whatever is retried, replayed or restarted afterwards and even if the window forgets it.
   */
  lemma EvidenceNeverAgain(s: System, w: int, id: EventId, env: Environment, steps: seq<SystemStep>, c: Config)
    requires ValidSettings(c.settings) && SystemOk(s, c.limits) && Possible(s, TakeStep(w, id, env)) && env.fault.None?
    requires Admit(s.inbox, s.inventory, s.inbox.queue[id].payload, env, c.settings).Admitted?
    ensures !Takeable(Run(RunSide(s, TakeStep(w, id, env), c), steps, c).inbox, id)
  {
    var state := StateOf(s, w);
    PayloadOf(s.inbox, id);
    AdmittedCommits(state, id, env, c);
    ProcessedKeeps(state, id, s.inventory, AdmittedResult(state, s.inbox.queue[id].payload, env, c).4, c);
    TakeKeeps(s, w, id, env, c);
    ProcessedStays(RunSide(s, TakeStep(w, id, env), c), steps, c, id);
  }

  // ----- The inventory half of a run is a run of the inventory -----

  ghost function ItemStepsOf(s: System, steps: seq<SideStep>, c: Config): seq<ItemStep>
    requires ValidSettings(c.settings)
    decreases |steps|
  {
    if steps == [] then []
    else
      var step := ItemStepOf(s, steps[0], c);
      (if step.Some? then [step.value] else []) + ItemStepsOf(RunSide(s, steps[0], c), steps[1..], c)
  }

  /** The inventory transaction that a step performs, if it performs one. */
  ghost function InventoryStepOf(s: System, step: SystemStep, c: Config): Option<Step>
    requires ValidSettings(c.settings)
  {
    match step
    case Side(side) =>
      var i := ItemStepOf(s, side, c);
      if i.Some? then Some(Item(i.value)) else None
    case PublishStep(t) => Some(Publish(t, c.settings.maxAttempts))
    case RebuildStep(beforeCount, beforeCheck, beforeReconcile, beforeCommit) =>
      var counted := RunSides(s, beforeCount, c);
      var checked := RunSides(counted, beforeCheck, c);
      var late := RunSides(checked, beforeReconcile, c);
      Some(Rebuild(
             ItemStepsOf(s, beforeCount, c), ItemStepsOf(counted, beforeCheck, c),
             ItemStepsOf(checked, beforeReconcile, c), ItemStepsOf(MarkedRows(late), beforeCommit, c)))
  }

  ghost function InventorySteps(s: System, steps: seq<SystemStep>, c: Config): seq<Step>
    requires ValidSettings(c.settings)
    decreases |steps|
  {
    if steps == [] then []
    else
      var step := InventoryStepOf(s, steps[0], c);
      (if step.Some? then [step.value] else []) + InventorySteps(RunStep(s, steps[0], c), steps[1..], c)
  }

  lemma SideProjects(s: System, step: SideStep, c: Config)
    requires ValidSettings(c.settings) && SystemOk(s, c.limits)
    ensures
      var i := ItemStepOf(s, step, c);
      RunSide(s, step, c).inventory == if i.Some? then RunItem(s.inventory, i.value) else s.inventory
  {
    if step.TakeStep? && Possible(s, step) {
      var TakeStep(w, id, env) := step;
      var state := StateOf(s, w);
      PayloadOf(s.inbox, id);
      if env.fault.Some? {
        FaultResult(state, id, env, c);
      } else if Admit(s.inbox, s.inventory, s.inbox.queue[id].payload, env, c.settings).Admitted? {
        AdmittedKeeps(state, id, env, c);
      } else {
        UnusedCommits(state, id, env, c);
      }
    }
  }

  lemma {:induction false} SidesProject(s: System, steps: seq<SideStep>, c: Config)
    requires ValidSettings(c.settings) && SystemOk(s, c.limits)
    ensures SystemOk(RunSides(s, steps, c), c.limits)
    ensures RunSides(s, steps, c).inventory == RunItems(s.inventory, ItemStepsOf(s, steps, c))
    decreases |steps|
  {
    if steps != [] {
      var next := RunSide(s, steps[0], c);
      var rest := ItemStepsOf(next, steps[1..], c);
      var i := ItemStepOf(s, steps[0], c);
      SideKeeps(s, steps[0], c);
      SideProjects(s, steps[0], c);
      SidesProject(next, steps[1..], c);
      if i.Some? {
        assert ([i.value] + rest)[1..] == rest;
      } else {
        assert [] + rest == rest;
      }
    }
  }

  lemma RebuildOf(
    inv: Inventory, a: seq<ItemStep>, b: seq<ItemStep>, d: seq<ItemStep>, e: seq<ItemStep>,
    counted: Inventory, checked: Inventory, late: Inventory, last: Inventory)
    requires counted == RunItems(inv, a) && checked == RunItems(counted, b)
    requires late == RunItems(checked, d) && last == RunItems(Reconcile(late), e)
    ensures
      Inventories.RunStep(inv, Rebuild(a, b, d, e)) ==
      if HasPending(inv) then inv
      else if HasPending(checked) then checked
      else last.(projection := CountedProjection(counted))
  {
  }

  lemma RebuildProjects(
    s: System, beforeCount: seq<SideStep>, beforeCheck: seq<SideStep>,
    beforeReconcile: seq<SideStep>, beforeCommit: seq<SideStep>, c: Config)
    requires ValidSettings(c.settings) && SystemOk(s, c.limits)
    ensures
      var step := RebuildStep(beforeCount, beforeCheck, beforeReconcile, beforeCommit);
      RunStep(s, step, c).inventory == Inventories.RunStep(s.inventory, InventoryStepOf(s, step, c).value)
  {
    var counted := RunSides(s, beforeCount, c);
    var checked := RunSides(counted, beforeCheck, c);
    var late := RunSides(checked, beforeReconcile, c);
    SidesProject(s, beforeCount, c);
    SidesProject(counted, beforeCheck, c);
    SidesProject(checked, beforeReconcile, c);
    InventoryChanges(late, Reconcile(late.inventory), c.limits);
    SidesProject(MarkedRows(late), beforeCommit, c);
    var last := RunSides(MarkedRows(late), beforeCommit, c);
    RebuildOf(
      s.inventory, ItemStepsOf(s, beforeCount, c), ItemStepsOf(counted, beforeCheck, c),
      ItemStepsOf(checked, beforeReconcile, c), ItemStepsOf(MarkedRows(late), beforeCommit, c),
      counted.inventory, checked.inventory, late.inventory, last.inventory);
  }

  lemma StepProjects(s: System, step: SystemStep, c: Config)
    requires ValidSettings(c.settings) && SystemOk(s, c.limits)
    ensures
      var i := InventoryStepOf(s, step, c);
      RunStep(s, step, c).inventory == if i.Some? then Inventories.RunStep(s.inventory, i.value) else s.inventory
  {
    match step
    case Side(side) => SideProjects(s, side, c);
    case PublishStep(t) =>
    case RebuildStep(a, b, d, e) => RebuildProjects(s, a, b, d, e, c);
  }

  /** Everything proved of inventory runs holds of the pipeline. */
  lemma {:induction false} RunProjects(s: System, steps: seq<SystemStep>, c: Config)
    requires ValidSettings(c.settings) && SystemOk(s, c.limits)
    ensures Run(s, steps, c).inventory == Inventories.Run(s.inventory, InventorySteps(s, steps, c))
    decreases |steps|
  {
    if steps != [] {
      var next := RunStep(s, steps[0], c);
      var rest := InventorySteps(next, steps[1..], c);
      var i := InventoryStepOf(s, steps[0], c);
      StepKeeps(s, steps[0], c);
      StepProjects(s, steps[0], c);
      RunProjects(next, steps[1..], c);
      if i.Some? {
        assert ([i.value] + rest)[1..] == rest;
      } else {
        assert [] + rest == rest;
      }
    }
  }

  /** What the last committed rebuild of a pipeline run reconciled away uncounted, if there was one. */
  ghost function LostInRun(zones: map<ZoneId, StoreId>, steps: seq<SystemStep>, c: Config, b: Bucket): int
    requires ValidSettings(c.settings)
  {
    InventoryRuns.LostAfter(Initial(zones), InventorySteps(Start(zones), steps, c), b, 0)
  }

  /**
   In every state the pipeline can reach, projection plus open deltas plus what the last
   committed rebuild lost equals the number of items, bucket by bucket; the conservation
   equation holds exactly when that rebuild lost nothing.
   */
  lemma ReachableConserved(zones: map<ZoneId, StoreId>, steps: seq<SystemStep>, c: Config)
    requires ValidSettings(c.settings)
    ensures
      var inv := Run(Start(zones), steps, c).inventory;
      && (forall b ::
            StockAt(inv, b) + InventoryInvariants.OpenAt(inv, b) + LostInRun(zones, steps, c, b) == LocatedAt(inv, b))
      && (InventoryInvariants.Conserved(inv) <==> forall b :: LostInRun(zones, steps, c, b) == 0)
  {
    StartOk(zones, c.limits);
    RunProjects(Start(zones), steps, c);
    InventoryRuns.ReachableConserved(zones, InventorySteps(Start(zones), steps, c));
    forall b
      ensures LostInRun(zones, steps, c, b) ==
              InventoryRuns.LostAfter(Initial(zones), InventorySteps(Start(zones), steps, c), b, 0)
    {
    }
  }

  // ----- Order within one pass -----

  /** An attempt counts on its own row and finishes or keeps it; no other row changes. */
  ghost predicate OnlyRow(inbox: Inbox, next: Inbox, id: EventId)
    requires id in inbox.queue
  {
    && id in next.ledger && next.ledger.Keys == inbox.ledger.Keys
    && next.queue.Keys == inbox.queue.Keys
    && (forall f :: f in inbox.queue && f != id ==> next.queue[f] == inbox.queue[f])
    && (forall f :: f in inbox.ledger && f != id ==> next.ledger[f] == inbox.ledger[f])
    && next.queue[id].attempts == inbox.queue[id].attempts + 1
  }

  lemma SucceedFrame(inbox: Inbox, id: EventId, o: Outcome)
    requires InboxInvariants.InboxOk(inbox) && id in inbox.queue && o.status != EventPending
    requires inbox.ledger[id].outcome.status == EventPending
    requires o.status == EventRejected ==> id in inbox.quarantines
    ensures OnlyRow(inbox, InboxInvariants.Succeed(inbox, id, o), id)
    ensures InboxInvariants.Succeed(inbox, id, o).ledger[id].outcome == o
  {
    InboxInvariants.SucceedKeeps(inbox, id, o);
    InboxInvariants.SucceedCommits(inbox, id, o);
  }

  lemma RejectFrame(inbox: Inbox, id: EventId, batch: BatchId, reason: Reason)
    requires InboxInvariants.InboxOk(inbox) && id in inbox.queue && inbox.ledger[id].outcome.status == EventPending
    ensures OnlyRow(inbox, InboxInvariants.RejectAndPublish(inbox, id, batch, reason), id)
    ensures InboxInvariants.RejectAndPublish(inbox, id, batch, reason).ledger[id].outcome.status == EventRejected
  {
    InboxInvariants.RejectKeeps(inbox, id, batch, reason);
    InboxInvariants.RejectCommits(inbox, id, batch, reason);
  }

  lemma FailFrame(inbox: Inbox, id: EventId, maxAttempts: nat)
    requires InboxInvariants.InboxOk(inbox) && id in inbox.queue && inbox.ledger[id].outcome.status == EventPending
    ensures FailAttempt(inbox, id, maxAttempts).Ok? && OnlyRow(inbox, FailAttempt(inbox, id, maxAttempts).value, id)
    ensures FailAttempt(inbox, id, maxAttempts).value.ledger[id].outcome.status ==
            if inbox.queue[id].attempts + 1 >= maxAttempts then EventRejected else EventPending
  {
    InboxInvariants.FailKeeps(inbox, id, maxAttempts);
  }

  lemma UnusedFrame(s: State, id: EventId, env: Environment, c: Config)
    requires Ready(s, id, env, c) && env.fault.None?
    requires !Admit(s.inbox, s.inventory, s.inbox.queue[id].payload, env, c.settings).Admitted?
    ensures
      var (next, attempt) := TakeRow(s, id, env, c);
      && attempt == Committed && OnlyRow(s.inbox, next.inbox, id)
      && next.inbox.ledger[id].outcome.status != EventPending
  {
    var event := s.inbox.queue[id].payload;
    UnusedCommits(s, id, env, c);
    PayloadOf(s.inbox, id);
    match Admit(s.inbox, s.inventory, event, env, c.settings)
    case Refused(reason) => RejectFrame(s.inbox, id, event.batch, reason);
    case Settled(d) => SucceedFrame(s.inbox, id, ProcessedAs(d));
  }

  lemma TakeRowFrame(s: State, id: EventId, env: Environment, c: Config)
    requires Ready(s, id, env, c)
    ensures
      var (next, attempt) := TakeRow(s, id, env, c);
      && attempt != Skipped && OnlyRow(s.inbox, next.inbox, id)
      && (attempt == Stopped <==> next.inbox.ledger[id].outcome.status == EventPending)
  {
    PayloadOf(s.inbox, id);
    if env.fault.Some? {
      FaultResult(s, id, env, c);
      FailFrame(s.inbox, id, c.settings.maxAttempts);
    } else if Admit(s.inbox, s.inventory, s.inbox.queue[id].payload, env, c.settings).Admitted? {
      AdmittedCommits(s, id, env, c);
      SucceedFrame(s.inbox, id, ProcessedAs(AdmittedResult(s, s.inbox.queue[id].payload, env, c).4));
    } else {
      UnusedFrame(s, id, env, c);
    }
  }

  ghost predicate DistinctIds(ids: seq<EventId>) {
    forall i, j :: 0 <= i < j < |ids| ==> ids[i] != ids[j]
  }

  /** A pass may take these rows. */
  ghost predicate Drainable(s: State, ids: seq<EventId>, envs: seq<Environment>, c: Config) {
    && ValidSettings(c.settings) && |envs| == |ids| && DistinctIds(ids)
    && InboxInvariants.InboxOk(s.inbox)
    && EvidenceOk(s.inbox, s.inventory, s.evidence, c.limits)
    && (forall i {:trigger ids[i]} :: 0 <= i < |ids| ==> Takeable(s.inbox, ids[i]))
    && (forall i {:trigger envs[i]} :: 0 <= i < |ids| ==> envs[i].assignment.Ok? ==>
         KnownLocation(s.inventory, envs[i].assignment.value))
  }

  ghost predicate Finished(inbox: Inbox, id: EventId) {
    id in inbox.ledger && inbox.ledger[id].outcome.status != EventPending
  }

  ghost predicate Untouched(inbox: Inbox, next: Inbox, id: EventId) {
    && id in inbox.queue && id in next.queue && next.queue[id] == inbox.queue[id]
    && id in inbox.ledger && id in next.ledger && next.ledger[id] == inbox.ledger[id]
  }

  /** The first k rows are finished, the next one failed and stays pending, the rest are untouched. */
  ghost predicate StoppedAt(s: State, last: State, ids: seq<EventId>, k: nat) {
    && k <= |ids|
    && (forall i {:trigger ids[i]} :: 0 <= i < k ==> Finished(last.inbox, ids[i]))
    && (forall i {:trigger ids[i]} :: k < i < |ids| ==> Untouched(s.inbox, last.inbox, ids[i]))
    && (k < |ids| ==>
          && ids[k] in s.inbox.queue && ids[k] in last.inbox.queue && !Finished(last.inbox, ids[k])
          && last.inbox.queue[ids[k]].attempts == s.inbox.queue[ids[k]].attempts + 1)
  }

  lemma FramedDrainable(s: State, ids: seq<EventId>, envs: seq<Environment>, c: Config)
    requires Drainable(s, ids, envs, c) && ids != []
    ensures Ready(s, ids[0], envs[0], c)
    ensures Drainable(TakeRow(s, ids[0], envs[0], c).0, ids[1..], envs[1..], c)
    ensures forall i :: 1 <= i < |ids| ==> Untouched(s.inbox, TakeRow(s, ids[0], envs[0], c).0.inbox, ids[i])
  {
    assert Takeable(s.inbox, ids[0])
        && (envs[0].assignment.Ok? ==> KnownLocation(s.inventory, envs[0].assignment.value));
    TakeRowKeeps(s, ids[0], envs[0], c);
    TakeRowFrame(s, ids[0], envs[0], c);
    forall i | 1 <= i < |ids|
      ensures Untouched(s.inbox, TakeRow(s, ids[0], envs[0], c).0.inbox, ids[i])
    {
      PayloadOf(s.inbox, ids[i]);
    }
  }

  /** Rows not selected keep their place: a pass touches nothing but its own rows. */
  lemma {:induction false} DrainTouchesOnly(s: State, ids: seq<EventId>, envs: seq<Environment>, c: Config, id: EventId)
    requires Drainable(s, ids, envs, c) && id !in ids && id in s.inbox.ledger && id in s.inbox.queue
    ensures Untouched(s.inbox, Drain(s, ids, envs, c).0.inbox, id)
    decreases |ids|
  {
    if ids != [] {
      FramedDrainable(s, ids, envs, c);
      TakeRowFrame(s, ids[0], envs[0], c);
      var (next, attempt) := TakeRow(s, ids[0], envs[0], c);
      if attempt != Stopped {
        DrainTouchesOnly(next, ids[1..], envs[1..], c, id);
      }
    }
  }

  /**
   Acceptance order is kept within a pass: no row is finished while an earlier row of the
   pass is still pending, and every row before the one that stopped the pass is counted.
   */
  lemma {:induction false} DrainInOrder(s: State, ids: seq<EventId>, envs: seq<Environment>, c: Config)
    requires Drainable(s, ids, envs, c)
    ensures
      var (last, n, stopped) := Drain(s, ids, envs, c);
      && StoppedAt(s, last, ids, n) && (stopped <==> n < |ids|)
      && InboxInvariants.InboxOk(last.inbox) && EvidenceOk(last.inbox, last.inventory, last.evidence, c.limits)
    decreases |ids|
  {
    if ids != [] {
      FramedDrainable(s, ids, envs, c);
      TakeRowFrame(s, ids[0], envs[0], c);
      var (next, attempt) := TakeRow(s, ids[0], envs[0], c);
      if attempt != Stopped {
        DrainInOrder(next, ids[1..], envs[1..], c);
        DrainTouchesOnly(next, ids[1..], envs[1..], c, ids[0]);
        OneMoreRow(s, next, Drain(s, ids, envs, c).0, ids, Drain(next, ids[1..], envs[1..], c).1);
      }
    }
  }

  lemma OneMoreRow(s: State, next: State, last: State, ids: seq<EventId>, k: nat)
    requires ids != [] && StoppedAt(next, last, ids[1..], k)
    requires Finished(next.inbox, ids[0]) && Untouched(next.inbox, last.inbox, ids[0])
    requires forall i :: 1 <= i < |ids| ==> Untouched(s.inbox, next.inbox, ids[i])
    ensures StoppedAt(s, last, ids, k + 1)
  {
  }
}
