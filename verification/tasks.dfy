/**
 Replenishment tasks: evaluations open them or enlarge open ones, people move them on under
 optimistic versions, and confirmed backroom-to-floor moves verify them, one task at most
 per move.
 */
module Tasks {
  import opened Basics
  import opened Observations
  import Connectivity
  import Inventories

  type TaskId = nat
  type UserId = int

  /** A move is the transition that recorded it. */
  type MoveId = Inventories.TransitionId

  datatype TaskStatus = Open | Claimed | InProgress | Completed | Canceled | Expired

  datatype Task = Task(
    store: StoreId, sku: SkuId, status: TaskStatus, quantity: nat, verified: nat, version: nat,
    claimedBy: Option<UserId>, startedAt: Option<Time>, deadline: Option<Time>)

  /** Task rows, and for each attributed move the one task it is evidence for. */
  datatype Board = Board(tasks: map<TaskId, Task>, evidence: map<MoveId, TaskId>, nextId: TaskId)

  const EMPTY: Board := Board(map[], map[], 0)

  predicate IsActive(t: Task) { t.status == Open || t.status == Claimed || t.status == InProgress }

  // ----- Evaluation -----

  /** The floor shortage, capped by what the backroom holds, less what a task already asks for. */
  function RequiredQuantity(floor: nat, backroom: nat, asked: nat, minFloor: int, targetFloor: int): nat {
    if floor >= minFloor then 0 else Min(backroom, Max(0, targetFloor - floor - asked))
  }

  /** What one evaluation reads for a SKU: stock, whether it is trusted, and the selected rule. */
  datatype Snapshot = Snapshot(sku: SkuId, floor: nat, backroom: nat, confident: bool, rule: Option<(int, int)>)

  predicate ActiveFor(b: Board, id: TaskId, store: StoreId, sku: SkuId) {
    id in b.tasks && b.tasks[id].store == store && b.tasks[id].sku == sku && IsActive(b.tasks[id])
  }

  ghost predicate HasActive(b: Board, store: StoreId, sku: SkuId) {
    exists id :: ActiveFor(b, id, store, sku)
  }

  ghost function ActiveTask(b: Board, store: StoreId, sku: SkuId): (id: TaskId)
    requires HasActive(b, store, sku)
    ensures ActiveFor(b, id, store, sku)
  {
    var id :| ActiveFor(b, id, store, sku);
    id
  }

  function NewTask(store: StoreId, sku: SkuId, quantity: nat): Task {
    Task(store, sku, Open, quantity, 0, 1, None, None, None)
  }

  function WithNewTask(b: Board, store: StoreId, sku: SkuId, quantity: nat): Board {
    b.(tasks := b.tasks[b.nextId := NewTask(store, sku, quantity)], nextId := b.nextId + 1)
  }

  function Enlarged(t: Task, quantity: nat): Task {
    t.(quantity := t.quantity + quantity, version := t.version + 1)
  }

  /** One SKU of an evaluation: nothing, an enlarged open task, a deferred shortage or a new task. */
  ghost function EvaluateSku(b: Board, store: StoreId, s: Snapshot): Board {
    if !s.confident || s.rule.None? then b
    else
      var (minFloor, targetFloor) := s.rule.value;
      if HasActive(b, store, s.sku) then
        var id := ActiveTask(b, store, s.sku);
        var quantity := RequiredQuantity(s.floor, s.backroom, b.tasks[id].quantity, minFloor, targetFloor);
        if quantity == 0 || b.tasks[id].status != Open then b
        else b.(tasks := b.tasks[id := Enlarged(b.tasks[id], quantity)])
      else
        var quantity := RequiredQuantity(s.floor, s.backroom, 0, minFloor, targetFloor);
        if quantity == 0 then b else WithNewTask(b, store, s.sku, quantity)
  }

  ghost function Evaluate(b: Board, store: StoreId, snapshots: seq<Snapshot>): Board
    decreases |snapshots|
  {
    if snapshots == [] then b
    else EvaluateSku(Evaluate(b, store, snapshots[..|snapshots| - 1]), store, snapshots[|snapshots| - 1])
  }

  /** What an evaluation reports besides its tasks. */
  datatype Report = Report(
    suppressedConnectivity: bool, suppressedLowConfidence: nat, deferredCount: nat, deferredQuantity: nat)

  const NOTHING_HELD_BACK: Report := Report(false, 0, 0, 0)

  /** The shortage left to a task that somebody is already working on. */
  ghost function Deferred(b: Board, store: StoreId, s: Snapshot): nat {
    if !s.confident || s.rule.None? || !HasActive(b, store, s.sku) then 0
    else
      var id := ActiveTask(b, store, s.sku);
      if b.tasks[id].status == Open then 0
      else RequiredQuantity(s.floor, s.backroom, b.tasks[id].quantity, s.rule.value.0, s.rule.value.1)
  }

  ghost function Reported(r: Report, b: Board, store: StoreId, s: Snapshot): Report {
    if !s.confident then r.(suppressedLowConfidence := r.suppressedLowConfidence + 1)
    else if Deferred(b, store, s) > 0 then
      r.(deferredCount := r.deferredCount + 1, deferredQuantity := r.deferredQuantity + Deferred(b, store, s))
    else r
  }

  ghost function ReportOf(b: Board, store: StoreId, snapshots: seq<Snapshot>): Report
    decreases |snapshots|
  {
    if snapshots == [] then NOTHING_HELD_BACK
    else
      var front := snapshots[..|snapshots| - 1];
      Reported(ReportOf(b, store, front), Evaluate(b, store, front), store, snapshots[|snapshots| - 1])
  }

  /** What an evaluation knows of the store's connectivity: its row, if there is one, at one moment. */
  datatype Link = Link(row: Option<Connectivity.ConnectivityRow>, windows: Connectivity.Windows, now: Time)

  predicate IsLive(c: Link) {
    c.row.Some? && Connectivity.EffectiveFreshness(c.row.value, c.windows, c.now) == Connectivity.Live
  }

  /** Only a live store is evaluated. */
  ghost function EvaluateLive(b: Board, store: StoreId, c: Link, snapshots: seq<Snapshot>): (Board, Report) {
    if !IsLive(c) then (b, NOTHING_HELD_BACK.(suppressedConnectivity := true))
    else (Evaluate(b, store, snapshots), ReportOf(b, store, snapshots))
  }

  // ----- Moving a task on -----

  datatype PatchError = TaskNotFound | TransitionForbidden | InvalidTransition | ClaimDenied | VersionConflict

  datatype PatchRequest = PatchRequest(
    status: TaskStatus, version: nat, user: UserId, manager: bool, now: Time, window: nat)

  predicate Follows(from: TaskStatus, to: TaskStatus) {
    (from == Open && to == Claimed) || (from == Claimed && to == InProgress) || (from == InProgress && to == Completed)
  }

  function Patched(t: Task, q: PatchRequest): Task {
    var t := t.(status := q.status, version := q.version + 1);
    match q.status
    case Claimed => t.(claimedBy := Some(q.user))
    case InProgress => t.(startedAt := Some(q.now))
    case Completed => t.(deadline := Some(q.now + q.window))
    case _ => t
  }

  function PatchTask(b: Board, id: TaskId, q: PatchRequest): Result<Board, PatchError> {
    if id !in b.tasks then Err(TaskNotFound)
    else
      var t := b.tasks[id];
      var ending := q.status == Canceled || q.status == Expired;
      if ending && !q.manager then Err(TransitionForbidden)
      else if (ending && !IsActive(t)) || (!ending && !Follows(t.status, q.status)) then Err(InvalidTransition)
      else if (t.status == Claimed || t.status == InProgress) && t.claimedBy != Some(q.user) && !q.manager
          then Err(ClaimDenied)
      else if t.version != q.version then Err(VersionConflict)
      else Ok(b.(tasks := b.tasks[id := Patched(t, q)]))
  }

  // ----- Attributing a move -----

  datatype ZoneKind = Backroom | SalesFloor | OtherZone

  datatype Zone = Zone(store: StoreId, kind: ZoneKind)

  /** A confirmed move of an item within one store. */
  datatype Move = Move(id: MoveId, store: StoreId, sku: SkuId, from: ZoneId, to: ZoneId, observedAt: Time)

  predicate IsKind(zones: map<ZoneId, Zone>, store: StoreId, zone: ZoneId, kind: ZoneKind) {
    zone in zones && zones[zone] == Zone(store, kind)
  }

  predicate ToFloor(zones: map<ZoneId, Zone>, m: Move) {
    IsKind(zones, m.store, m.from, Backroom) && IsKind(zones, m.store, m.to, SalesFloor)
  }

  predicate Eligible(t: Task, m: Move) {
    && t.store == m.store && t.sku == m.sku
    && t.startedAt.Some? && t.startedAt.value <= m.observedAt
    && t.verified < t.quantity
    && (t.status == InProgress
        || (t.status == Completed && t.deadline.Some? && t.deadline.value >= m.observedAt))
  }

  /** Running tasks first, then the latest started, then the highest id. */
  predicate Preferred(a: Task, i: TaskId, b: Task, j: TaskId)
    requires a.startedAt.Some? && b.startedAt.Some?
  {
    if (a.status == InProgress) != (b.status == InProgress) then a.status == InProgress
    else a.startedAt.value > b.startedAt.value || (a.startedAt.value == b.startedAt.value && i >= j)
  }

  ghost predicate Chosen(b: Board, m: Move, id: TaskId) {
    && id in b.tasks && Eligible(b.tasks[id], m)
    && forall j :: j in b.tasks && Eligible(b.tasks[j], m) ==> Preferred(b.tasks[id], id, b.tasks[j], j)
  }

  ghost predicate NoneEligible(b: Board, m: Move) {
    forall id :: id in b.tasks ==> !Eligible(b.tasks[id], m)
  }

  function Credited(b: Board, m: Move, id: TaskId): Board
    requires id in b.tasks
  {
    var t := b.tasks[id];
    b.(tasks := b.tasks[id := t.(verified := Min(t.quantity, t.verified + 1), version := t.version + 1)],
    evidence := b.evidence[m.id := id])
  }

  lemma {:induction false} ChosenAmong(b: Board, m: Move, ids: set<TaskId>) returns (id: TaskId)
    requires ids <= b.tasks.Keys && exists j :: j in ids && Eligible(b.tasks[j], m)
    ensures id in ids && Eligible(b.tasks[id], m)
    ensures forall j :: j in ids && Eligible(b.tasks[j], m) ==> Preferred(b.tasks[id], id, b.tasks[j], j)
    decreases |ids|
  {
    var i :| i in ids && Eligible(b.tasks[i], m);
    if exists j :: j in ids - {i} && Eligible(b.tasks[j], m) {
      var best := ChosenAmong(b, m, ids - {i});
      id := if Preferred(b.tasks[i], i, b.tasks[best], best) then i else best;
    } else {
      id := i;
    }
  }

  /** The eligible task that comes first; the preference leaves no choice. */
  ghost function ChosenTask(b: Board, m: Move): (id: TaskId)
    requires !NoneEligible(b, m)
    ensures Chosen(b, m, id)
    ensures forall j :: Chosen(b, m, j) ==> j == id
  {
    assert exists id :: Chosen(b, m, id) by {
      var id := ChosenAmong(b, m, b.tasks.Keys);
      assert Chosen(b, m, id);
    }
    var id :| Chosen(b, m, id);
    id
  }

  /** Attributing a move; one that is evidence already would violate the unique constraint. */
  ghost function Attributed(zones: map<ZoneId, Zone>, b: Board, m: Move): Board {
    if !ToFloor(zones, m) || m.id in b.evidence || NoneEligible(b, m) then b else Credited(b, m, ChosenTask(b, m))
  }

  // ----- Verification derived at read time -----

  datatype Verification = NotApplicable | Verified | Unverified | PendingVerification

  function VerificationStatus(t: Task, now: Time): Verification {
    if t.status != Completed then NotApplicable
    else if t.verified >= t.quantity then Verified
    else if t.deadline.Some? && now >= t.deadline.value then Unverified
    else PendingVerification
  }

  // ----- The invariant -----

  ghost function EvidenceFor(b: Board, id: TaskId): set<MoveId> {
    set m | m in b.evidence && b.evidence[m] == id
  }

  ghost predicate TaskOk(b: Board, id: TaskId)
    requires id in b.tasks
  {
    var t := b.tasks[id];
    && id < b.nextId && 0 < t.quantity && 1 <= t.version
    && t.verified == |EvidenceFor(b, id)| && t.verified <= t.quantity
    && (t.status == Open || t.status == Claimed ==> t.startedAt.None? && t.verified == 0)
  }

  ghost predicate TasksOk(b: Board) {
    && (forall id {:trigger TaskOk(b, id)} :: id in b.tasks ==> TaskOk(b, id))
    && (forall m {:trigger b.evidence[m]} :: m in b.evidence ==> b.evidence[m] in b.tasks)
  }

  ghost predicate OneActive(b: Board) {
    forall i, j, store, sku {:trigger ActiveFor(b, i, store, sku), ActiveFor(b, j, store, sku)} ::
      ActiveFor(b, i, store, sku) && ActiveFor(b, j, store, sku) ==> i == j
  }

  ghost predicate BoardOk(b: Board) { TasksOk(b) && OneActive(b) }

  /** Rows keep store, SKU and start, versions only rise with a change, and a verified task is final. */
  ghost predicate Advanced(b: Board, next: Board) {
    && (forall id {:trigger id in b.tasks} {:trigger next.tasks[id]} :: id in b.tasks ==>
          && id in next.tasks
          && (next.tasks[id] == b.tasks[id] || next.tasks[id].version > b.tasks[id].version)
          && next.tasks[id].store == b.tasks[id].store && next.tasks[id].sku == b.tasks[id].sku
          && (b.tasks[id].startedAt.Some? ==> next.tasks[id].startedAt == b.tasks[id].startedAt)
          && (VerificationStatus(b.tasks[id], 0) == Verified ==> next.tasks[id] == b.tasks[id]))
    && (forall m {:trigger m in b.evidence} :: m in b.evidence ==>
         m in next.evidence && next.evidence[m] == b.evidence[m])
  }

  lemma SameEvidence(b: Board, next: Board, id: TaskId)
    requires next.evidence == b.evidence
    ensures EvidenceFor(next, id) == EvidenceFor(b, id)
  {
  }

  /** Changing one task and no evidence. */
  lemma ReplaceKeeps(b: Board, id: TaskId, t: Task)
    requires BoardOk(b) && id in b.tasks
    requires t.store == b.tasks[id].store && t.sku == b.tasks[id].sku && t.verified == b.tasks[id].verified
    requires t.quantity >= b.tasks[id].quantity && t.version > b.tasks[id].version
    requires IsActive(t) ==> IsActive(b.tasks[id])
    requires b.tasks[id].startedAt.Some? ==> t.startedAt == b.tasks[id].startedAt
    requires t.status == Open || t.status == Claimed ==> t.startedAt.None? && t.verified == 0
    requires VerificationStatus(b.tasks[id], 0) != Verified
    ensures BoardOk(b.(tasks := b.tasks[id := t])) && Advanced(b, b.(tasks := b.tasks[id := t]))
  {
    var next := b.(tasks := b.tasks[id := t]);
    forall j | j in next.tasks
      ensures TaskOk(next, j)
    {
      assert TaskOk(b, j);
      SameEvidence(b, next, j);
    }
    forall i, j, store, sku | ActiveFor(next, i, store, sku) && ActiveFor(next, j, store, sku)
      ensures i == j
    {
      assert ActiveFor(b, i, store, sku) && ActiveFor(b, j, store, sku);
    }
  }

  lemma EvaluateSkuKeeps(b: Board, store: StoreId, s: Snapshot)
    requires BoardOk(b)
    ensures BoardOk(EvaluateSku(b, store, s)) && Advanced(b, EvaluateSku(b, store, s))
  {
    var next := EvaluateSku(b, store, s);
    if next != b {
      if HasActive(b, store, s.sku) {
        var id := ActiveTask(b, store, s.sku);
        assert TaskOk(b, id);
        ReplaceKeeps(b, id, next.tasks[id]);
      } else {
        NewTaskKeeps(b, store, s.sku, next.tasks[b.nextId].quantity);
      }
    }
  }

  lemma NewTaskKeeps(b: Board, store: StoreId, sku: SkuId, quantity: nat)
    requires BoardOk(b) && !HasActive(b, store, sku) && quantity > 0
    ensures BoardOk(WithNewTask(b, store, sku, quantity)) && Advanced(b, WithNewTask(b, store, sku, quantity))
  {
    var next := WithNewTask(b, store, sku, quantity);
    assert b.nextId in b.tasks ==> TaskOk(b, b.nextId);
    forall m | m in b.evidence
      ensures b.evidence[m] != b.nextId
    {
      assert b.evidence[m] in b.tasks;
    }
    forall j | j in next.tasks
      ensures TaskOk(next, j)
    {
      SameEvidence(b, next, j);
      if j == b.nextId {
        assert EvidenceFor(b, j) == {};
      } else {
        assert TaskOk(b, j);
      }
    }
    forall i, j, at, of | ActiveFor(next, i, at, of) && ActiveFor(next, j, at, of)
      ensures i == j
    {
      assert i != b.nextId ==> ActiveFor(b, i, at, of);
      assert j != b.nextId ==> ActiveFor(b, j, at, of);
    }
  }

  lemma PatchKeeps(b: Board, id: TaskId, q: PatchRequest)
    requires BoardOk(b) && PatchTask(b, id, q).Ok?
    ensures BoardOk(PatchTask(b, id, q).value) && Advanced(b, PatchTask(b, id, q).value)
  {
    assert TaskOk(b, id);
    ReplaceKeeps(b, id, Patched(b.tasks[id], q));
  }

  lemma CreditedEvidence(b: Board, m: Move, id: TaskId, j: TaskId)
    requires m.id !in b.evidence && id in b.tasks
    ensures |EvidenceFor(Credited(b, m, id), j)| == |EvidenceFor(b, j)| + if j == id then 1 else 0
  {
    var before, after := EvidenceFor(b, j), EvidenceFor(Credited(b, m, id), j);
    var expected := if j == id then before + {m.id} else before;
    forall n
      ensures n in after <==> n in expected
    {
      assert n in before <==> n in b.evidence && b.evidence[n] == j;
    }
    SetsEqual(after, expected);
  }

  lemma CreditKeepsTasks(b: Board, m: Move, id: TaskId)
    requires TasksOk(b) && m.id !in b.evidence && id in b.tasks && Eligible(b.tasks[id], m)
    ensures TasksOk(Credited(b, m, id))
  {
    var next := Credited(b, m, id);
    forall j | j in next.tasks
      ensures TaskOk(next, j)
    {
      assert TaskOk(b, j);
      CreditedEvidence(b, m, id, j);
    }
  }

  lemma CreditKeeps(b: Board, m: Move, id: TaskId)
    requires BoardOk(b) && m.id !in b.evidence && id in b.tasks && Eligible(b.tasks[id], m)
    ensures BoardOk(Credited(b, m, id)) && Advanced(b, Credited(b, m, id))
  {
    var next := Credited(b, m, id);
    CreditKeepsTasks(b, m, id);
    forall i, j, store, sku | ActiveFor(next, i, store, sku) && ActiveFor(next, j, store, sku)
      ensures i == j
    {
      assert ActiveFor(b, i, store, sku) && ActiveFor(b, j, store, sku);
    }
  }

  lemma AttributedKeeps(zones: map<ZoneId, Zone>, b: Board, m: Move)
    requires BoardOk(b)
    ensures BoardOk(Attributed(zones, b, m)) && Advanced(b, Attributed(zones, b, m))
  {
    if Attributed(zones, b, m) != b {
      CreditKeeps(b, m, ChosenTask(b, m));
    }
  }

  // ----- Runs -----

  datatype TaskStep =
    | EvaluateStep(store: StoreId, link: Link, snapshots: seq<Snapshot>)
    | PatchStep(task: TaskId, request: PatchRequest)
    | MoveStep(move: Move)

  ghost function RunStep(zones: map<ZoneId, Zone>, b: Board, step: TaskStep): Board {
    match step
    case EvaluateStep(store, link, snapshots) => EvaluateLive(b, store, link, snapshots).0
    case PatchStep(id, q) => if PatchTask(b, id, q).Ok? then PatchTask(b, id, q).value else b
    case MoveStep(m) => Attributed(zones, b, m)
  }

  ghost function Run(zones: map<ZoneId, Zone>, b: Board, steps: seq<TaskStep>): Board
    decreases |steps|
  {
    if steps == [] then b else Run(zones, RunStep(zones, b, steps[0]), steps[1..])
  }

  lemma AdvancedTrans(a: Board, b: Board, c: Board)
    requires Advanced(a, b) && Advanced(b, c)
    ensures Advanced(a, c)
  {
  }

  lemma {:induction false} EvaluateKeeps(b: Board, store: StoreId, snapshots: seq<Snapshot>)
    requires BoardOk(b)
    ensures BoardOk(Evaluate(b, store, snapshots)) && Advanced(b, Evaluate(b, store, snapshots))
    decreases |snapshots|
  {
    if snapshots != [] {
      var before := Evaluate(b, store, snapshots[..|snapshots| - 1]);
      EvaluateKeeps(b, store, snapshots[..|snapshots| - 1]);
      EvaluateSkuKeeps(before, store, snapshots[|snapshots| - 1]);
      AdvancedTrans(b, before, Evaluate(b, store, snapshots));
    }
  }

  lemma StepKeeps(zones: map<ZoneId, Zone>, b: Board, step: TaskStep)
    requires BoardOk(b)
    ensures BoardOk(RunStep(zones, b, step)) && Advanced(b, RunStep(zones, b, step))
  {
    match step
    case EvaluateStep(store, link, snapshots) => EvaluateKeeps(b, store, snapshots);
    case PatchStep(id, q) =>
      if PatchTask(b, id, q).Ok? {
        PatchKeeps(b, id, q);
      }
    case MoveStep(m) => AttributedKeeps(zones, b, m);
  }

  /**
   Over any run: one active task per store and SKU, verified quantity equal to the evidence
   rows and never above the quantity, versions rising with every change, moves keeping the
   task they verified and VERIFIED tasks never changing again.
   */
  lemma {:induction false} RunKeeps(zones: map<ZoneId, Zone>, b: Board, steps: seq<TaskStep>)
    requires BoardOk(b)
    ensures BoardOk(Run(zones, b, steps)) && Advanced(b, Run(zones, b, steps))
    decreases |steps|
  {
    if steps != [] {
      var next := RunStep(zones, b, steps[0]);
      StepKeeps(zones, b, steps[0]);
      RunKeeps(zones, next, steps[1..]);
      AdvancedTrans(b, next, Run(zones, b, steps));
    }
  }

  lemma ReachableBoardOk(zones: map<ZoneId, Zone>, steps: seq<TaskStep>)
    ensures BoardOk(Run(zones, EMPTY, steps))
  {
    RunKeeps(zones, EMPTY, steps);
  }

  // ----- Evaluating again and again -----

  /** What the open task for a SKU asks for. */
  ghost function Asked(b: Board, store: StoreId, sku: SkuId): nat {
    if HasActive(b, store, sku) then b.tasks[ActiveTask(b, store, sku)].quantity else 0
  }

  ghost predicate OpenOrNone(b: Board, store: StoreId, sku: SkuId) {
    forall id :: ActiveFor(b, id, store, sku) ==> b.tasks[id].status == Open
  }

  ghost function EvaluateTimes(b: Board, store: StoreId, s: Snapshot, n: nat): Board {
    if n == 0 then b else EvaluateSku(EvaluateTimes(b, store, s, n - 1), store, s)
  }

  /** Every shortage of a trusted SKU with a rule is either asked for or reported as deferred. */
  lemma ShortageAccounted(b: Board, store: StoreId, s: Snapshot)
    requires BoardOk(b) && s.confident && s.rule.Some?
    ensures
      Asked(EvaluateSku(b, store, s), store, s.sku) + Deferred(b, store, s) ==
      Asked(b, store, s.sku)
      + RequiredQuantity(s.floor, s.backroom, Asked(b, store, s.sku), s.rule.value.0, s.rule.value.1)
  {
    EvaluateSkuKeeps(b, store, s);
    var next := EvaluateSku(b, store, s);
    if next != b {
      var id := if HasActive(b, store, s.sku) then ActiveTask(b, store, s.sku) else b.nextId;
      assert ActiveFor(next, id, store, s.sku);
      assert ActiveTask(next, store, s.sku) == id;
    }
  }

  lemma EvaluateAsks(b: Board, store: StoreId, s: Snapshot)
    requires BoardOk(b) && OpenOrNone(b, store, s.sku) && s.confident && s.rule.Some?
    ensures
      var next := EvaluateSku(b, store, s);
      && BoardOk(next) && OpenOrNone(next, store, s.sku)
      && Asked(next, store, s.sku) ==
         Asked(b, store, s.sku)
         + RequiredQuantity(s.floor, s.backroom, Asked(b, store, s.sku), s.rule.value.0, s.rule.value.1)
  {
    EvaluateSkuKeeps(b, store, s);
    ShortageAccounted(b, store, s);
  }

  /** The rest of the way to a limit, in steps of at most q. */
  lemma OneMoreStep(limit: int, asked: int, q: nat, n: nat)
    requires 0 < n && asked <= limit
    ensures
      var before := Min(limit, asked + (n - 1) * q);
      before + Min(q, Max(0, limit - before)) == Min(limit, asked + n * q)
  {
    assert n * q == (n - 1) * q + q;
  }

  /**
   With unchanged stock and rule, n evaluations ask for min(target - floor, asked + n * backroom):
   floor plus task reaches the target and never passes it, but the task is not capped by the backroom.
   */
  lemma {:induction false} RepeatedEvaluation(b: Board, store: StoreId, s: Snapshot, n: nat)
    requires BoardOk(b) && OpenOrNone(b, store, s.sku) && s.confident && s.rule.Some?
    requires s.floor < s.rule.value.0 && Asked(b, store, s.sku) <= s.rule.value.1 - s.floor
    ensures
      var last := EvaluateTimes(b, store, s, n);
      && BoardOk(last) && OpenOrNone(last, store, s.sku)
      && Asked(last, store, s.sku) == Min(s.rule.value.1 - s.floor, Asked(b, store, s.sku) + n * s.backroom)
      && s.floor + Asked(last, store, s.sku) <= s.rule.value.1
  {
    if n > 0 {
      RepeatedEvaluation(b, store, s, n - 1);
      EvaluateAsks(EvaluateTimes(b, store, s, n - 1), store, s);
      OneMoreStep(s.rule.value.1 - s.floor, Asked(b, store, s.sku), s.backroom, n);
    }
  }
}
