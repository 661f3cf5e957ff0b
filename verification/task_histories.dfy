/**
 Who may move a task on, and what a task's row says of its past: a started task was claimed,
 a completed one was started, and each move was made by its claimant or a manager.
 */
module TaskHistories {
  import opened Basics
  import opened Observations
  import opened Tasks
  import Connectivity
  import Inventories

  // ----- One move -----

  /** Whoever claimed the task, or a manager. */
  predicate MayWork(t: Task, q: PatchRequest) { q.manager || t.claimedBy == Some(q.user) }

  predicate IsOver(t: Task) { t.status == Completed || t.status == Canceled || t.status == Expired }

  /** Anybody may claim an open task; only then its claimant works on it; managers may end it before it is over. */
  predicate MayMove(t: Task, q: PatchRequest) {
    match q.status
    case Open => false
    case Claimed => t.status == Open
    case InProgress => t.status == Claimed && MayWork(t, q)
    case Completed => t.status == InProgress && MayWork(t, q)
    case Canceled => q.manager && !IsOver(t)
    case Expired => q.manager && !IsOver(t)
  }

  predicate Ending(q: PatchRequest) { q.status == Canceled || q.status == Expired }

  /** A step that the life of a task does not have, whoever asks. */
  predicate NoSuchStep(t: Task, q: PatchRequest) {
    if Ending(q) then IsOver(t)
    else !((t.status == Open && q.status == Claimed) || (t.status == Claimed && q.status == InProgress)
           || (t.status == InProgress && q.status == Completed))
  }

  /** A move is made exactly when it is allowed and the caller saw the task as it is; each refusal has its guard. */
  lemma PatchOutcome(b: Board, id: TaskId, q: PatchRequest)
    ensures
      var r := PatchTask(b, id, q);
      && (r.Ok? <==> id in b.tasks && MayMove(b.tasks[id], q) && b.tasks[id].version == q.version)
      && (r == Err(TaskNotFound) <==> id !in b.tasks)
      && (r == Err(TransitionForbidden) <==> id in b.tasks && Ending(q) && !q.manager)
      && (r == Err(InvalidTransition) <==>
          id in b.tasks && !(Ending(q) && !q.manager) && NoSuchStep(b.tasks[id], q))
      && (r == Err(ClaimDenied) <==>
          id in b.tasks && (q.status == InProgress || q.status == Completed) && !NoSuchStep(b.tasks[id], q)
          && !MayWork(b.tasks[id], q))
      && (r == Err(VersionConflict) <==> id in b.tasks && MayMove(b.tasks[id], q) && b.tasks[id].version != q.version)
  {
  }

  /** A claim names the claimant, a start its time, a completion the end of its verification time, and nothing else. */
  lemma PatchEffect(b: Board, id: TaskId, q: PatchRequest)
    requires PatchTask(b, id, q).Ok?
    ensures
      var next := PatchTask(b, id, q).value;
      var (t, t') := (b.tasks[id], next.tasks[id]);
      && next.tasks == b.tasks[id := t'] && next.evidence == b.evidence && next.nextId == b.nextId
      && t'.status == q.status && t'.version == t.version + 1
      && t'.store == t.store && t'.sku == t.sku && t'.quantity == t.quantity && t'.verified == t.verified
      && t'.claimedBy == (if q.status == Claimed then Some(q.user) else t.claimedBy)
      && t'.startedAt == (if q.status == InProgress then Some(q.now) else t.startedAt)
      && t'.deadline == (if q.status == Completed then Some(q.now + q.window) else t.deadline)
  {
  }

  // ----- What a row says of the past -----

  ghost function At(zones: map<ZoneId, Zone>, steps: seq<TaskStep>, n: nat): Board
    requires n <= |steps|
  {
    Run(zones, EMPTY, steps[..n])
  }

  lemma {:induction false} RunLast(zones: map<ZoneId, Zone>, b: Board, steps: seq<TaskStep>)
    requires steps != []
    ensures Run(zones, b, steps) == RunStep(zones, Run(zones, b, steps[..|steps| - 1]), steps[|steps| - 1])
    decreases |steps|
  {
    if |steps| > 1 {
      assert steps[..|steps| - 1][1..] == steps[1..][..|steps| - 2];
      RunLast(zones, RunStep(zones, b, steps[0]), steps[1..]);
    }
  }

  lemma AtNext(zones: map<ZoneId, Zone>, steps: seq<TaskStep>, n: nat)
    requires n < |steps|
    ensures At(zones, steps, n + 1) == RunStep(zones, At(zones, steps, n), steps[n])
  {
    assert steps[..n + 1][..n] == steps[..n];
    RunLast(zones, EMPTY, steps[..n + 1]);
  }

  /** Step i moved the task on to this status. */
  ghost predicate MovedAt(zones: map<ZoneId, Zone>, steps: seq<TaskStep>, i: nat, id: TaskId, status: TaskStatus) {
    && i < |steps| && steps[i].PatchStep? && steps[i].task == id && steps[i].request.status == status
    && PatchTask(At(zones, steps, i), id, steps[i].request).Ok?
  }

  predicate ByHand(q: PatchRequest, who: UserId) { q.manager || q.user == who }

  /** Within the first n steps this user claimed the task. */
  ghost predicate WasClaimed(zones: map<ZoneId, Zone>, steps: seq<TaskStep>, n: nat, id: TaskId, who: UserId) {
    exists i: nat :: i < n && MovedAt(zones, steps, i, id, Claimed) && steps[i].request.user == who
  }

  /** After that, the task was started at this time, by its claimant or a manager. */
  ghost predicate WasStarted(
    zones: map<ZoneId, Zone>, steps: seq<TaskStep>, n: nat, id: TaskId, who: UserId, at: Time)
  {
    exists i: nat ::
      && i < n && MovedAt(zones, steps, i, id, InProgress) && ByHand(steps[i].request, who)
      && steps[i].request.now == at && WasClaimed(zones, steps, i, id, who)
  }

  /** And after that it was completed, by its claimant or a manager. */
  ghost predicate WasCompleted(
    zones: map<ZoneId, Zone>, steps: seq<TaskStep>, n: nat, id: TaskId, who: UserId, at: Time, deadline: Time)
  {
    exists i: nat ::
      && i < n && MovedAt(zones, steps, i, id, Completed) && ByHand(steps[i].request, who)
      && steps[i].request.now + steps[i].request.window == deadline && WasStarted(zones, steps, i, id, who, at)
  }

  /** How far the work on a task has come. */
  predicate StageOk(t: Task) {
    && (t.status == Open ==> t.claimedBy.None?)
    && (t.status == Claimed ==> t.claimedBy.Some? && t.startedAt.None?)
    && (t.status == InProgress ==> t.startedAt.Some? && t.deadline.None?)
    && (t.status == Completed <==> t.deadline.Some?)
    && (t.startedAt.Some? ==> t.claimedBy.Some?) && (t.deadline.Some? ==> t.startedAt.Some?)
  }

  /** The past of a task after n steps, as its row tells it. */
  ghost predicate Explained(zones: map<ZoneId, Zone>, steps: seq<TaskStep>, n: nat, id: TaskId, t: Task) {
    && StageOk(t)
    && (t.claimedBy.Some? ==> WasClaimed(zones, steps, n, id, t.claimedBy.value))
    && (t.startedAt.Some? ==> WasStarted(zones, steps, n, id, t.claimedBy.value, t.startedAt.value))
    && (t.deadline.Some? ==>
          WasCompleted(zones, steps, n, id, t.claimedBy.value, t.startedAt.value, t.deadline.value))
  }

  /** Everything the past is told by stays. */
  predicate SameWork(t: Task, t': Task) {
    t'.status == t.status && t'.claimedBy == t.claimedBy && t'.startedAt == t.startedAt && t'.deadline == t.deadline
  }

  lemma SameWorkExplained(
    zones: map<ZoneId, Zone>, steps: seq<TaskStep>, n: nat, id: TaskId, t: Task, t': Task)
    requires Explained(zones, steps, n, id, t) && SameWork(t, t')
    ensures Explained(zones, steps, n + 1, id, t')
  {
    PastStays(zones, steps, n, id, t);
  }

  lemma PastStays(zones: map<ZoneId, Zone>, steps: seq<TaskStep>, n: nat, id: TaskId, t: Task)
    requires Explained(zones, steps, n, id, t)
    ensures t.claimedBy.Some? ==> WasClaimed(zones, steps, n + 1, id, t.claimedBy.value)
    ensures t.startedAt.Some? ==> WasStarted(zones, steps, n + 1, id, t.claimedBy.value, t.startedAt.value)
    ensures t.deadline.Some? ==>
              WasCompleted(zones, steps, n + 1, id, t.claimedBy.value, t.startedAt.value, t.deadline.value)
  {
  }

  /** The move of step n is told by the row it writes. */
  lemma MoveExplained(zones: map<ZoneId, Zone>, steps: seq<TaskStep>, n: nat, id: TaskId, q: PatchRequest)
    requires n < |steps| && steps[n] == PatchStep(id, q) && PatchTask(At(zones, steps, n), id, q).Ok?
    requires id in At(zones, steps, n).tasks && Explained(zones, steps, n, id, At(zones, steps, n).tasks[id])
    ensures
      var next := PatchTask(At(zones, steps, n), id, q).value;
      id in next.tasks && Explained(zones, steps, n + 1, id, next.tasks[id])
  {
    var b := At(zones, steps, n);
    PatchOutcome(b, id, q);
    PatchEffect(b, id, q);
    PastStays(zones, steps, n, id, b.tasks[id]);
    assert MovedAt(zones, steps, n, id, q.status);
  }

  lemma EvaluateSkuWork(b: Board, store: StoreId, s: Snapshot, id: TaskId)
    requires id in EvaluateSku(b, store, s).tasks
    ensures
      var t' := EvaluateSku(b, store, s).tasks[id];
      (id in b.tasks && SameWork(b.tasks[id], t'))
      || (t'.status == Open && t'.claimedBy.None? && t'.startedAt.None? && t'.deadline.None?)
  {
  }

  predicate Untouched(t: Task) {
    t.status == Open && t.claimedBy.None? && t.startedAt.None? && t.deadline.None?
  }

  lemma {:induction false} EvaluateWork(b: Board, store: StoreId, snapshots: seq<Snapshot>, id: TaskId)
    requires id in Evaluate(b, store, snapshots).tasks
    ensures
      var t' := Evaluate(b, store, snapshots).tasks[id];
      (id in b.tasks && SameWork(b.tasks[id], t')) || Untouched(t')
    decreases |snapshots|
  {
    if snapshots != [] {
      var before := Evaluate(b, store, snapshots[..|snapshots| - 1]);
      EvaluateSkuWork(before, store, snapshots[|snapshots| - 1], id);
      if id in before.tasks {
        EvaluateWork(b, store, snapshots[..|snapshots| - 1], id);
      }
    }
  }

  lemma StepExplained(zones: map<ZoneId, Zone>, steps: seq<TaskStep>, n: nat, id: TaskId)
    requires n < |steps| && id in At(zones, steps, n + 1).tasks
    requires id in At(zones, steps, n).tasks ==> Explained(zones, steps, n, id, At(zones, steps, n).tasks[id])
    ensures Explained(zones, steps, n + 1, id, At(zones, steps, n + 1).tasks[id])
  {
    var b, next := At(zones, steps, n), At(zones, steps, n + 1);
    AtNext(zones, steps, n);
    match steps[n]
    case EvaluateStep(store, link, snapshots) =>
      if IsLive(link) {
        EvaluateWork(b, store, snapshots, id);
      }
      if id in b.tasks && SameWork(b.tasks[id], next.tasks[id]) {
        SameWorkExplained(zones, steps, n, id, b.tasks[id], next.tasks[id]);
      }
    case PatchStep(other, q) =>
      if PatchTask(b, other, q).Ok? && other == id {
        MoveExplained(zones, steps, n, id, q);
      } else {
        SameWorkExplained(zones, steps, n, id, b.tasks[id], next.tasks[id]);
      }
    case MoveStep(m) => SameWorkExplained(zones, steps, n, id, b.tasks[id], next.tasks[id]);
  }

  lemma {:induction false} ExplainedUpTo(zones: map<ZoneId, Zone>, steps: seq<TaskStep>, n: nat, id: TaskId)
    requires n <= |steps| && id in At(zones, steps, n).tasks
    ensures Explained(zones, steps, n, id, At(zones, steps, n).tasks[id])
  {
    if n > 0 {
      if id in At(zones, steps, n - 1).tasks {
        ExplainedUpTo(zones, steps, n - 1, id);
      }
      StepExplained(zones, steps, n - 1, id);
    }
  }

  /**
   In every run: who is named as claimant claimed the open task; a started task was claimed
   before and started by its claimant or a manager at the time the row says; a completed one was
   started before that and completed by its claimant or a manager.
   */
  lemma RowsTellThePast(zones: map<ZoneId, Zone>, steps: seq<TaskStep>, id: TaskId)
    requires id in Run(zones, EMPTY, steps).tasks
    ensures Explained(zones, steps, |steps|, id, Run(zones, EMPTY, steps).tasks[id])
  {
    assert steps[..|steps|] == steps;
    ExplainedUpTo(zones, steps, |steps|, id);
  }

  // ----- A life of a task -----

  const KINDS: map<ZoneId, Zone> := map[1 := Zone(1, Backroom), 2 := Zone(1, SalesFloor)]

  const LIVE: Link := Link(
    Some(Connectivity.ConnectivityRow(Some(100), 100, true, true, None, Some(100), Some(100), None, Connectivity.Live)),
    Connectivity.Windows(120, 60, 30), 100)

  /** Asked for, claimed, started, restocked by a move and completed. */
  const LIFE: seq<TaskStep> := [
    EvaluateStep(1, LIVE, [Snapshot(5, 0, 3, true, Some((1, 1)))]),
    PatchStep(0, PatchRequest(Claimed, 1, 7, false, 110, 900)),
    PatchStep(0, PatchRequest(InProgress, 2, 7, false, 120, 900)),
    MoveStep(Move(Inventories.TransitionId(9, 2), 1, 5, 1, 2, 130)),
    PatchStep(0, PatchRequest(Completed, 4, 7, false, 140, 900))]

  lemma AskedInLife()
    ensures At(KINDS, LIFE, 1) == Board(map[0 := Task(1, 5, Open, 1, 0, 1, None, None, None)], map[], 1)
  {
    AtNext(KINDS, LIFE, 0);
    assert At(KINDS, LIFE, 0) == EMPTY;
    var s := Snapshot(5, 0, 3, true, Some((1, 1)));
    assert Evaluate(EMPTY, 1, [s]) == EvaluateSku(Evaluate(EMPTY, 1, []), 1, s) by {
      assert [s][..0] == [];
    }
    assert !HasActive(EMPTY, 1, 5);
  }

  lemma StartedInLife()
    ensures At(KINDS, LIFE, 3) == Board(map[0 := Task(1, 5, InProgress, 1, 0, 3, Some(7), Some(120), None)], map[], 1)
  {
    AskedInLife();
    AtNext(KINDS, LIFE, 1);
    AtNext(KINDS, LIFE, 2);
  }

  lemma MovedInLife()
    ensures
      At(KINDS, LIFE, 4) ==
      Board(map[0 := Task(1, 5, InProgress, 1, 1, 4, Some(7), Some(120), None)],
            map[Inventories.TransitionId(9, 2) := 0], 1)
  {
    StartedInLife();
    AtNext(KINDS, LIFE, 3);
    var b, m := At(KINDS, LIFE, 3), LIFE[3].move;
    assert Eligible(b.tasks[0], m);
    assert ChosenTask(b, m) == 0;
  }

  /** The rules above are not empty: this run ends with a task that its claimant completed and a move verified. */
  lemma LifeOfATask()
    ensures
      var t := Task(1, 5, Completed, 1, 1, 5, Some(7), Some(120), Some(1040));
      && Run(KINDS, EMPTY, LIFE) == Board(map[0 := t], map[Inventories.TransitionId(9, 2) := 0], 1)
      && VerificationStatus(t, 2000) == Verified
  {
    MovedInLife();
    AtNext(KINDS, LIFE, 4);
    assert LIFE[..5] == LIFE;
  }
}
