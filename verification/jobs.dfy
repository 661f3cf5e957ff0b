/**
 The durable job queue: workers claim due jobs under a lease, renew it, and complete or fail
 the job with a compare-and-set on ownership. Every queue decision uses one clock.
 */
module Jobs {
  import opened Basics
  import opened Observations

  type JobId = int
  type WorkerId = int

  datatype JobStatus = Pending | Processing | Completed | Quarantined

  datatype Job = Job(
    createdAt: Time, status: JobStatus, attempts: nat, availableAt: Time, lockedBy: Option<WorkerId>,
    leaseExpiresAt: Option<Time>)

  type Queue = map<JobId, Job>

  predicate Terminal(j: Job) { j.status == Completed || j.status == Quarantined }

  // ----- Claiming -----

  predicate Due(j: Job, now: Time) {
    (j.status == Pending && j.availableAt <= now)
    || (j.status == Processing && j.leaseExpiresAt.Some? && j.leaseExpiresAt.value <= now)
  }

  predicate Exhausted(j: Job, now: Time, maxAttempts: nat) { Due(j, now) && j.attempts >= maxAttempts }

  predicate Claimable(j: Job, now: Time, maxAttempts: nat) { Due(j, now) && j.attempts < maxAttempts }

  /** A query for the oldest rows, at most `limit` of them, none of them skipped for a younger one. */
  ghost predicate Oldest(q: Queue, rows: set<JobId>, limit: nat, chosen: set<JobId>) {
    && chosen <= rows && rows <= q.Keys
    && |chosen| == (if |rows| < limit then |rows| else limit)
    && forall c, r :: c in chosen && r in rows && r !in chosen ==> q[c].createdAt <= q[r].createdAt
  }

  function Released(j: Job, status: JobStatus): Job {
    j.(status := status, lockedBy := None, leaseExpiresAt := None)
  }

  function Leased(j: Job, worker: WorkerId, until: Time): Job {
    j.(status := Processing, lockedBy := Some(worker), leaseExpiresAt := Some(until), attempts := j.attempts + 1)
  }

  function Claimed(q: Queue, exhausted: set<JobId>, chosen: set<JobId>, worker: WorkerId, until: Time): Queue {
    map id | id in q ::
      if id in exhausted then Released(q[id], Quarantined)
      else if id in chosen then Leased(q[id], worker, until)
      else q[id]
  }

  datatype Claim = Claim(worker: WorkerId, limit: nat, lease: nat, maxAttempts: nat, now: Time)

  function ExhaustedIn(q: Queue, unlocked: set<JobId>, c: Claim): set<JobId> {
    set id | id in q && id in unlocked && Exhausted(q[id], c.now, c.maxAttempts)
  }

  function ClaimableIn(q: Queue, unlocked: set<JobId>, c: Claim): set<JobId> {
    set id | id in q && id in unlocked && Claimable(q[id], c.now, c.maxAttempts)
  }

  /**
   A claim first terminalizes due jobs without budget, then leases due jobs of active
   tenants; rows locked by other transactions are skipped in both passes.
   */
  ghost predicate Claims(q: Queue, c: Claim, unlocked: set<JobId>, served: set<JobId>, next: Queue, taken: set<JobId>) {
    exists exhausted ::
      && Oldest(q, ExhaustedIn(q, unlocked, c), Max(c.limit, 1), exhausted)
      && Oldest(q, ClaimableIn(q, unlocked, c) * served, c.limit, taken)
      && next == Claimed(q, exhausted, taken, c.worker, c.now + c.lease)
  }

  // ----- Compare-and-set by the owner -----

  predicate Owns(q: Queue, id: JobId, worker: WorkerId) {
    id in q && q[id].status == Processing && q[id].lockedBy == Some(worker)
  }

  function Renew(q: Queue, id: JobId, worker: WorkerId, lease: nat, now: Time): (Queue, bool) {
    if Owns(q, id, worker) && q[id].leaseExpiresAt.Some? && q[id].leaseExpiresAt.value > now then
      (q[id := q[id].(leaseExpiresAt := Some(now + lease))], true)
    else (q, false)
  }

  function Complete(q: Queue, id: JobId, worker: WorkerId): (Queue, bool) {
    if Owns(q, id, worker) then (q[id := Released(q[id], Completed)], true) else (q, false)
  }

  function PowerOfTwo(n: nat): nat { if n == 0 then 1 else 2 * PowerOfTwo(n - 1) }

  function RetryDelay(attempts: nat): nat { Min(300, PowerOfTwo(Min(attempts, 8))) }

  function Fail(q: Queue, id: JobId, worker: WorkerId, maxAttempts: nat, now: Time): (Queue, bool) {
    if !Owns(q, id, worker) then (q, false)
    else if q[id].attempts >= maxAttempts then (q[id := Released(q[id], Quarantined)], true)
    else (q[id := Released(q[id], Pending).(availableAt := now + RetryDelay(q[id].attempts))], true)
  }

  lemma {:induction false} PowersGrow(m: nat, n: nat)
    requires m <= n
    ensures 1 <= PowerOfTwo(m) <= PowerOfTwo(n)
    decreases n
  {
    if m < n {
      PowersGrow(m, n - 1);
    } else if n > 0 {
      PowersGrow(m - 1, n - 1);
    }
  }

  /** Delays never shrink with the attempts, and the cap of 300 seconds is never reached. */
  lemma RetryDelays(a: nat, b: nat)
    requires a <= b
    ensures 1 <= RetryDelay(a) <= RetryDelay(b) <= 256
    ensures RetryDelay(a) == PowerOfTwo(Min(a, 8))
  {
    PowersGrow(Min(a, 8), Min(b, 8));
    PowersGrow(Min(b, 8), 8);
    assert PowerOfTwo(8) == 256 by {
      assert PowerOfTwo(3) == 8;
      assert PowerOfTwo(5) == 4 * PowerOfTwo(3);
      assert PowerOfTwo(7) == 4 * PowerOfTwo(5);
    }
  }

  // ----- Steps -----

  datatype JobStep =
    | EnqueueStep(id: JobId, createdAt: Time, availableAt: Time)
    | ClaimStep(claim: Claim, unlocked: set<JobId>, served: set<JobId>)
    | RenewStep(id: JobId, worker: WorkerId, lease: nat, now: Time)
    | CompleteStep(id: JobId, worker: WorkerId)
    | FailStep(id: JobId, worker: WorkerId, maxAttempts: nat, now: Time)

  /** New jobs get new ids; the retry budget is the same in every step. */
  ghost predicate Steps(q: Queue, step: JobStep, next: Queue, budget: nat) {
    match step
    case EnqueueStep(id, createdAt, availableAt) =>
      id !in q && next == q[id := Job(createdAt, Pending, 0, availableAt, None, None)]
    case ClaimStep(c, unlocked, served) =>
      c.maxAttempts == budget && exists taken :: Claims(q, c, unlocked, served, next, taken)
    case RenewStep(id, worker, lease, now) => next == Renew(q, id, worker, lease, now).0
    case CompleteStep(id, worker) => next == Complete(q, id, worker).0
    case FailStep(id, worker, maxAttempts, now) =>
      maxAttempts == budget && next == Fail(q, id, worker, maxAttempts, now).0
  }

  ghost predicate IsRun(queues: seq<Queue>, steps: seq<JobStep>, budget: nat) {
    && |queues| == |steps| + 1
    && forall i {:trigger steps[i]} :: 0 <= i < |steps| ==> Steps(queues[i], steps[i], queues[i + 1], budget)
  }

  /** A job is locked exactly while it is being processed, and never beyond the budget. */
  ghost predicate JobOk(j: Job, budget: nat) {
    && j.attempts <= budget
    && (j.status == Processing <==> j.lockedBy.Some?) && (j.lockedBy.Some? <==> j.leaseExpiresAt.Some?)
  }

  ghost predicate QueueOk(q: Queue, budget: nat) {
    forall id {:trigger q[id]} :: id in q ==> JobOk(q[id], budget)
  }

  function StatusRank(s: JobStatus): nat {
    match s
    case Pending => 1
    case Processing => 2
    case _ => 0
  }

  /** Remaining attempts first, then how far the current attempt has come. */
  function Remaining(j: Job, budget: nat): nat
    requires j.attempts <= budget
  {
    3 * (budget - j.attempts) + StatusRank(j.status)
  }

  /** What one step can do to one job. */
  ghost predicate JobStepOk(before: Job, after: Job, step: JobStep, budget: nat) {
    && JobOk(after, budget)
    && (Terminal(before) ==> after == before)
    && (before.attempts <= budget ==>
          (after.status == before.status && after.attempts == before.attempts)
              || Remaining(after, budget) < Remaining(before, budget))
    && (forall w :: after.lockedBy == Some(w) && before.lockedBy != Some(w) ==>
         step.ClaimStep? && step.claim.worker == w)
  }

  lemma StepKeepsJob(q: Queue, step: JobStep, next: Queue, budget: nat, id: JobId)
    requires Steps(q, step, next, budget) && id in q && JobOk(q[id], budget)
    ensures id in next && JobStepOk(q[id], next[id], step, budget)
  {
  }

  lemma StepKeeps(q: Queue, step: JobStep, next: Queue, budget: nat)
    requires Steps(q, step, next, budget) && QueueOk(q, budget)
    ensures QueueOk(next, budget) && q.Keys <= next.Keys
  {
  }

  // ----- Runs -----

  lemma {:induction false} RunKeeps(queues: seq<Queue>, steps: seq<JobStep>, budget: nat, n: nat)
    requires IsRun(queues, steps, budget) && QueueOk(queues[0], budget) && n <= |steps|
    ensures QueueOk(queues[n], budget)
  {
    if n > 0 {
      RunKeeps(queues, steps, budget, n - 1);
      StepKeeps(queues[n - 1], steps[n - 1], queues[n], budget);
    }
  }

  /** No job is ever attempted more often than the budget allows. */
  lemma AttemptsWithinBudget(queues: seq<Queue>, steps: seq<JobStep>, budget: nat, n: nat, id: JobId)
    requires IsRun(queues, steps, budget) && queues[0] == map[] && n <= |steps| && id in queues[n]
    ensures queues[n][id].attempts <= budget
  {
    RunKeeps(queues, steps, budget, n);
  }

  lemma {:induction false} JobStays(queues: seq<Queue>, steps: seq<JobStep>, budget: nat, i: nat, j: nat, id: JobId)
    requires IsRun(queues, steps, budget) && QueueOk(queues[0], budget) && i <= j <= |steps| && id in queues[i]
    ensures id in queues[j]
    ensures Terminal(queues[i][id]) ==> queues[j][id] == queues[i][id]
    decreases j
  {
    if i < j {
      JobStays(queues, steps, budget, i, j - 1, id);
      RunKeeps(queues, steps, budget, j - 1);
      StepKeepsJob(queues[j - 1], steps[j - 1], queues[j], budget, id);
    }
  }

  /** Worker w does not claim between two points of a run. */
  ghost predicate NoClaimBy(steps: seq<JobStep>, i: nat, j: nat, w: WorkerId)
    requires i <= j <= |steps|
  {
    forall k {:trigger steps[k]} :: i <= k < j ==> !(steps[k].ClaimStep? && steps[k].claim.worker == w)
  }

  /**
   A worker that lost a job, to another worker or to a timeout that was cleaned up, cannot
   renew, complete or fail it any more, unless it claims it again itself.
   */
  lemma {:induction false} LostJobIsLost(
    queues: seq<Queue>, steps: seq<JobStep>, budget: nat, i: nat, j: nat, id: JobId, w: WorkerId)
    requires IsRun(queues, steps, budget) && QueueOk(queues[0], budget) && i <= j <= |steps| && id in queues[i]
    requires queues[i][id].lockedBy != Some(w) && NoClaimBy(steps, i, j, w)
    ensures id in queues[j] && queues[j][id].lockedBy != Some(w)
    ensures forall lease, now :: !Renew(queues[j], id, w, lease, now).1
    ensures !Complete(queues[j], id, w).1
    ensures forall maxAttempts, now :: !Fail(queues[j], id, w, maxAttempts, now).1
    decreases j
  {
    if i < j {
      LostJobIsLost(queues, steps, budget, i, j - 1, id, w);
      RunKeeps(queues, steps, budget, j - 1);
      StepKeepsJob(queues[j - 1], steps[j - 1], queues[j], budget, id);
      assert !(steps[j - 1].ClaimStep? && steps[j - 1].claim.worker == w);
    }
  }

  predicate Differs(a: Job, b: Job) { a.status != b.status || a.attempts != b.attempts }

  /** How often a job changes status or starts an attempt between two points of a run. */
  ghost function StatusChanges(queues: seq<Queue>, id: JobId, i: nat, j: nat): nat
    requires i <= j < |queues| && forall k :: i <= k <= j ==> id in queues[k]
    decreases j
  {
    if i == j then 0
    else StatusChanges(queues, id, i, j - 1) + if Differs(queues[j - 1][id], queues[j][id]) then 1 else 0
  }

  /** Every job settles: it can change only as often as its budget allows. */
  lemma {:induction false} FinitelyManyChanges(
    queues: seq<Queue>, steps: seq<JobStep>, budget: nat, i: nat, j: nat, id: JobId)
    requires IsRun(queues, steps, budget) && QueueOk(queues[0], budget) && i <= j <= |steps| && id in queues[i]
    ensures forall k :: i <= k <= j ==> id in queues[k]
    ensures queues[i][id].attempts <= budget && queues[j][id].attempts <= budget
    ensures StatusChanges(queues, id, i, j) + Remaining(queues[j][id], budget) <= Remaining(queues[i][id], budget)
    decreases j
  {
    RunKeeps(queues, steps, budget, i);
    if i < j {
      FinitelyManyChanges(queues, steps, budget, i, j - 1, id);
      RunKeeps(queues, steps, budget, j - 1);
      StepKeepsJob(queues[j - 1], steps[j - 1], queues[j], budget, id);
    }
  }

  // ----- What a claim may take, and for how long -----

  /** Nobody holds the job and its time has come: it waits no longer, or the lease on it has run out. */
  predicate UpForClaim(j: Job, now: Time) {
    match j.status
    case Pending => j.availableAt <= now
    case Processing => j.leaseExpiresAt.Some? && j.leaseExpiresAt.value <= now
    case _ => false
  }

  /** Leased to the worker from now on, one attempt more; the rest of the job as it was. */
  predicate LeasedTo(j: Job, j': Job, c: Claim) {
    && j'.status == Processing && j'.lockedBy == Some(c.worker) && j'.leaseExpiresAt == Some(c.now + c.lease)
    && j'.attempts == j.attempts + 1 && j'.createdAt == j.createdAt && j'.availableAt == j.availableAt
  }

  predicate Shelved(j: Job, j': Job) {
    && j'.status == Quarantined && j'.lockedBy == None && j'.leaseExpiresAt == None
    && j'.attempts == j.attempts && j'.createdAt == j.createdAt && j'.availableAt == j.availableAt
  }

  /** A job is leased only if it is up for a claim and within its budget, and shelved only if it is without. */
  lemma ClaimedJob(
    q: Queue, c: Claim, unlocked: set<JobId>, served: set<JobId>, next: Queue, taken: set<JobId>, id: JobId)
    requires Claims(q, c, unlocked, served, next, taken) && id in q
    ensures id in next
    ensures id in taken ==>
              id in unlocked && id in served && UpForClaim(q[id], c.now) && q[id].attempts < c.maxAttempts
              && LeasedTo(q[id], next[id], c)
    ensures id !in taken && next[id] != q[id] ==>
              id in unlocked && UpForClaim(q[id], c.now) && c.maxAttempts <= q[id].attempts && Shelved(q[id], next[id])
  {
    var exhausted :| Oldest(q, ExhaustedIn(q, unlocked, c), Max(c.limit, 1), exhausted)
        && Oldest(q, ClaimableIn(q, unlocked, c) * served, c.limit, taken)
        && next == Claimed(q, exhausted, taken, c.worker, c.now + c.lease);
  }

  /** Nothing that could have been taken is passed over for a younger job, or while the limit is not reached. */
  lemma PassedOver(
    q: Queue, c: Claim, unlocked: set<JobId>, served: set<JobId>, next: Queue, taken: set<JobId>, id: JobId)
    requires Claims(q, c, unlocked, served, next, taken)
    requires id in q && id in unlocked && id in served && UpForClaim(q[id], c.now) && q[id].attempts < c.maxAttempts
    ensures |taken| <= c.limit
    ensures id !in taken ==> |taken| == c.limit && forall t :: t in taken ==> q[t].createdAt <= q[id].createdAt
  {
    var rows := ClaimableIn(q, unlocked, c) * served;
    assert id in rows;
    if id !in taken {
      SubsetSize(taken + {id}, rows);
      assert |taken + {id}| == |taken| + 1;
    }
  }

  /** A job without budget that is up for a claim is shelved, unless as many older ones are shelved as one claim may. */
  lemma OverBudget(
    q: Queue, c: Claim, unlocked: set<JobId>, served: set<JobId>, next: Queue, taken: set<JobId>, id: JobId)
    requires Claims(q, c, unlocked, served, next, taken)
    requires id in q && id in unlocked && UpForClaim(q[id], c.now) && c.maxAttempts <= q[id].attempts
    ensures id in next
    ensures Shelved(q[id], next[id]) || exists shelved: set<JobId> ::
              && |shelved| == (if c.limit == 0 then 1 else c.limit)
              && forall x :: x in shelved ==>
                   x in q && x in next && Shelved(q[x], next[x]) && q[x].createdAt <= q[id].createdAt
  {
    var rows := ExhaustedIn(q, unlocked, c);
    var exhausted :| Oldest(q, rows, Max(c.limit, 1), exhausted)
        && Oldest(q, ClaimableIn(q, unlocked, c) * served, c.limit, taken)
        && next == Claimed(q, exhausted, taken, c.worker, c.now + c.lease);
    assert id in rows;
    if id !in exhausted {
      SubsetSize(exhausted + {id}, rows);
      assert |exhausted + {id}| == |exhausted| + 1;
      assert forall x :: x in exhausted ==> x in next && Shelved(q[x], next[x]);
    }
  }

  /** Every claim up to there looks at the clock before the lease runs out. */
  ghost predicate NoClaimAfter(steps: seq<JobStep>, i: nat, j: nat, t: Time)
    requires i <= j <= |steps|
  {
    forall k {:trigger steps[k]} :: i <= k < j && steps[k].ClaimStep? ==> steps[k].claim.now < t
  }

  predicate HeldUntil(j: Job, w: WorkerId, t: Time) {
    j.status == Processing && j.lockedBy == Some(w) && j.leaseExpiresAt.Some? && t <= j.leaseExpiresAt.value
  }

  /** Worker w does not give its job back, but may renew its lease for no shorter than it has. */
  ghost predicate KeepsAtIt(steps: seq<JobStep>, i: nat, j: nat, id: JobId, w: WorkerId, t: Time)
    requires i <= j <= |steps|
  {
    forall k {:trigger steps[k]} :: i <= k < j ==>
      match steps[k]
      case CompleteStep(other, worker) => !(other == id && worker == w)
      case FailStep(other, worker, maxAttempts, now) => !(other == id && worker == w)
      case RenewStep(other, worker, lease, now) => other == id && worker == w ==> t <= now + lease
      case _ => true
  }

  /** A live lease is never taken away: until a claim looks at the clock after its end, the worker keeps the job. */
  lemma {:induction false} LeaseHolds(
    queues: seq<Queue>, steps: seq<JobStep>, budget: nat, i: nat, j: nat, id: JobId, w: WorkerId, t: Time)
    requires IsRun(queues, steps, budget) && i <= j <= |steps| && id in queues[i] && HeldUntil(queues[i][id], w, t)
    requires NoClaimAfter(steps, i, j, t) && KeepsAtIt(steps, i, j, id, w, t)
    ensures id in queues[j] && HeldUntil(queues[j][id], w, t)
    ensures queues[j][id].attempts == queues[i][id].attempts
    decreases j
  {
    if i < j {
      LeaseHolds(queues, steps, budget, i, j - 1, id, w, t);
      HeldSteps(queues[j - 1], steps[j - 1], queues[j], budget, id, w, t);
    }
  }

  lemma HeldSteps(q: Queue, step: JobStep, next: Queue, budget: nat, id: JobId, w: WorkerId, t: Time)
    requires Steps(q, step, next, budget) && id in q && HeldUntil(q[id], w, t)
    requires step.ClaimStep? ==> step.claim.now < t
    requires KeepsAtIt([step], 0, 1, id, w, t)
    ensures id in next && HeldUntil(next[id], w, t) && next[id].attempts == q[id].attempts
  {
    assert [step][0] == step;
    if step.ClaimStep? {
      var taken :| Claims(q, step.claim, step.unlocked, step.served, next, taken);
      ClaimedJob(q, step.claim, step.unlocked, step.served, next, taken, id);
    }
  }

  /** A job that waits is left alone until a claim looks at the clock after its time has come. */
  lemma {:induction false} NotBeforeItsTime(
    queues: seq<Queue>, steps: seq<JobStep>, budget: nat, i: nat, j: nat, id: JobId)
    requires IsRun(queues, steps, budget) && i <= j <= |steps| && id in queues[i] && queues[i][id].status == Pending
    requires NoClaimAfter(steps, i, j, queues[i][id].availableAt)
    ensures id in queues[j] && queues[j][id] == queues[i][id]
    decreases j
  {
    if i < j {
      NotBeforeItsTime(queues, steps, budget, i, j - 1, id);
      if steps[j - 1].ClaimStep? {
        var c, q, next := steps[j - 1].claim, queues[j - 1], queues[j];
        var taken :| Claims(q, c, steps[j - 1].unlocked, steps[j - 1].served, next, taken);
        ClaimedJob(q, c, steps[j - 1].unlocked, steps[j - 1].served, next, taken, id);
      }
    }
  }

  /** Only the worker that holds the job ends its attempt; a failure waits twice as long each time, or is the last. */
  lemma AttemptEnds(q: Queue, id: JobId, worker: WorkerId, maxAttempts: nat, now: Time)
    ensures
      var held := id in q && q[id].status == Processing && q[id].lockedBy == Some(worker);
      var (done, completed) := Complete(q, id, worker);
      var (back, failed) := Fail(q, id, worker, maxAttempts, now);
      && completed == failed == held
      && (!held ==> done == q && back == q)
      && (held ==>
            && done == q[id := done[id]] && back == q[id := back[id]]
            && Freed(q[id], done[id]) && done[id].status == Completed && done[id].availableAt == q[id].availableAt
            && Freed(q[id], back[id])
            && (if q[id].attempts < maxAttempts then
                  back[id].status == Pending && back[id].availableAt == now + PowerOfTwo(Min(q[id].attempts, 8))
                else back[id].status == Quarantined && back[id].availableAt == q[id].availableAt))
  {
    if id in q {
      RetryDelays(q[id].attempts, q[id].attempts);
    }
  }

  predicate Freed(j: Job, j': Job) {
    && j'.lockedBy == None && j'.leaseExpiresAt == None && j'.attempts == j.attempts && j'.createdAt == j.createdAt
  }

  /** A lease is renewed by its holder while it runs, and for no one else. */
  lemma RenewalOutcome(q: Queue, id: JobId, worker: WorkerId, lease: nat, now: Time)
    ensures
      var (next, ok) := Renew(q, id, worker, lease, now);
      && (ok <==> id in q && HeldUntil(q[id], worker, now + 1))
      && next == if ok then q[id := q[id].(leaseExpiresAt := Some(now + lease))] else q
  {
  }

  // ----- The table as the service updates it -----

  class JobQueue {
    var jobs: Queue

    constructor ()
      ensures jobs == map[]
    {
      jobs := map[];
    }

    method OldestOf(rows: set<JobId>) returns (oldest: JobId)
      requires rows != {} && rows <= jobs.Keys
      ensures oldest in rows && forall r :: r in rows ==> jobs[oldest].createdAt <= jobs[r].createdAt
    {
      oldest := Pick(rows);
      var done: set<JobId> := {oldest};
      while done != rows
        invariant oldest in done && done <= rows
        invariant forall r :: r in done ==> jobs[oldest].createdAt <= jobs[r].createdAt
        decreases rows - done
      {
        SomeRemain(rows, done);
        var r := Pick(rows - done);
        if jobs[r].createdAt < jobs[oldest].createdAt {
          oldest := r;
        }
        done := done + {r};
      }
    }

    /** The oldest rows, up to a limit. */
    method SelectOldest(rows: set<JobId>, limit: nat) returns (chosen: set<JobId>)
      requires rows <= jobs.Keys
      ensures Oldest(jobs, rows, limit, chosen)
    {
      chosen := {};
      while chosen != rows && |chosen| < limit
        invariant chosen <= rows && |chosen| <= limit && |chosen| <= |rows|
        invariant forall c, r :: c in chosen && r in rows && r !in chosen ==> jobs[c].createdAt <= jobs[r].createdAt
        decreases rows - chosen
      {
        SomeRemain(rows, chosen);
        var id := OldestOf(rows - chosen);
        Grows(chosen, rows, id);
        chosen := chosen + {id};
      }
      SubsetSize(chosen, rows);
    }

    static lemma Grows(chosen: set<JobId>, rows: set<JobId>, id: JobId)
      requires chosen <= rows && id in rows && id !in chosen
      ensures |chosen + {id}| == |chosen| + 1 && |chosen| + 1 <= |rows|
    {
      SubsetSize(chosen + {id}, rows);
    }

    method ClaimJobs(c: Claim, unlocked: set<JobId>, served: set<JobId>) returns (taken: set<JobId>)
      modifies this
      ensures Claims(old(jobs), c, unlocked, served, jobs, taken)
    {
      var exhausted := SelectOldest(ExhaustedIn(jobs, unlocked, c), Max(c.limit, 1));
      taken := SelectOldest(ClaimableIn(jobs, unlocked, c) * served, c.limit);
      var swept := SweepExhausted(jobs, exhausted);
      var leased := LeaseAll(swept, taken, c.worker, c.now + c.lease);
      ClaimedBySteps(jobs, c, unlocked, exhausted, taken, swept, leased);
      jobs := leased;
    }

    static lemma ClaimedBySteps(
      q: Queue, c: Claim, unlocked: set<JobId>, exhausted: set<JobId>, taken: set<JobId>, swept: Queue, leased: Queue)
      requires exhausted <= ExhaustedIn(q, unlocked, c) && taken <= ClaimableIn(q, unlocked, c)
      requires swept.Keys == q.Keys && leased.Keys == q.Keys
      requires forall id :: id in q ==> swept[id] == if id in exhausted then Released(q[id], Quarantined) else q[id]
      requires forall id :: id in q ==> leased[id] == if id in taken then Leased(swept[id], c.worker, c.now + c.lease)
              else swept[id]
      ensures leased == Claimed(q, exhausted, taken, c.worker, c.now + c.lease)
    {
      var claimed := Claimed(q, exhausted, taken, c.worker, c.now + c.lease);
      forall id | id in q
        ensures id in claimed && leased[id] == claimed[id]
      {
        assert id in exhausted ==> id in ExhaustedIn(q, unlocked, c);
        assert id in taken ==> id in ClaimableIn(q, unlocked, c);
      }
      SetsEqual(leased.Keys, claimed.Keys);
      MapsEqual(leased, claimed);
    }

    static method SweepExhausted(q: Queue, rows: set<JobId>) returns (next: Queue)
      requires rows <= q.Keys
      ensures next.Keys == q.Keys
      ensures forall id :: id in q ==> next[id] == if id in rows then Released(q[id], Quarantined) else q[id]
    {
      next := q;
      var visit := rows;
      while visit != {}
        invariant visit <= rows && next.Keys == q.Keys
        invariant forall id :: id in q ==> next[id] == if id in rows - visit then Released(q[id], Quarantined)
                  else q[id]
        decreases visit
      {
        var id := Pick(visit);
        next := next[id := Released(next[id], Quarantined)];
        visit := visit - {id};
      }
    }

    static method LeaseAll(q: Queue, rows: set<JobId>, worker: WorkerId, until: Time) returns (next: Queue)
      requires rows <= q.Keys
      ensures next.Keys == q.Keys
      ensures forall id :: id in q ==> next[id] == if id in rows then Leased(q[id], worker, until) else q[id]
    {
      next := q;
      var visit := rows;
      while visit != {}
        invariant visit <= rows && next.Keys == q.Keys
        invariant forall id :: id in q ==> next[id] == if id in rows - visit then Leased(q[id], worker, until)
                  else q[id]
        decreases visit
      {
        var id := Pick(visit);
        next := next[id := Leased(next[id], worker, until)];
        visit := visit - {id};
      }
    }

    method RenewLease(id: JobId, worker: WorkerId, lease: nat, now: Time) returns (ok: bool)
      modifies this
      ensures (jobs, ok) == Renew(old(jobs), id, worker, lease, now)
    {
      if id !in jobs || jobs[id].status != Processing || jobs[id].lockedBy != Some(worker) {
        return false;
      }
      if jobs[id].leaseExpiresAt.None? || jobs[id].leaseExpiresAt.value <= now {
        return false;
      }
      jobs := jobs[id := jobs[id].(leaseExpiresAt := Some(now + lease))];
      return true;
    }

    method MarkCompleted(id: JobId, worker: WorkerId) returns (ok: bool)
      modifies this
      ensures (jobs, ok) == Complete(old(jobs), id, worker)
    {
      if id !in jobs || jobs[id].status != Processing || jobs[id].lockedBy != Some(worker) {
        return false;
      }
      jobs := jobs[id := jobs[id].(status := Completed, lockedBy := None, leaseExpiresAt := None)];
      return true;
    }

    method MarkFailed(id: JobId, worker: WorkerId, maxAttempts: nat, now: Time) returns (ok: bool)
      modifies this
      ensures (jobs, ok) == Fail(old(jobs), id, worker, maxAttempts, now)
    {
      if id !in jobs || jobs[id].status != Processing || jobs[id].lockedBy != Some(worker) {
        return false;
      }
      var job := jobs[id];
      job := job.(lockedBy := None);
      job := job.(leaseExpiresAt := None);
      if job.attempts >= maxAttempts {
        job := job.(status := Quarantined);
      } else {
        job := job.(status := Pending);
        job := job.(availableAt := now + RetryDelay(job.attempts));
      }
      jobs := jobs[id := job];
      return true;
    }
  }
}
