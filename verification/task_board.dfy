/** The replenishment tables as evaluation, patching and attribution update them row by row. */
module TaskBoards {
  import opened Basics
  import opened Observations
  import opened Tasks

  class TaskBoard {
    var tasks: map<TaskId, Task>
    var evidence: map<MoveId, TaskId>
    var nextId: TaskId

    constructor ()
      ensures View() == EMPTY
    {
      tasks, evidence, nextId := map[], map[], 0;
    }

    function View(): Board
      reads this
    {
      Board(tasks, evidence, nextId)
    }

    /** The active task of a store for a SKU, found by looking through the rows. */
    method FindActive(store: StoreId, sku: SkuId) returns (found: Option<TaskId>)
      requires BoardOk(View())
      ensures found == if HasActive(View(), store, sku) then Some(ActiveTask(View(), store, sku)) else None
    {
      var done: set<TaskId> := {};
      while done != tasks.Keys
        invariant done <= tasks.Keys
        invariant forall id :: id in done ==> !ActiveFor(View(), id, store, sku)
        decreases tasks.Keys - done
      {
        SomeRemain(tasks.Keys, done);
        var id := Pick(tasks.Keys - done);
        if tasks[id].store == store && tasks[id].sku == sku && IsActive(tasks[id]) {
          assert ActiveFor(View(), id, store, sku);
          return Some(id);
        }
        done := done + {id};
      }
      return None;
    }

    /** One SKU: nothing, an enlarged open task, a deferred shortage or a new task. */
    method EvaluateOne(store: StoreId, s: Snapshot, before: Report) returns (report: Report)
      requires BoardOk(View())
      modifies this
      ensures View() == EvaluateSku(old(View()), store, s)
      ensures report == Reported(before, old(View()), store, s)
    {
      if !s.confident {
        return before.(suppressedLowConfidence := before.suppressedLowConfidence + 1);
      }
      if s.rule.None? {
        return before;
      }
      var (minFloor, targetFloor) := s.rule.value;
      var active := FindActive(store, s.sku);
      var asked := if active.Some? then tasks[active.value].quantity else 0;
      var quantity := RequiredQuantity(s.floor, s.backroom, asked, minFloor, targetFloor);
      if quantity == 0 {
        return before;
      }
      if active.Some? {
        var task := tasks[active.value];
        if task.status == Open {
          task := task.(quantity := task.quantity + quantity);
          task := task.(version := task.version + 1);
          tasks := tasks[active.value := task];
          return before;
        }
        return before.(deferredCount := before.deferredCount + 1,
            deferredQuantity := before.deferredQuantity + quantity);
      }
      tasks := tasks[nextId := NewTask(store, s.sku, quantity)];
      nextId := nextId + 1;
      return before;
    }

    /** Evaluate a live store, one snapshot after the other; any other store is left alone. */
    method EvaluateStore(store: StoreId, link: Link, snapshots: seq<Snapshot>) returns (report: Report)
      requires BoardOk(View())
      modifies this
      ensures (View(), report) == EvaluateLive(old(View()), store, link, snapshots) && BoardOk(View())
    {
      report := NOTHING_HELD_BACK;
      if !IsLive(link) {
        return report.(suppressedConnectivity := true);
      }
      for i := 0 to |snapshots|
        invariant View() == Evaluate(old(View()), store, snapshots[..i]) && BoardOk(View())
        invariant report == ReportOf(old(View()), store, snapshots[..i])
      {
        assert snapshots[..i + 1][..i] == snapshots[..i];
        EvaluateSkuKeeps(View(), store, snapshots[i]);
        report := EvaluateOne(store, snapshots[i], report);
      }
      assert snapshots[..|snapshots|] == snapshots;
    }

    method Patch(id: TaskId, q: PatchRequest) returns (error: Option<PatchError>)
      modifies this
      ensures
        match PatchTask(old(View()), id, q)
        case Ok(next) => error.None? && View() == next
        case Err(e) => error == Some(e) && View() == old(View())
    {
      if id !in tasks {
        return Some(TaskNotFound);
      }
      var task := tasks[id];
      if q.status == Canceled || q.status == Expired {
        if !q.manager {
          return Some(TransitionForbidden);
        }
        if !IsActive(task) {
          return Some(InvalidTransition);
        }
      } else if !Follows(task.status, q.status) {
        return Some(InvalidTransition);
      }
      if (task.status == Claimed || task.status == InProgress) && task.claimedBy != Some(q.user) && !q.manager {
        return Some(ClaimDenied);
      }
      if task.version != q.version {
        return Some(VersionConflict);
      }
      task := task.(status := q.status);
      task := task.(version := q.version + 1);
      if q.status == Claimed {
        task := task.(claimedBy := Some(q.user));
      } else if q.status == InProgress {
        task := task.(startedAt := Some(q.now));
      } else if q.status == Completed {
        task := task.(deadline := Some(q.now + q.window));
      }
      tasks := tasks[id := task];
      return None;
    }

    /** The best eligible task of the rows visited so far. */
    ghost predicate BestOf(done: set<TaskId>, best: Option<TaskId>, m: Move)
      reads this
    {
      && done <= tasks.Keys
      && (best.None? ==> forall id :: id in done ==> !Eligible(tasks[id], m))
      && (best.Some? ==> best.value in done && Eligible(tasks[best.value], m)
                         && forall j :: j in done && Eligible(tasks[j], m) ==>
                            Preferred(tasks[best.value], best.value, tasks[j], j))
    }

    method FindEligible(m: Move) returns (best: Option<TaskId>)
      ensures best.None? ==> NoneEligible(View(), m)
      ensures best.Some? ==> Chosen(View(), m, best.value)
    {
      best := None;
      var done: set<TaskId> := {};
      while done != tasks.Keys
        invariant BestOf(done, best, m)
        decreases tasks.Keys - done
      {
        SomeRemain(tasks.Keys, done);
        var id := Pick(tasks.Keys - done);
        if Eligible(tasks[id], m) && (best.None? || Preferred(tasks[id], id, tasks[best.value], best.value)) {
          best := Some(id);
        }
        done := done + {id};
      }
    }

    /** Credit a move from the backroom to the floor to the best eligible task, if it is not evidence yet. */
    method AttributeMove(zones: map<ZoneId, Zone>, m: Move)
      modifies this
      ensures View() == Attributed(zones, old(View()), m)
    {
      if m.from !in zones || zones[m.from].store != m.store || zones[m.from].kind != Backroom {
        return;
      }
      if m.to !in zones || zones[m.to].store != m.store || zones[m.to].kind != SalesFloor {
        return;
      }
      if m.id in evidence {
        return;
      }
      var best := FindEligible(m);
      if best.Some? {
        var task := tasks[best.value];
        evidence := evidence[m.id := best.value];
        task := task.(verified := Min(task.quantity, task.verified + 1));
        task := task.(version := task.version + 1);
        tasks := tasks[best.value := task];
      }
    }
  }
}
