/**
 The worker process: one loop over the selected queue rows, one transaction per row. The
 stores stand for the database and are rolled back by an exception; the evidence object is
 process memory and is restored from a checkpoint.
 */
module EventWorkerProcesses {
  import opened Basics
  import opened Observations
  import opened RecentObservations
  import opened StableZones
  import opened Bindings
  import opened Inboxes
  import opened InboxStores
  import opened Inventories
  import opened InventoryStores
  import opened EventWorkers

  class EventWorker {
    const inbox: InboxStore
    const inventory: InventoryStore
    const recent: RecentObservationState
    const settings: Settings

    constructor (inbox: InboxStore, inventory: InventoryStore, recent: RecentObservationState, settings: Settings)
      ensures this.inbox == inbox && this.inventory == inventory && this.recent == recent && this.settings == settings
    {
      this.inbox, this.inventory, this.recent, this.settings := inbox, inventory, recent, settings;
    }

    function View(): State
      reads this, inbox, inventory, recent
    {
      State(inbox.View(), inventory.View(), recent.View())
    }

    function Configured(): Config {
      Config(settings, recent.limits)
    }

    /** The latest event time among the processed ledger rows of an item. */
    method ProcessedObservationWatermark(epc: Epc) returns (w: Option<Time>)
      ensures w == ProcessedWatermark(inbox.ledger, epc)
    {
      w := None;
      var ledger := inbox.ledger;
      var done: map<EventId, LedgerRow> := map[];
      while done.Keys != ledger.Keys
        invariant done.Keys <= ledger.Keys
        invariant forall id :: id in done ==> done[id] == ledger[id]
        invariant IsNewest(done, epc, w)
        decreases ledger.Keys - done.Keys
      {
        SomeRemain(ledger.Keys, done.Keys);
        var id := Pick(ledger.Keys - done.Keys);
        NewestOneMore(done, epc, w, id, ledger[id]);
        if CountsFor(ledger[id], epc) && Newer(ledger[id].event.observedAt, w) {
          w := Some(ledger[id].event.observedAt);
        }
        done := done[id := ledger[id]];
      }
      assert forall id :: id in done ==> id in ledger && done[id] == ledger[id];
      MapsEqual(done, ledger);
      NewestIsUnique(ledger, epc, w, ProcessedWatermark(ledger, epc));
    }

    /** The checks before a read may become evidence, in order. */
    method CheckObservation(event: Observation, env: Environment) returns (v: Verdict)
      ensures v == Admit(inbox.View(), inventory.View(), event, env, settings)
    {
      if event.observedAt > Min(event.receivedAt, env.processorTime) + settings.maxFutureSkew {
        return Refused(ObservedTooFarInFuture);
      }
      if env.assignment.Err? {
        return Refused(AssignmentFailed(env.assignment.error));
      }
      var bound := BindingFor(inbox.View(), event, env);
      if bound.None? {
        return Refused(UnknownEpc);
      }
      var (sku, notBefore) := bound.value;
      var processed := ProcessedObservationWatermark(event.epc);
      if Before(event.observedAt, Watermark(inventory.View(), event.epc, processed)) {
        return Settled(Late);
      }
      if Removed(inventory.View(), event.epc) {
        return Settled(RemovedItemObserved);
      }
      return Admitted(env.assignment.value, sku, notBefore);
    }

    /** Use an admitted read: extend the evidence, judge it, and move the item if it settles elsewhere. */
    method UseObservation(event: Observation, location: Location, sku: SkuId, notBefore: Option<Time>)
      returns (d: Disposition)
      requires ValidSettings(settings)
      modifies inventory, recent
      ensures
        var (added, window) :=
          Add(old(recent.View()), ResolvedEvent(event, location), settings.confirmationWindow, notBefore,
              recent.limits);
        var reading := ReadingOf(old(inbox.View()), event, sku, window, settings);
        && recent.View() == added
        && (inventory.View(), d) == Conclude(old(inventory.View()), reading, settings.lastSeenFlush)
    {
      var processed := ProcessedObservationWatermark(event.epc);
      var window := recent.AddObservation(ResolvedEvent(event, location), settings.confirmationWindow, notBefore);
      var decision := InferStableZone(window, settings);
      var reading := Reading(event.epc, event.observedAt, event.receivedAt, processed, sku, decision,
          LocationsIn(window));
      d := inventory.ConcludeObservation(reading, settings.lastSeenFlush);
    }

    /** Apply one observation. */
    method ProcessObservation(event: Observation, env: Environment) returns (r: Result<Disposition, WorkError>)
      requires ValidSettings(settings)
      modifies inbox, inventory, recent
      ensures
        var (evidence, work) := Process(old(View()), event, env, Configured());
        && recent.View() == evidence
        && match work
           case Ok((nextInbox, nextInventory, d)) => r == Ok(d) && inbox.View() == nextInbox
               && inventory.View() == nextInventory
           case Err(e) => r == Err(e)
    {
      if event.replayedFrom.Some? {
        recent.ForgetEvent(event);
      }
      var isNew := recent.RememberEvent(event);
      if !isNew {
        r := Finish(event, Duplicate);
        return;
      }
      var verdict := CheckObservation(event, env);
      match verdict {
        case Refused(reason) => r := Refuse(event, reason);
        case Settled(d) => r := Finish(event, d);
        case Admitted(location, sku, notBefore) =>
          var d := UseObservation(event, location, sku, notBefore);
          r := Finish(event, d);
      }
    }

    method Finish(event: Observation, d: Disposition) returns (r: Result<Disposition, WorkError>)
      modifies inbox
      ensures
        match Finalize(old(inbox.View()), event.eventId, ProcessedAs(d))
        case Ok(next) => r == Ok(d) && inbox.View() == next
        case Err(e) => r == Err(Finalizing(e))
    {
      var error := inbox.AdvanceBatch(event.eventId, ProcessedAs(d));
      return if error.Some? then Err(Finalizing(error.value)) else Ok(d);
    }

    method Refuse(event: Observation, reason: Reason) returns (r: Result<Disposition, WorkError>)
      modifies inbox
      ensures
        match Quarantine(old(inbox.View()), event.eventId, event.batch, reason)
        case Ok(next) => r == Ok(QuarantinedEvent) && inbox.View() == next
        case Err(e) => r == Err(Finalizing(e))
    {
      var error := inbox.QuarantineObservation(event.eventId, event.batch, reason);
      return if error.Some? then Err(Finalizing(error.value)) else Ok(QuarantinedEvent);
    }

    /** What an attempt did to process memory before it failed. */
    method PlayOps(event: Observation, ops: seq<EvidenceOp>)
      modifies recent
      ensures recent.View() == RunOps(old(recent.View()), event, ops, recent.limits)
    {
      assert ops[0..] == ops;
      for i := 0 to |ops|
        invariant RunOps(old(recent.View()), event, ops, recent.limits) ==
                  RunOps(recent.View(), event, ops[i..], recent.limits)
      {
        assert ops[i..][1..] == ops[i + 1..];
        match ops[i] {
          case ForgetOp => recent.ForgetEvent(event);
          case RememberOp => var isNew := recent.RememberEvent(event);
          case AddOp(o, seconds, notBefore) =>
            var window := recent.AddObservation(o.(epc := event.epc), seconds, notBefore);
        }
      }
    }

    /** Take one row: commit, or roll back, restore the evidence and count the failure. */
    method TakeOne(id: EventId, env: Environment) returns (attempt: Attempt)
      requires ValidSettings(settings)
      modifies inbox, inventory, recent
      ensures (View(), attempt) == TakeRow(old(View()), id, env, Configured())
    {
      if !Takeable(inbox.View(), id) {
        return Skipped;
      }
      var event := inbox.queue[id].payload;
      var checkpoint := recent.CheckpointFor(event);
      var savedInbox, savedInventory := inbox.View(), inventory.View();
      var failed := false;
      if env.fault.Some? {
        PlayOps(event, env.fault.value);
        failed := true;
      } else if event.eventId !in inbox.ledger {
        failed := true;
      } else if inbox.ledger[event.eventId].outcome.status == EventPending {
        var r := ProcessObservation(event, env);
        failed := r.Err?;
      }
      if !failed {
        inbox.Publish(id);
        return Committed;
      }
      inbox.Rollback(savedInbox);
      inventory.Rollback(savedInventory);
      recent.Restore(checkpoint);
      var error := inbox.RecordFailure(id, settings.maxAttempts);
      if error.None? && savedInbox.queue[id].attempts + 1 >= settings.maxAttempts {
        return Terminalized;
      }
      return Stopped;
    }

    /** Take the i-th selected row: what remains of the pass is the rest of the rows. */
    method TakeNext(ids: seq<EventId>, envs: seq<Environment>, i: nat) returns (attempt: Attempt)
      requires ValidSettings(settings) && |envs| == |ids| && i < |ids|
      modifies inbox, inventory, recent
      ensures
        old(DrainFrom(View(), ids, envs, Configured(), i)) ==
        if attempt == Stopped then (View(), 0, true)
        else Counted(if attempt == Skipped then 0 else 1, DrainFrom(View(), ids, envs, Configured(), i + 1))
    {
      DrainStep(View(), ids, envs, Configured(), i);
      attempt := TakeOne(ids[i], envs[i]);
    }

    /** One pass over selected rows; a failure that is not terminal ends it. */
    method DrainRaw(ids: seq<EventId>, envs: seq<Environment>) returns (count: nat, stopped: bool)
      requires ValidSettings(settings) && |envs| == |ids|
      modifies inbox, inventory, recent
      ensures (View(), count, stopped) == old(DrainFrom(View(), ids, envs, Configured(), 0))
    {
      count := 0;
      for i := 0 to |ids|
        invariant old(DrainFrom(View(), ids, envs, Configured(), 0)) ==
                  Counted(count, DrainFrom(View(), ids, envs, Configured(), i))
      {
        var attempt := TakeNext(ids, envs, i);
        if attempt == Stopped {
          return count, true;
        }
        if attempt != Skipped {
          count := count + 1;
        }
      }
      DrainEnds(View(), ids, envs, Configured());
      return count, false;
    }
  }

  lemma NewestOneMore(ledger: map<EventId, LedgerRow>, epc: Epc, w: Option<Time>, id: EventId, row: LedgerRow)
    requires id !in ledger && IsNewest(ledger, epc, w)
    ensures IsNewest(
              ledger[id := row], epc,
              if CountsFor(row, epc) && Newer(row.event.observedAt, w) then Some(row.event.observedAt) else w)
  {
    var next := ledger[id := row];
    assert next[id] == row;
    if w.Some? {
      var j :| j in ledger && CountsFor(ledger[j], epc) && ledger[j].event.observedAt == w.value;
      assert next[j] == ledger[j];
    }
  }
}
