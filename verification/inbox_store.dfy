/**
 The imperative side of the durable inbox: rows are visited one by one in loops. Work done
 before a commit is kept in local variables, so an error leaves the tables as they were.
 */
module InboxStores {
  import opened Basics
  import opened Observations
  import opened Inboxes

  /** Count the links of a batch that have a status. */
  method CountLinks(links: map<LinkKey, Outcome>, batch: BatchId, status: EventStatus) returns (n: nat)
    ensures n == |LinksWith(links, batch, status)|
  {
    n := 0;
    var done: set<LinkKey> := {};
    ghost var counted: set<LinkKey> := {};
    while done != links.Keys
      invariant done <= links.Keys
      invariant counted == LinksWith(links, batch, status) * done
      invariant n == |counted|
      decreases links.Keys - done
    {
      SomeRemain(links.Keys, done);
      var k := Pick(links.Keys - done);
      if k.batch == batch && links[k].status == status {
        n := n + 1;
        counted := counted + {k};
      }
      done := done + {k};
    }
    assert LinksWith(links, batch, status) * links.Keys == LinksWith(links, batch, status);
  }

  lemma LinksSetNext(links: map<LinkKey, Outcome>, event: EventId, outcome: Outcome, done: set<LinkKey>, k: LinkKey)
    requires done <= links.Keys && k in links
    ensures LinksSetIn(links, event, outcome, done + {k}) ==
            if k.event == event then LinksSetIn(links, event, outcome, done)[k := outcome]
                else LinksSetIn(links, event, outcome, done)
  {
  }

  /** The links after the rows in `done` have been visited. */
  ghost function LinksSetIn(
    links: map<LinkKey, Outcome>, event: EventId, outcome: Outcome, done: set<LinkKey>): map<LinkKey, Outcome>
  {
    map k | k in links :: if k in done && k.event == event then outcome else links[k]
  }

  /** Copy an outcome to every link of an event and collect the batches that carried it. */
  method SetLinks(links: map<LinkKey, Outcome>, event: EventId, outcome: Outcome)
    returns (next: map<LinkKey, Outcome>, batchIds: set<BatchId>)
    ensures next == LinksSet(links, event, outcome) && batchIds == BatchesOf(links, event)
  {
    next, batchIds := links, {};
    var done: set<LinkKey> := {};
    MapsEqual(LinksSetIn(links, event, outcome, {}), links);
    while done != links.Keys
      invariant done <= links.Keys
      invariant next == LinksSetIn(links, event, outcome, done)
      invariant batchIds == set k | k in done && k.event == event :: k.batch
      decreases links.Keys - done
    {
      SomeRemain(links.Keys, done);
      var k := Pick(links.Keys - done);
      LinksSetNext(links, event, outcome, done, k);
      if k.event == event {
        next := next[k := outcome];
        batchIds := batchIds + {k.batch};
      }
      done := done + {k};
    }
    assert next.Keys == LinksSet(links, event, outcome).Keys;
    MapsEqual(next, LinksSet(links, event, outcome));
  }

  /** The batch rows after the batches in `done` have been recounted. */
  ghost function RecountedIn(
    rows: map<BatchId, BatchRow>, links: map<LinkKey, Outcome>, done: set<BatchId>): map<BatchId, BatchRow>
  {
    map b | b in rows :: if b in done then Recounted(rows[b], links, b) else rows[b]
  }

  ghost function ReopenedIn(
    rows: map<BatchId, BatchRow>, links: map<LinkKey, Outcome>, done: set<BatchId>): map<BatchId, BatchRow>
  {
    map b | b in rows :: if b in done then Reopened(rows[b], links, b) else rows[b]
  }

  class InboxStore {
    var ledger: map<EventId, LedgerRow>
    var queue: map<EventId, QueueRow>
    var links: map<LinkKey, Outcome>
    var batches: map<BatchId, BatchRow>
    var quarantines: map<EventId, QuarantineRow>
    var nextSequence: nat

    constructor ()
      ensures View() == EMPTY
    {
      ledger, queue, links, batches, quarantines := map[], map[], map[], map[], map[];
      nextSequence := 0;
    }

    function View(): Inbox
      reads this
    {
      Inbox(ledger, queue, links, batches, quarantines, nextSequence)
    }

    /** Finalize one durable event and every request batch that retried it. */
    method AdvanceBatch(event: EventId, outcome: Outcome) returns (error: Option<FinalizeError>)
      modifies this
      ensures
        match Finalize(old(View()), event, outcome)
        case Ok(next) => error.None? && View() == next
        case Err(e) => error == Some(e) && View() == old(View())
      ensures queue == old(queue)
    {
      if event !in ledger {
        return Some(LedgerMissing);
      }
      if ledger[event].outcome.status != EventPending {
        return None;
      }
      var nextLinks, batchIds := SetLinks(links, event, outcome);
      var nextBatches := batches;
      var done: set<BatchId> := {};
      MapsEqual(batches, RecountedIn(batches, nextLinks, {}));
      while done != batchIds
        invariant done <= batchIds && done <= batches.Keys
        invariant nextBatches == RecountedIn(batches, nextLinks, done)
        decreases batchIds - done
        modifies {}
      {
        SomeRemain(batchIds, done);
        var b := Pick(batchIds - done);
        if b !in batches {
          return Some(BatchMissing);
        }
        var row := nextBatches[b];
        var processed := CountLinks(nextLinks, b, EventProcessed);
        row := row.(processed := processed);
        var rejected := CountLinks(nextLinks, b, EventRejected);
        row := row.(rejected := rejected);
        var accounted := row.processed + row.rejected;
        if accounted == row.accepted {
          row := row.(status := if row.rejected > 0 then CompletedWithErrors else Completed);
          row := row.(completed := true);
        } else if accounted > 0 {
          row := row.(status := Processing);
        }
        nextBatches := nextBatches[b := row];
        done := done + {b};
        MapsEqual(nextBatches, RecountedIn(batches, nextLinks, done));
      }
      ledger := ledger[event := ledger[event].(outcome := outcome)];
      links := nextLinks;
      batches := nextBatches;
      return None;
    }

    /** Terminally reject one event, keeping the first reason it was quarantined for. */
    method QuarantineObservation(event: EventId, batch: BatchId, reason: Reason) returns (error: Option<FinalizeError>)
      modifies this
      ensures
        match Quarantine(old(View()), event, batch, reason)
        case Ok(next) => error.None? && View() == next
        case Err(e) => error == Some(e)
      ensures queue == old(queue)
    {
      if event !in quarantines {
        quarantines := quarantines[event := QuarantineRow(batch, reason)];
      }
      error := AdvanceBatch(event, RejectedFor(reason));
    }

    method Publish(event: EventId)
      requires event in queue
      modifies this
      ensures View() == MarkPublished(old(View()), event)
    {
      var row := queue[event];
      row := row.(published := true);
      row := row.(attempts := row.attempts + 1);
      queue := queue[event := row];
    }

    /** Count a failed attempt in its own transaction; the last allowed one quarantines the event. */
    method RecordFailure(event: EventId, maxAttempts: nat) returns (error: Option<FinalizeError>)
      requires event in queue
      modifies this
      ensures
        match FailAttempt(old(View()), event, maxAttempts)
        case Ok(next) => error.None? && View() == next
        case Err(e) => error == Some(e) && View() == old(View())
    {
      var saved := View();
      var row := queue[event];
      row := row.(attempts := row.attempts + 1);
      if row.attempts >= maxAttempts {
        error := QuarantineObservation(event, row.payload.batch, AttemptsExhausted);
        if error.Some? {
          Rollback(saved);
          return;
        }
        row := row.(published := true);
      }
      queue := queue[event := row];
      return None;
    }

    /** Undo everything since the transaction began. */
    method Rollback(saved: Inbox)
      modifies this
      ensures View() == saved
    {
      ledger, queue, links, batches := saved.ledger, saved.queue, saved.links, saved.batches;
      quarantines, nextSequence := saved.quarantines, saved.nextSequence;
    }

    /** Requeue one rejected event; the batches that carried it go back to processing. */
    method QueueQuarantinedReplay(event: EventId) returns (r: Result<bool, ReplayError>)
      modifies this
      ensures
        match QueueReplay(old(View()), event)
        case Ok((next, queued)) => r == Ok(queued) && View() == next
        case Err(e) => r == Err(e) && View() == old(View())
    {
      if event !in quarantines {
        return Err(QuarantineNotFound);
      }
      if event !in ledger || event !in queue {
        return Err(LedgerIncomplete);
      }
      if ledger[event].outcome.status == EventProcessed {
        return Ok(false);
      }
      if ledger[event].outcome.status == EventPending {
        if queue[event].published {
          return Err(StateInconsistent);
        }
        return Ok(false);
      }
      var payload := ReplayPayload(ledger[event], event, quarantines[event]);
      var nextLinks, batchIds := SetLinks(links, event, REQUEUED);
      if batchIds == {} {
        return Err(LinkMissing);
      }
      var nextBatches := batches;
      var done: set<BatchId> := {};
      MapsEqual(batches, ReopenedIn(batches, nextLinks, {}));
      while done != batchIds
        invariant done <= batchIds && done <= batches.Keys
        invariant nextBatches == ReopenedIn(batches, nextLinks, done)
        decreases batchIds - done
        modifies {}
      {
        SomeRemain(batchIds, done);
        var b := Pick(batchIds - done);
        if b !in batches {
          return Err(ReplayBatchMissing);
        }
        var processed := CountLinks(nextLinks, b, EventProcessed);
        var rejected := CountLinks(nextLinks, b, EventRejected);
        nextBatches := nextBatches[b := nextBatches[b].(
          processed := processed, rejected := rejected, status := Processing, completed := false)];
        done := done + {b};
        MapsEqual(nextBatches, ReopenedIn(batches, nextLinks, done));
      }
      ledger := ledger[event := ledger[event].(outcome := REQUEUED)];
      links := nextLinks;
      batches := nextBatches;
      queue := queue[event := queue[event].(payload := payload, published := false, attempts := 0)];
      return Ok(true);
    }

    /** Accept a batch, its event identities, links and queue rows, all or nothing. */
    method AcceptObservationBatch(
      token: DeviceId, q: BatchRequest, assignments: seq<Assignment>, batch: BatchId, receivedAt: Time)
      returns (error: Option<AcceptError>)
      modifies this
      ensures
        match AcceptBatch(old(View()), token, q, assignments, batch, receivedAt)
        case Ok(next) => error.None? && View() == next
        case Err(e) => error == Some(e) && View() == old(View())
    {
      if q.device != token {
        return Some(DeviceTokenMismatch);
      }
      if ResolveAssignment(assignments, receivedAt).None? {
        return Some(AssignmentUnavailable);
      }
      var built := ResolveEvents(q, assignments, batch, receivedAt);
      if built.None? {
        return Some(AssignmentUnavailable);
      }
      var accepted := AcceptResolved(View(), batch, built.value);
      if accepted.Err? {
        return Some(accepted.error);
      }
      ledger, queue, links := accepted.value.ledger, accepted.value.queue, accepted.value.links;
      batches, nextSequence := accepted.value.batches, accepted.value.nextSequence;
      return None;
    }
  }

  /** The rows that accepting resolved events writes. */
  method AcceptResolved(inbox: Inbox, batch: BatchId, events: seq<Observation>) returns (r: Result<Inbox, AcceptError>)
    ensures r == AcceptEvents(inbox, batch, events)
  {
    var ledger := InsertLedger(inbox.ledger, events);
    LedgerWithKeys(inbox.ledger, events);
    var links, conflict := LinkEvents(inbox.links, ledger, batch, events);
    if conflict {
      return Err(EventIdConflict);
    }
    var queue, sequence := Enqueue(inbox.queue, inbox.ledger, events, inbox.nextSequence);
    var row := BatchRow(|events|, 0, 0, Accepted, false);
    var processed := CountLedgers(events, ledger, EventProcessed);
    var rejected := CountLedgers(events, ledger, EventRejected);
    row := row.(processed := processed, rejected := rejected);
    if row.processed + row.rejected == row.accepted {
      row := row.(status := if row.rejected > 0 then CompletedWithErrors else Completed);
      row := row.(completed := true);
    } else if row.processed + row.rejected > 0 {
      row := row.(status := Processing);
    }
    return Ok(Inbox(ledger, queue, links, inbox.batches[batch := row], inbox.quarantines, sequence));
  }

  ghost function Followed(built: seq<Observation>, rest: Option<seq<Observation>>): Option<seq<Observation>> {
    if rest.None? then None else Some(built + rest.value)
  }

  lemma FollowedByOne(built: seq<Observation>, event: Observation, rest: Option<seq<Observation>>)
    ensures rest.Some? ==> Followed(built, Some([event] + rest.value)) == Followed(built + [event], rest)
  {
    if rest.Some? {
      assert built + ([event] + rest.value) == (built + [event]) + rest.value;
    }
  }

  /** Resolve every observation of a request with the assignment effective at its own time. */
  method ResolveEvents(q: BatchRequest, assignments: seq<Assignment>, batch: BatchId, receivedAt: Time)
    returns (events: Option<seq<Observation>>)
    ensures events == BuildEvents(q, q.observations, assignments, batch, receivedAt)
  {
    var built: seq<Observation> := [];
    ghost var all := BuildEvents(q, q.observations, assignments, batch, receivedAt);
    assert q.observations[0..] == q.observations;
    assert Followed([], all) == all by {
      if all.Some? { assert [] + all.value == all.value; }
    }
    for i := 0 to |q.observations|
      invariant all == Followed(built, BuildEvents(q, q.observations[i..], assignments, batch, receivedAt))
    {
      var location := ResolveAssignment(assignments, q.observations[i].observedAt);
      assert q.observations[i..][1..] == q.observations[i + 1..];
      if location.None? {
        return None;
      }
      var event := BuildEvent(q, q.observations[i], location.value, batch, receivedAt);
      FollowedByOne(built, event, BuildEvents(q, q.observations[i + 1..], assignments, batch, receivedAt));
      built := built + [event];
    }
    assert built + [] == built;
    return Some(built);
  }

  /** Insert the events whose id is not taken yet. */
  method InsertLedger(ledger: map<EventId, LedgerRow>, events: seq<Observation>) returns (next: map<EventId, LedgerRow>)
    ensures next == LedgerWith(ledger, events)
  {
    next := ledger;
    for i := 0 to |events|
      invariant next == LedgerWith(ledger, events[..i])
    {
      assert events[..i + 1][..i] == events[..i];
      if events[i].eventId !in next {
        next := next[events[i].eventId := LedgerRow(events[i], UNTOUCHED)];
      }
    }
    assert events[..|events|] == events;
  }

  /** Link a batch to its events, unless one of them contradicts what its id stands for. */
  method LinkEvents(
    links: map<LinkKey, Outcome>, ledger: map<EventId, LedgerRow>, batch: BatchId, events: seq<Observation>)
    returns (next: map<LinkKey, Outcome>, conflict: bool)
    requires forall i :: 0 <= i < |events| ==> events[i].eventId in ledger
    ensures conflict <==> exists i :: 0 <= i < |events| && !SamePayload(ledger[events[i].eventId].event, events[i])
    ensures !conflict ==> next == LinksWithBatch(links, ledger, batch, events)
  {
    next := links;
    for i := 0 to |events|
      invariant forall j :: 0 <= j < i ==> SamePayload(ledger[events[j].eventId].event, events[j])
      invariant next == LinksWithBatch(links, ledger, batch, events[..i])
    {
      assert events[..i + 1][..i] == events[..i];
      var row := ledger[events[i].eventId];
      if !SamePayload(row.event, events[i]) {
        return next, true;
      }
      next := next[LinkKey(batch, events[i].eventId) := row.outcome];
    }
    assert events[..|events|] == events;
    return next, false;
  }

  /** Queue the newly inserted events in request order. */
  method Enqueue(queue: map<EventId, QueueRow>, ledger: map<EventId, LedgerRow>, events: seq<Observation>, first: nat)
    returns (next: map<EventId, QueueRow>, sequence: nat)
    ensures (next, sequence) == QueueWith(queue, ledger, events, first)
  {
    next, sequence := queue, first;
    for i := 0 to |events|
      invariant (next, sequence) == QueueWith(queue, ledger, events[..i], first)
    {
      assert events[..i + 1][..i] == events[..i];
      if events[i].eventId !in ledger {
        next := next[events[i].eventId := QueueRow(events[i], sequence, false, 0)];
        sequence := sequence + 1;
      }
    }
    assert events[..|events|] == events;
  }

  method CountLedgers(events: seq<Observation>, ledger: map<EventId, LedgerRow>, status: EventStatus) returns (n: nat)
    requires forall i :: 0 <= i < |events| ==> events[i].eventId in ledger
    ensures n == CountEvents(events, ledger, status)
  {
    n := 0;
    for i := 0 to |events|
      invariant n == CountEvents(events[..i], ledger, status)
    {
      assert events[..i + 1][..i] == events[..i];
      if ledger[events[i].eventId].outcome.status == status {
        n := n + 1;
      }
    }
    assert events[..|events|] == events;
  }
}
