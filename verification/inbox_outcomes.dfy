/**
 What finalizing, quarantining, failing and replaying an event do to ledger, queue, links
 and batches, and what an accepted batch is linked to, said row by row.
 */
module InboxOutcomes {
  import opened Basics
  import opened Observations
  import opened Inboxes
  import opened InboxInvariants

  type Links = map<LinkKey, Outcome>

  predicate Carries(links: Links, b: BatchId, e: EventId) { LinkKey(b, e) in links }

  /** The events of a batch that ended in this way. */
  function Ended(links: Links, b: BatchId, status: EventStatus): set<LinkKey> {
    set k | k in links && k.batch == b && links[k].status == status
  }

  /** What a batch row says of so many processed and rejected events. */
  predicate Says(row: BatchRow, row': BatchRow, processed: nat, rejected: nat) {
    && row'.accepted == row.accepted && row'.processed == processed && row'.rejected == rejected
    && (if processed + rejected == row.accepted then
          row'.completed && row'.status == (if rejected == 0 then Completed else CompletedWithErrors)
        else
          row'.completed == row.completed
              && row'.status == (if processed + rejected == 0 then row.status else Processing))
  }

  /** Every link of the event says what its ledger row says; other links stay. */
  ghost predicate LinksSay(links: Links, links': Links, e: EventId, o: Outcome) {
    && links'.Keys == links.Keys
    && forall k :: k in links ==> links'[k] == if k.event == e then o else links[k]
  }

  /** The event ends with this outcome everywhere, and exactly the batches that carry it are recounted. */
  ghost predicate EndsWith(inbox: Inbox, next: Inbox, e: EventId, o: Outcome)
    requires e in inbox.ledger
  {
    && next.ledger == inbox.ledger[e := LedgerRow(inbox.ledger[e].event, o)]
    && LinksSay(inbox.links, next.links, e, o)
    && next.batches.Keys == inbox.batches.Keys
    && (forall b :: b in inbox.batches ==>
          if Carries(inbox.links, b, e) then
            Says(inbox.batches[b], next.batches[b], |Ended(next.links, b, EventProcessed)|,
                 |Ended(next.links, b, EventRejected)|)
          else next.batches[b] == inbox.batches[b])
    && next.nextSequence == inbox.nextSequence
  }

  lemma CarriersAreBatches(links: Links, e: EventId, b: BatchId)
    ensures b in BatchesOf(links, e) <==> Carries(links, b, e)
  {
  }

  // ----- Finalizing -----

  /** An event ends once; one that has no ledger row, or a batch without a row, makes the transaction fail. */
  lemma FinalizeOutcome(inbox: Inbox, e: EventId, o: Outcome)
    ensures
      var r := Finalize(inbox, e, o);
      if e !in inbox.ledger then r == Err(LedgerMissing)
      else if inbox.ledger[e].outcome.status != EventPending then r == Ok(inbox)
      else if exists b :: Carries(inbox.links, b, e) && b !in inbox.batches then r == Err(BatchMissing)
      else
        r.Ok? && EndsWith(inbox, r.value, e, o) && r.value.queue == inbox.queue
            && r.value.quarantines == inbox.quarantines
  {
    forall b
      ensures b in BatchesOf(inbox.links, e) <==> Carries(inbox.links, b, e)
    {
      CarriersAreBatches(inbox.links, e, b);
    }
    if e in inbox.ledger && BatchesOf(inbox.links, e) <= inbox.batches.Keys {
      var links := LinksSet(inbox.links, e, o);
      forall b
        ensures Ended(links, b, EventProcessed) == LinksWith(links, b, EventProcessed)
        ensures Ended(links, b, EventRejected) == LinksWith(links, b, EventRejected)
      {
      }
    }
  }

  /** The reason that an event was first quarantined for is kept. */
  predicate FirstReason(inbox: Inbox, next: Inbox, e: EventId, batch: BatchId, reason: Reason) {
    next.quarantines == if e in inbox.quarantines then inbox.quarantines
        else inbox.quarantines[e := QuarantineRow(batch, reason)]
  }

  lemma QuarantineOutcome(inbox: Inbox, e: EventId, batch: BatchId, reason: Reason)
    requires InboxOk(inbox) && Takeable(inbox, e)
    ensures
      var r := Quarantine(inbox, e, batch, reason);
      && e in inbox.ledger && r.Ok?
      && EndsWith(inbox, r.value, e, Outcome(EventRejected, Some(QuarantinedEvent), Some(reason)))
      && FirstReason(inbox, r.value, e, batch, reason) && r.value.queue == inbox.queue
  {
    assert EventOk(inbox, e);
    KnownBatches(inbox, e);
    var kept := WithQuarantine(inbox, e, batch, reason);
    FinalizeOutcome(kept, e, RejectedFor(reason));
    assert forall b :: Carries(inbox.links, b, e) ==> b in BatchesOf(inbox.links, e);
  }

  // ----- A failed attempt -----

  /** A failure counts; the last allowed one rejects the event and takes its row off the queue. */
  lemma FailOutcome(inbox: Inbox, e: EventId, maxAttempts: nat)
    requires InboxOk(inbox) && Takeable(inbox, e)
    ensures
      var r := FailAttempt(inbox, e, maxAttempts);
      var row := inbox.queue[e];
      && e in inbox.ledger && r.Ok? && e in r.value.queue
      && r.value.queue == inbox.queue[e := QueueRow(
           row.payload, row.sequence, maxAttempts <= row.attempts + 1, row.attempts + 1)]
      && (if row.attempts + 1 < maxAttempts then
            r.value == inbox.(queue := r.value.queue)
          else
            && EndsWith(inbox, r.value, e, Outcome(EventRejected, Some(QuarantinedEvent), Some(AttemptsExhausted)))
            && FirstReason(inbox, r.value, e, row.payload.batch, AttemptsExhausted))
  {
    assert EventOk(inbox, e);
    QuarantineOutcome(inbox, e, inbox.queue[e].payload.batch, AttemptsExhausted);
  }

  // ----- Operator replay -----

  /** The batch is open again, with what its links still count. */
  predicate OpenAgain(row: BatchRow, row': BatchRow, processed: nat, rejected: nat) {
    && row'.accepted == row.accepted && row'.processed == processed && row'.rejected == rejected
    && row'.status == Processing && !row'.completed
  }

  /** The event waits again, told apart as a replay of its quarantine; its read is the one accepted first. */
  ghost predicate Requeued(inbox: Inbox, next: Inbox, e: EventId)
    requires e in inbox.ledger && e in inbox.queue && e in inbox.quarantines
  {
    var o := Outcome(EventPending, Some(ReplayQueued), None);
    && next.ledger == inbox.ledger[e := LedgerRow(inbox.ledger[e].event, o)]
    && LinksSay(inbox.links, next.links, e, o)
    && next.queue == inbox.queue[e := QueueRow(
         inbox.ledger[e].event.(batch := inbox.quarantines[e].batch, replayedFrom := Some(e)),
         inbox.queue[e].sequence, false, 0)]
    && next.batches.Keys == inbox.batches.Keys
    && (forall b :: b in inbox.batches ==>
          if Carries(inbox.links, b, e) then
            OpenAgain(inbox.batches[b], next.batches[b], |Ended(next.links, b, EventProcessed)|,
                      |Ended(next.links, b, EventRejected)|)
          else next.batches[b] == inbox.batches[b])
    && next.quarantines == inbox.quarantines && next.nextSequence == inbox.nextSequence
  }

  /** Only a rejected event is queued again; each refusal has its guard, and anything else changes nothing. */
  lemma ReplayOutcome(inbox: Inbox, e: EventId)
    ensures
      var r := QueueReplay(inbox, e);
      if e !in inbox.quarantines then r == Err(QuarantineNotFound)
      else if e !in inbox.ledger || e !in inbox.queue then r == Err(LedgerIncomplete)
      else
        match inbox.ledger[e].outcome.status
        case EventProcessed => r == Ok((inbox, false))
        case EventPending => r == if inbox.queue[e].published then Err(StateInconsistent) else Ok((inbox, false))
        case EventRejected =>
          if forall b :: !Carries(inbox.links, b, e) then r == Err(LinkMissing)
          else if exists b :: Carries(inbox.links, b, e) && b !in inbox.batches then r == Err(ReplayBatchMissing)
          else r.Ok? && r.value.1 && Requeued(inbox, r.value.0, e)
  {
    forall b
      ensures b in BatchesOf(inbox.links, e) <==> Carries(inbox.links, b, e)
    {
      CarriersAreBatches(inbox.links, e, b);
    }
    var links := LinksSet(inbox.links, e, REQUEUED);
    forall b
      ensures Ended(links, b, EventProcessed) == LinksWith(links, b, EventProcessed)
      ensures Ended(links, b, EventRejected) == LinksWith(links, b, EventRejected)
    {
    }
  }

  // ----- What an accepted batch is linked to -----

  /** One link for each read of the request, with the outcome its event has by then; other links stay. */
  ghost predicate LinkedTo(inbox: Inbox, next: Inbox, inputs: seq<ObservationInput>, b: BatchId) {
    && (forall o :: o in inputs ==>
          && Carries(next.links, b, o.eventId) && o.eventId in next.ledger
          && next.links[LinkKey(b, o.eventId)] == next.ledger[o.eventId].outcome)
    && (forall k :: k in next.links && k.batch == b ==> exists o :: o in inputs && o.eventId == k.event)
    && (forall k: LinkKey :: k.batch != b ==>
          && (k in next.links <==> k in inbox.links)
          && (k in inbox.links ==> next.links[k] == inbox.links[k]))
  }

  lemma EventLinks(inbox: Inbox, b: BatchId, events: seq<Observation>, inputs: seq<ObservationInput>)
    requires InboxOk(inbox) && b !in inbox.batches && AcceptEvents(inbox, b, events).Ok?
    requires |events| == |inputs| && forall i :: 0 <= i < |events| ==> events[i].eventId == inputs[i].eventId
    ensures LinkedTo(inbox, AcceptEvents(inbox, b, events).value, inputs, b)
  {
    var next := AcceptEvents(inbox, b, events).value;
    LedgerWithKeys(inbox.ledger, events);
    LinksWithBatchKeys(inbox.links, next.ledger, b, events);
    NoLinksYet(inbox, b);
    LinksOfNewBatch(inbox.links, next.ledger, b, events);
    forall o | o in inputs
      ensures Carries(next.links, b, o.eventId)
    {
      var i :| 0 <= i < |inputs| && inputs[i] == o;
      assert events[i].eventId == o.eventId;
    }
    forall k | k in next.links && k.batch == b
      ensures exists o :: o in inputs && o.eventId == k.event
    {
      var i :| 0 <= i < |events| && events[i].eventId == k.event;
      assert inputs[i] in inputs;
    }
  }

  lemma EventCounts(inbox: Inbox, b: BatchId, events: seq<Observation>)
    requires InboxOk(inbox) && b !in inbox.batches && DistinctEvents(events) && AcceptEvents(inbox, b, events).Ok?
    ensures
      var next := AcceptEvents(inbox, b, events).value;
      && b in next.batches && next.batches == inbox.batches[b := next.batches[b]]
      && Says(BatchRow(|events|, 0, 0, Accepted, false), next.batches[b], |Ended(next.links, b, EventProcessed)|,
              |Ended(next.links, b, EventRejected)|)
  {
    var next := AcceptEvents(inbox, b, events).value;
    LedgerWithKeys(inbox.ledger, events);
    NoLinksYet(inbox, b);
    LinksOfNewBatchWith(inbox.links, next.ledger, b, events, EventProcessed);
    LinksOfNewBatchWith(inbox.links, next.ledger, b, events, EventRejected);
    assert Ended(next.links, b, EventProcessed) == LinksWith(next.links, b, EventProcessed);
    assert Ended(next.links, b, EventRejected) == LinksWith(next.links, b, EventRejected);
  }

  /** An accepted batch is linked to each of its reads, known ones included, and counts those that have ended. */
  lemma AcceptedLinks(
    inbox: Inbox, token: DeviceId, q: BatchRequest, assignments: seq<Assignment>, b: BatchId, receivedAt: Time)
    requires InboxOk(inbox) && ValidRequest(inbox, q, b)
    requires AcceptBatch(inbox, token, q, assignments, b, receivedAt).Ok?
    ensures
      var next := AcceptBatch(inbox, token, q, assignments, b, receivedAt).value;
      && LinkedTo(inbox, next, q.observations, b)
      && b in next.batches && next.batches == inbox.batches[b := next.batches[b]]
      && Says(BatchRow(|q.observations|, 0, 0, Accepted, false), next.batches[b],
              |Ended(next.links, b, EventProcessed)|, |Ended(next.links, b, EventRejected)|)
      && next.quarantines == inbox.quarantines
  {
    BuiltEventsDistinct(q, assignments, b, receivedAt);
    var events := BuildEvents(q, q.observations, assignments, b, receivedAt).value;
    EventLinks(inbox, b, events, q.observations);
    EventCounts(inbox, b, events);
  }
}
