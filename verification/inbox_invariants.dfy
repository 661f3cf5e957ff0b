/**
 Ledger, queue, links and batches always agree: through acceptance of retried batches,
 finalization, poison quarantine and operator replay.
 */
module InboxInvariants {
  import opened Basics
  import opened Observations
  import opened Inboxes

  // ----- The invariant -----

  /** A ledger row and its queue row describe the same observation; pending means unpublished. */
  ghost predicate EventOk(inbox: Inbox, e: EventId)
    requires e in inbox.ledger && e in inbox.queue
  {
    && (inbox.ledger[e].outcome.status == EventPending <==> !inbox.queue[e].published)
    && inbox.ledger[e].event.eventId == e && inbox.queue[e].payload.eventId == e
    && SamePayload(inbox.queue[e].payload, inbox.ledger[e].event)
    && (inbox.ledger[e].outcome.status == EventRejected ==> e in inbox.quarantines)
    && BatchesOf(inbox.links, e) != {}
  }

  ghost predicate EventsOk(inbox: Inbox) {
    && inbox.ledger.Keys == inbox.queue.Keys
    && forall e {:trigger EventOk(inbox, e)} :: e in inbox.ledger ==> EventOk(inbox, e)
  }

  /** Every link mirrors the outcome of its event. */
  ghost predicate LinkOk(inbox: Inbox, k: LinkKey)
    requires k in inbox.links
  {
    k.batch in inbox.batches && k.event in inbox.ledger && inbox.links[k] == inbox.ledger[k.event].outcome
  }

  ghost predicate LinksMirror(inbox: Inbox) {
    forall k {:trigger LinkOk(inbox, k)} :: k in inbox.links ==> LinkOk(inbox, k)
  }

  predicate IsComplete(s: BatchStatus) { s == Completed || s == CompletedWithErrors }

  /** The counters equal a recount of the links, and the status says what the counters say. */
  ghost predicate BatchOk(links: map<LinkKey, Outcome>, b: BatchId, row: BatchRow) {
    && row.accepted == |LinksOf(links, b)|
    && row.processed == |LinksWith(links, b, EventProcessed)|
    && row.rejected == |LinksWith(links, b, EventRejected)|
    && (IsComplete(row.status) <==> LinksWith(links, b, EventPending) == {})
    && (row.status == CompletedWithErrors <==> LinksWith(links, b, EventPending) == {} && row.rejected > 0)
    && (row.completed <==> IsComplete(row.status))
  }

  ghost predicate BatchesOk(links: map<LinkKey, Outcome>, batches: map<BatchId, BatchRow>) {
    forall b {:trigger BatchOk(links, b, batches[b])} :: b in batches ==> BatchOk(links, b, batches[b])
  }

  ghost predicate InboxOk(inbox: Inbox) {
    EventsOk(inbox) && LinksMirror(inbox) && BatchesOk(inbox.links, inbox.batches)
  }

  // ----- Counting -----

  lemma LinksPartition(links: map<LinkKey, Outcome>, b: BatchId)
    ensures |LinksOf(links, b)| == |LinksWith(links, b, EventPending)| + |LinksWith(links, b, EventProcessed)|
                                   + |LinksWith(links, b, EventRejected)|
  {
    var p, q, r := LinksWith(links, b, EventPending), LinksWith(links, b, EventProcessed),
        LinksWith(links, b, EventRejected);
    assert LinksOf(links, b) == p + q + r;
    assert p * q == {} && (p + q) * r == {};
  }

  /** A batch none of whose links changed keeps its counts. */
  lemma SameLinks(links: map<LinkKey, Outcome>, next: map<LinkKey, Outcome>, b: BatchId)
    requires forall k: LinkKey :: k.batch == b ==> (k in links <==> k in next)
    requires forall k :: k in links && k.batch == b ==> next[k].status == links[k].status
    ensures LinksOf(next, b) == LinksOf(links, b)
    ensures forall s :: LinksWith(next, b, s) == LinksWith(links, b, s)
  {
  }

  lemma EmptyCard<T>(s: set<T>)
    ensures |s| == 0 <==> s == {}
  {
  }

  /** Recounting after the last change leaves a row that says what its links say. */
  lemma RecountedOk(links: map<LinkKey, Outcome>, b: BatchId, row: BatchRow)
    requires row.accepted == |LinksOf(links, b)|
    requires LinksWith(links, b, EventPending) != {} && LinksWith(links, b, EventPending) == LinksOf(links, b) ==>
               !IsComplete(row.status) && !row.completed
    requires LinksWith(links, b, EventPending) != {} ==> !row.completed
    ensures BatchOk(links, b, Recounted(row, links, b))
  {
    LinksPartition(links, b);
    EmptyCard(LinksWith(links, b, EventPending));
    var p, q, r := LinksWith(links, b, EventPending), LinksWith(links, b, EventProcessed),
        LinksWith(links, b, EventRejected);
    if |q| + |r| == 0 {
      EmptyCard(q);
      EmptyCard(r);
      assert LinksOf(links, b) == p + q + r;
    }
  }

  // ----- Setting the outcome of one event -----

  lemma LinksSetBatch(links: map<LinkKey, Outcome>, e: EventId, o: Outcome, b: BatchId)
    ensures LinksOf(LinksSet(links, e, o), b) == LinksOf(links, b)
    ensures b !in BatchesOf(links, e) ==> forall s :: LinksWith(LinksSet(links, e, o), b, s) == LinksWith(links, b, s)
    ensures BatchesOf(LinksSet(links, e, o), e) == BatchesOf(links, e)
    ensures forall f :: BatchesOf(LinksSet(links, e, o), f) == BatchesOf(links, f)
  {
  }

  lemma SetKeepsMirror(inbox: Inbox, next: Inbox, e: EventId, o: Outcome)
    requires LinksMirror(inbox) && e in inbox.ledger
    requires next.ledger == inbox.ledger[e := inbox.ledger[e].(outcome := o)]
    requires next.links == LinksSet(inbox.links, e, o) && next.batches.Keys == inbox.batches.Keys
    ensures LinksMirror(next)
  {
    forall k | k in next.links
      ensures LinkOk(next, k)
    {
      assert LinkOk(inbox, k);
    }
  }

  lemma SetKeepsEvents(inbox: Inbox, next: Inbox, e: EventId, o: Outcome)
    requires EventsOk(inbox) && e in inbox.ledger
    requires next.ledger == inbox.ledger[e := inbox.ledger[e].(outcome := o)]
    requires next.links == LinksSet(inbox.links, e, o) && next.queue.Keys == inbox.queue.Keys
    requires inbox.quarantines.Keys <= next.quarantines.Keys
    requires forall f :: f in inbox.queue && f != e ==> next.queue[f] == inbox.queue[f]
    requires o.status == EventPending <==> !next.queue[e].published
    requires next.queue[e].payload.eventId == e && SamePayload(next.queue[e].payload, inbox.ledger[e].event)
    requires o.status == EventRejected ==> e in next.quarantines
    ensures EventsOk(next)
  {
    LinksSetBatch(inbox.links, e, o, 0);
    forall f | f in next.ledger
      ensures EventOk(next, f)
    {
      assert EventOk(inbox, f);
    }
  }

  /** What finalizing a pending event writes: its ledger row, its links and the batches that carried it. */
  lemma FinalizeKeepsBatches(inbox: Inbox, e: EventId, o: Outcome)
    requires BatchesOk(inbox.links, inbox.batches) && LinksMirror(inbox) && o.status != EventPending
    requires e in inbox.ledger && inbox.ledger[e].outcome.status == EventPending
    ensures Finalize(inbox, e, o).Ok?
    ensures
      var next := Finalize(inbox, e, o).value;
      && BatchesOk(next.links, next.batches)
      && next.ledger == inbox.ledger[e := inbox.ledger[e].(outcome := o)]
      && next.links == LinksSet(inbox.links, e, o) && next.batches.Keys == inbox.batches.Keys
      && next.queue == inbox.queue && next.quarantines == inbox.quarantines
  {
    KnownBatches(inbox, e);
    var next := Finalize(inbox, e, o).value;
    forall b | b in next.batches
      ensures BatchOk(next.links, b, next.batches[b])
    {
      LinksSetBatch(inbox.links, e, o, b);
      assert BatchOk(inbox.links, b, inbox.batches[b]);
      if b in BatchesOf(inbox.links, e) {
        var k := LinkKey(b, e);
        assert k in inbox.links && LinkOk(inbox, k) && k in LinksWith(inbox.links, b, EventPending);
        assert k !in LinksWith(next.links, b, EventPending) && k in LinksOf(next.links, b);
        RecountedOk(next.links, b, inbox.batches[b]);
      }
    }
  }

  lemma KnownBatches(inbox: Inbox, e: EventId)
    requires LinksMirror(inbox)
    ensures BatchesOf(inbox.links, e) <= inbox.batches.Keys
  {
    forall b | b in BatchesOf(inbox.links, e)
      ensures b in inbox.batches
    {
      assert LinkOk(inbox, LinkKey(b, e));
    }
  }

  // ----- Worker transactions -----

  /** A committed attempt: finalize unless that was done before, and publish the queue row. */
  function Succeed(inbox: Inbox, e: EventId, o: Outcome): Inbox
    requires e in inbox.queue
  {
    match Finalize(inbox, e, o)
    case Ok(next) => MarkPublished(next, e)
    case Err(_) => inbox
  }

  function RejectAndPublish(inbox: Inbox, e: EventId, batch: BatchId, reason: Reason): Inbox
    requires e in inbox.queue
  {
    match Quarantine(inbox, e, batch, reason)
    case Ok(next) => MarkPublished(next, e)
    case Err(_) => inbox
  }

  lemma SucceedKeeps(inbox: Inbox, e: EventId, o: Outcome)
    requires InboxOk(inbox) && e in inbox.queue && o.status != EventPending
    requires inbox.ledger[e].outcome.status == EventPending
    requires o.status == EventRejected ==> e in inbox.quarantines
    ensures InboxOk(Succeed(inbox, e, o))
    ensures Succeed(inbox, e, o).ledger == inbox.ledger[e := inbox.ledger[e].(outcome := o)]
  {
    FinalizeKeepsBatches(inbox, e, o);
    assert EventOk(inbox, e);
    var next := Succeed(inbox, e, o);
    SetKeepsMirror(inbox, next, e, o);
    SetKeepsEvents(inbox, next, e, o);
  }

  /** In an agreeing inbox the transactions of the worker never fail to find their rows. */
  lemma SucceedCommits(inbox: Inbox, e: EventId, o: Outcome)
    requires InboxOk(inbox) && e in inbox.queue && o.status != EventPending
    requires inbox.ledger[e].outcome.status == EventPending
    ensures Finalize(inbox, e, o).Ok?
    ensures
      var next := Succeed(inbox, e, o);
      && next == MarkPublished(Finalize(inbox, e, o).value, e) && next.queue.Keys == inbox.queue.Keys
      && forall f :: f in inbox.queue ==> next.queue[f].payload == inbox.queue[f].payload
  {
    FinalizeKeepsBatches(inbox, e, o);
  }

  /** Counting attempts and recording quarantines leave the agreement alone. */
  lemma SideTablesKeep(inbox: Inbox, next: Inbox)
    requires InboxOk(inbox)
    requires next.ledger == inbox.ledger && next.links == inbox.links && next.batches == inbox.batches
    requires next.queue.Keys == inbox.queue.Keys && inbox.quarantines.Keys <= next.quarantines.Keys
    requires forall f :: f in inbox.queue ==>
               next.queue[f].payload == inbox.queue[f].payload && next.queue[f].published == inbox.queue[f].published
    ensures InboxOk(next)
  {
    forall k | k in next.links
      ensures LinkOk(next, k)
    {
      assert LinkOk(inbox, k);
    }
    forall f | f in next.ledger
      ensures EventOk(next, f)
    {
      assert EventOk(inbox, f);
    }
  }

  /** The first reason of an event is kept. */
  function WithQuarantine(inbox: Inbox, e: EventId, batch: BatchId, reason: Reason): Inbox {
    if e in inbox.quarantines then inbox
    else inbox.(quarantines := inbox.quarantines[e := QuarantineRow(batch, reason)])
  }

  lemma WithQuarantineKeeps(inbox: Inbox, e: EventId, batch: BatchId, reason: Reason)
    requires InboxOk(inbox)
    ensures InboxOk(WithQuarantine(inbox, e, batch, reason))
  {
    SideTablesKeep(inbox, WithQuarantine(inbox, e, batch, reason));
  }

  lemma RejectKeeps(inbox: Inbox, e: EventId, batch: BatchId, reason: Reason)
    requires InboxOk(inbox) && e in inbox.queue && inbox.ledger[e].outcome.status == EventPending
    ensures InboxOk(RejectAndPublish(inbox, e, batch, reason))
    ensures RejectAndPublish(inbox, e, batch, reason).ledger ==
            inbox.ledger[e := inbox.ledger[e].(outcome := RejectedFor(reason))]
  {
    WithQuarantineKeeps(inbox, e, batch, reason);
    var kept := WithQuarantine(inbox, e, batch, reason);
    SucceedKeeps(kept, e, RejectedFor(reason));
    assert RejectAndPublish(inbox, e, batch, reason) == Succeed(kept, e, RejectedFor(reason));
  }

  lemma RejectCommits(inbox: Inbox, e: EventId, batch: BatchId, reason: Reason)
    requires InboxOk(inbox) && e in inbox.queue && inbox.ledger[e].outcome.status == EventPending
    ensures Quarantine(inbox, e, batch, reason).Ok?
    ensures
      var next := RejectAndPublish(inbox, e, batch, reason);
      && next == MarkPublished(Quarantine(inbox, e, batch, reason).value, e) && next.queue.Keys == inbox.queue.Keys
      && forall f :: f in inbox.queue ==> next.queue[f].payload == inbox.queue[f].payload
  {
    WithQuarantineKeeps(inbox, e, batch, reason);
    SucceedCommits(WithQuarantine(inbox, e, batch, reason), e, RejectedFor(reason));
  }

  lemma ExhaustedIsRejected(inbox: Inbox, e: EventId, maxAttempts: nat)
    requires InboxOk(inbox) && e in inbox.queue && inbox.ledger[e].outcome.status == EventPending
    requires inbox.queue[e].attempts + 1 >= maxAttempts
    ensures FailAttempt(inbox, e, maxAttempts)
         == Ok(RejectAndPublish(inbox, e, inbox.queue[e].payload.batch, AttemptsExhausted))
  {
    var kept := WithQuarantine(inbox, e, inbox.queue[e].payload.batch, AttemptsExhausted);
    WithQuarantineKeeps(inbox, e, inbox.queue[e].payload.batch, AttemptsExhausted);
    FinalizeKeepsBatches(kept, e, RejectedFor(AttemptsExhausted));
  }

  lemma FailKeeps(inbox: Inbox, e: EventId, maxAttempts: nat)
    requires InboxOk(inbox) && e in inbox.queue && inbox.ledger[e].outcome.status == EventPending
    ensures FailAttempt(inbox, e, maxAttempts).Ok? && InboxOk(FailAttempt(inbox, e, maxAttempts).value)
    ensures
      var next := FailAttempt(inbox, e, maxAttempts).value;
      && next.ledger == (if inbox.queue[e].attempts + 1 >= maxAttempts
                         then inbox.ledger[e := inbox.ledger[e].(outcome := RejectedFor(AttemptsExhausted))]
                         else inbox.ledger)
      && next.queue.Keys == inbox.queue.Keys
      && forall f :: f in inbox.queue ==> next.queue[f].payload == inbox.queue[f].payload
  {
    if inbox.queue[e].attempts + 1 >= maxAttempts {
      ExhaustedIsRejected(inbox, e, maxAttempts);
      RejectKeeps(inbox, e, inbox.queue[e].payload.batch, AttemptsExhausted);
      RejectCommits(inbox, e, inbox.queue[e].payload.batch, AttemptsExhausted);
    } else {
      SideTablesKeep(inbox, FailAttempt(inbox, e, maxAttempts).value);
    }
  }

  lemma ReplayKeeps(inbox: Inbox, e: EventId)
    requires InboxOk(inbox)
    ensures QueueReplay(inbox, e).Ok? ==> InboxOk(QueueReplay(inbox, e).value.0)
    ensures e in inbox.quarantines && e in inbox.ledger ==> QueueReplay(inbox, e).Ok?
  {
    if e in inbox.ledger {
      assert EventOk(inbox, e);
      KnownBatches(inbox, e);
    }
    if QueueReplay(inbox, e).Ok? && QueueReplay(inbox, e).value.1 {
      var next := QueueReplay(inbox, e).value.0;
      SetKeepsMirror(inbox, next, e, REQUEUED);
      SetKeepsEvents(inbox, next, e, REQUEUED);
      forall b | b in next.batches
        ensures BatchOk(next.links, b, next.batches[b])
      {
        LinksSetBatch(inbox.links, e, REQUEUED, b);
        assert BatchOk(inbox.links, b, inbox.batches[b]);
        if b in BatchesOf(inbox.links, e) {
          assert LinkKey(b, e) in LinksWith(next.links, b, EventPending);
        }
      }
    }
  }

  // ----- Acceptance -----

  lemma {:induction false} LinksWithBatchKeys(
    links: map<LinkKey, Outcome>, ledger: map<EventId, LedgerRow>, batch: BatchId, events: seq<Observation>)
    requires forall i :: 0 <= i < |events| ==> events[i].eventId in ledger
    ensures
      var next := LinksWithBatch(links, ledger, batch, events);
      && (forall k: LinkKey :: k.batch != batch ==> (k in next <==> k in links) && (k in links ==> next[k] == links[k]))
      && (forall i :: 0 <= i < |events| ==> LinkKey(batch, events[i].eventId) in next)
  {
    if events != [] {
      var before := events[..|events| - 1];
      LinksWithBatchKeys(links, ledger, batch, before);
      forall i | 0 <= i < |events|
        ensures LinkKey(batch, events[i].eventId) in LinksWithBatch(links, ledger, batch, events)
      {
        assert i < |before| ==> before[i] == events[i];
      }
    }
  }

  /** The links of a new batch are one for each of its events, with that event's outcome. */
  lemma {:induction false} LinksOfNewBatch(
    links: map<LinkKey, Outcome>, ledger: map<EventId, LedgerRow>, batch: BatchId, events: seq<Observation>)
    requires forall i :: 0 <= i < |events| ==> events[i].eventId in ledger
    requires forall k: LinkKey :: k in links ==> k.batch != batch
    ensures
      var next := LinksWithBatch(links, ledger, batch, events);
      forall k :: k in next && k.batch == batch ==>
        k.event in ledger && next[k] == ledger[k.event].outcome
        && exists i :: 0 <= i < |events| && events[i].eventId == k.event
  {
    if events != [] {
      var before := events[..|events| - 1];
      var front := LinksWithBatch(links, ledger, batch, before);
      var next := LinksWithBatch(links, ledger, batch, events);
      LinksOfNewBatch(links, ledger, batch, before);
      forall k | k in next && k.batch == batch
        ensures exists i :: 0 <= i < |events| && events[i].eventId == k.event
      {
        if k.event != events[|events| - 1].eventId {
          assert k in front;
          var i :| 0 <= i < |before| && before[i].eventId == k.event;
          assert events[i].eventId == k.event;
        }
      }
    }
  }

  lemma LastIsNew(events: seq<Observation>)
    requires DistinctEvents(events) && events != []
    ensures DistinctEvents(events[..|events| - 1])
    ensures forall o :: o in events[..|events| - 1] ==> o.eventId != events[|events| - 1].eventId
  {
  }

  lemma LastLinkIsNew(
    links: map<LinkKey, Outcome>, ledger: map<EventId, LedgerRow>, batch: BatchId, events: seq<Observation>)
    requires forall i :: 0 <= i < |events| ==> events[i].eventId in ledger
    requires DistinctEvents(events) && events != [] && (forall k: LinkKey :: k in links ==> k.batch != batch)
    ensures LinkKey(batch, events[|events| - 1].eventId) !in LinksWithBatch(links, ledger, batch,
            events[..|events| - 1])
  {
    LastIsNew(events);
    LinksOfNewBatch(links, ledger, batch, events[..|events| - 1]);
  }

  lemma {:induction false} LinksOfNewBatchCount(
    links: map<LinkKey, Outcome>, ledger: map<EventId, LedgerRow>, batch: BatchId, events: seq<Observation>)
    requires forall i :: 0 <= i < |events| ==> events[i].eventId in ledger
    requires DistinctEvents(events) && (forall k: LinkKey :: k in links ==> k.batch != batch)
    ensures |LinksOf(LinksWithBatch(links, ledger, batch, events), batch)| == |events|
  {
    var next := LinksWithBatch(links, ledger, batch, events);
    if events == [] {
      assert LinksOf(next, batch) == {};
    } else {
      var front := LinksWithBatch(links, ledger, batch, events[..|events| - 1]);
      LastLinkIsNew(links, ledger, batch, events);
      LinksOfNewBatchCount(links, ledger, batch, events[..|events| - 1]);
      assert LinksOf(next, batch) == LinksOf(front, batch) + {LinkKey(batch, events[|events| - 1].eventId)};
    }
  }

  /** Counting a new batch's events by their ledger status is recounting its links. */
  lemma {:induction false} LinksOfNewBatchWith(
    links: map<LinkKey, Outcome>, ledger: map<EventId, LedgerRow>, batch: BatchId, events: seq<Observation>,
    s: EventStatus)
    requires forall i :: 0 <= i < |events| ==> events[i].eventId in ledger
    requires DistinctEvents(events) && (forall k: LinkKey :: k in links ==> k.batch != batch)
    ensures |LinksWith(LinksWithBatch(links, ledger, batch, events), batch, s)| == CountEvents(events, ledger, s)
  {
    var next := LinksWithBatch(links, ledger, batch, events);
    if events == [] {
      assert LinksWith(next, batch, s) == {};
    } else {
      var front := LinksWithBatch(links, ledger, batch, events[..|events| - 1]);
      var k := LinkKey(batch, events[|events| - 1].eventId);
      LastLinkIsNew(links, ledger, batch, events);
      LinksOfNewBatchWith(links, ledger, batch, events[..|events| - 1], s);
      if next[k].status == s {
        assert LinksWith(next, batch, s) == LinksWith(front, batch, s) + {k};
      } else {
        assert LinksWith(next, batch, s) == LinksWith(front, batch, s);
      }
    }
  }

  lemma {:induction false} QueueWithKeys(
    queue: map<EventId, QueueRow>, ledger: map<EventId, LedgerRow>, events: seq<Observation>, first: nat)
    requires DistinctEvents(events) && queue.Keys == ledger.Keys
    ensures
      var next := QueueWith(queue, ledger, events, first).0;
      && (forall id :: id in queue ==> id in next && next[id] == queue[id])
      && next.Keys == LedgerWith(ledger, events).Keys
      && (forall id :: id in next && id !in queue ==>
            !next[id].published && next[id].payload == LedgerWith(ledger, events)[id].event)
  {
    if events != [] {
      var before := events[..|events| - 1];
      LastIsNew(events);
      QueueWithKeys(queue, ledger, before, first);
      LedgerWithKeys(ledger, before);
    }
  }

  lemma NoLinksYet(inbox: Inbox, batch: BatchId)
    requires LinksMirror(inbox) && batch !in inbox.batches
    ensures forall k: LinkKey :: k in inbox.links ==> k.batch != batch
  {
    forall k | k in inbox.links
      ensures k.batch != batch
    {
      assert LinkOk(inbox, k);
    }
  }

  lemma AcceptKeepsMirror(inbox: Inbox, batch: BatchId, events: seq<Observation>)
    requires InboxOk(inbox) && batch !in inbox.batches && DistinctEvents(events)
    requires AcceptEvents(inbox, batch, events).Ok?
    ensures LinksMirror(AcceptEvents(inbox, batch, events).value)
  {
    var next := AcceptEvents(inbox, batch, events).value;
    LedgerWithKeys(inbox.ledger, events);
    LinksWithBatchKeys(inbox.links, next.ledger, batch, events);
    NoLinksYet(inbox, batch);
    LinksOfNewBatch(inbox.links, next.ledger, batch, events);
    forall k | k in next.links
      ensures LinkOk(next, k)
    {
      if k.batch != batch {
        assert LinkOk(inbox, k);
      }
    }
  }

  lemma AcceptKeepsEvents(inbox: Inbox, batch: BatchId, events: seq<Observation>)
    requires InboxOk(inbox) && batch !in inbox.batches && DistinctEvents(events)
    requires AcceptEvents(inbox, batch, events).Ok?
    ensures EventsOk(AcceptEvents(inbox, batch, events).value)
  {
    var next := AcceptEvents(inbox, batch, events).value;
    LedgerWithKeys(inbox.ledger, events);
    LinksWithBatchKeys(inbox.links, next.ledger, batch, events);
    NoLinksYet(inbox, batch);
    LinksOfNewBatch(inbox.links, next.ledger, batch, events);
    QueueWithKeys(inbox.queue, inbox.ledger, events, inbox.nextSequence);
    forall e | e in next.ledger
      ensures EventOk(next, e)
    {
      if e in inbox.ledger {
        assert EventOk(inbox, e);
        var b :| b in BatchesOf(inbox.links, e);
        assert LinkKey(b, e) in inbox.links && LinkKey(b, e) in next.links;
        assert b in BatchesOf(next.links, e);
      } else {
        var i :| 0 <= i < |events| && events[i].eventId == e;
        assert LinkKey(batch, e) in next.links;
        assert batch in BatchesOf(next.links, e);
      }
    }
  }

  lemma AcceptKeepsBatches(inbox: Inbox, batch: BatchId, events: seq<Observation>)
    requires InboxOk(inbox) && batch !in inbox.batches && DistinctEvents(events)
    requires AcceptEvents(inbox, batch, events).Ok?
    ensures BatchesOk(AcceptEvents(inbox, batch, events).value.links, AcceptEvents(inbox, batch, events).value.batches)
  {
    var next := AcceptEvents(inbox, batch, events).value;
    LedgerWithKeys(inbox.ledger, events);
    LinksWithBatchKeys(inbox.links, next.ledger, batch, events);
    NoLinksYet(inbox, batch);
    LinksOfNewBatch(inbox.links, next.ledger, batch, events);
    forall b | b in next.batches
      ensures BatchOk(next.links, b, next.batches[b])
    {
      if b == batch {
        LinksOfNewBatchCount(inbox.links, next.ledger, batch, events);
        LinksOfNewBatchWith(inbox.links, next.ledger, batch, events, EventProcessed);
        LinksOfNewBatchWith(inbox.links, next.ledger, batch, events, EventRejected);
        RecountedOk(next.links, b, BatchRow(|events|, 0, 0, Accepted, false));
      } else {
        SameLinks(inbox.links, next.links, b);
        assert BatchOk(inbox.links, b, inbox.batches[b]);
      }
    }
  }

  lemma BuiltEventsDistinct(q: BatchRequest, assignments: seq<Assignment>, batch: BatchId, receivedAt: Time)
    requires forall i, j :: 0 <= i < j < |q.observations| ==> q.observations[i].eventId != q.observations[j].eventId
    ensures
      var events := BuildEvents(q, q.observations, assignments, batch, receivedAt);
      events.Some? ==> DistinctEvents(events.value)
  {
  }

  /** Event ids are unique within a request and batch ids are new. */
  ghost predicate ValidRequest(inbox: Inbox, q: BatchRequest, batch: BatchId) {
    && (forall i, j :: 0 <= i < j < |q.observations| ==> q.observations[i].eventId != q.observations[j].eventId)
    && batch !in inbox.batches
  }

  lemma AcceptKeeps(
    inbox: Inbox, token: DeviceId, q: BatchRequest, assignments: seq<Assignment>, batch: BatchId, receivedAt: Time)
    requires InboxOk(inbox) && ValidRequest(inbox, q, batch)
    ensures
      var r := AcceptBatch(inbox, token, q, assignments, batch, receivedAt);
      r.Ok? ==> InboxOk(r.value)
  {
    var r := AcceptBatch(inbox, token, q, assignments, batch, receivedAt);
    if r.Ok? {
      BuiltEventsDistinct(q, assignments, batch, receivedAt);
      var events := BuildEvents(q, q.observations, assignments, batch, receivedAt).value;
      AcceptKeepsMirror(inbox, batch, events);
      AcceptKeepsEvents(inbox, batch, events);
      AcceptKeepsBatches(inbox, batch, events);
    }
  }

  // ----- Runs of the inbox alone -----

  datatype InboxStep =
    | AcceptStep(token: DeviceId, request: BatchRequest, assignments: seq<Assignment>, batch: BatchId, receivedAt: Time)
    | SucceedStep(event: EventId, disposition: Disposition)
    | RejectStep(event: EventId, reason: Reason)
    | FailStep(event: EventId, maxAttempts: nat)
    | ReplayStep(event: EventId)

  ghost function RunStep(inbox: Inbox, step: InboxStep): Inbox {
    match step
    case AcceptStep(token, q, assignments, batch, receivedAt) =>
      (var r := AcceptBatch(inbox, token, q, assignments, batch, receivedAt);
       if ValidRequest(inbox, q, batch) && r.Ok? then r.value else inbox)
    case SucceedStep(e, d) => if Takeable(inbox, e) then Succeed(inbox, e, ProcessedAs(d)) else inbox
    case RejectStep(e, reason) =>
      if Takeable(inbox, e) then RejectAndPublish(inbox, e, inbox.queue[e].payload.batch, reason) else inbox
    case FailStep(e, maxAttempts) =>
      if Takeable(inbox, e) && FailAttempt(inbox, e, maxAttempts).Ok? then FailAttempt(inbox, e, maxAttempts).value
          else inbox
    case ReplayStep(e) => if QueueReplay(inbox, e).Ok? then QueueReplay(inbox, e).value.0 else inbox
  }

  ghost function Run(inbox: Inbox, steps: seq<InboxStep>): Inbox
    decreases |steps|
  {
    if steps == [] then inbox else Run(RunStep(inbox, steps[0]), steps[1..])
  }

  lemma StepKeeps(inbox: Inbox, step: InboxStep)
    requires InboxOk(inbox)
    ensures InboxOk(RunStep(inbox, step))
  {
    match step
    case AcceptStep(token, q, assignments, batch, receivedAt) =>
      if ValidRequest(inbox, q, batch) {
        AcceptKeeps(inbox, token, q, assignments, batch, receivedAt);
      }
    case SucceedStep(e, d) =>
      if Takeable(inbox, e) {
        assert EventOk(inbox, e);
        SucceedKeeps(inbox, e, ProcessedAs(d));
      }
    case RejectStep(e, reason) =>
      if Takeable(inbox, e) {
        assert EventOk(inbox, e);
        RejectKeeps(inbox, e, inbox.queue[e].payload.batch, reason);
      }
    case FailStep(e, maxAttempts) =>
      if Takeable(inbox, e) {
        assert EventOk(inbox, e);
        FailKeeps(inbox, e, maxAttempts);
      }
    case ReplayStep(e) => ReplayKeeps(inbox, e);
  }

  /** In every reachable state ledger, queue, links and batches agree. */
  lemma {:induction false} RunKeeps(inbox: Inbox, steps: seq<InboxStep>)
    requires InboxOk(inbox)
    ensures InboxOk(Run(inbox, steps))
    decreases |steps|
  {
    if steps != [] {
      StepKeeps(inbox, steps[0]);
      RunKeeps(RunStep(inbox, steps[0]), steps[1..]);
    }
  }

  lemma ReachableInboxOk(steps: seq<InboxStep>)
    ensures InboxOk(Run(EMPTY, steps))
  {
    RunKeeps(EMPTY, steps);
  }

  // ----- What no step takes back -----

  /** Ledger rows stay, their observations are immutable, and PROCESSED is absorbing. */
  ghost predicate Retained(ledger: map<EventId, LedgerRow>, next: map<EventId, LedgerRow>) {
    forall e :: e in ledger ==>
      && e in next && next[e].event == ledger[e].event
      && (ledger[e].outcome.status == EventProcessed ==> next[e] == ledger[e])
  }

  lemma AcceptRetains(inbox: Inbox, step: InboxStep)
    requires step.AcceptStep?
    ensures Retained(inbox.ledger, RunStep(inbox, step).ledger)
  {
    var events := BuildEvents(step.request, step.request.observations, step.assignments, step.batch, step.receivedAt);
    if events.Some? {
      LedgerWithKeys(inbox.ledger, events.value);
    }
  }

  lemma SuccessRetains(inbox: Inbox, e: EventId, d: Disposition)
    requires InboxOk(inbox)
    ensures Retained(inbox.ledger, RunStep(inbox, SucceedStep(e, d)).ledger)
  {
    if Takeable(inbox, e) {
      assert EventOk(inbox, e);
      SucceedKeeps(inbox, e, ProcessedAs(d));
    }
  }

  lemma StepRetains(inbox: Inbox, step: InboxStep)
    requires InboxOk(inbox)
    ensures Retained(inbox.ledger, RunStep(inbox, step).ledger)
  {
    match step
    case AcceptStep(token, q, assignments, batch, receivedAt) =>
      AcceptRetains(inbox, step);
    case SucceedStep(e, d) =>
      SuccessRetains(inbox, e, d);
    case RejectStep(e, reason) =>
      if Takeable(inbox, e) {
        assert EventOk(inbox, e);
        RejectKeeps(inbox, e, inbox.queue[e].payload.batch, reason);
      }
    case FailStep(e, maxAttempts) =>
      if Takeable(inbox, e) {
        assert EventOk(inbox, e);
        FailKeeps(inbox, e, maxAttempts);
      }
    case ReplayStep(e) =>
  }

  /** However a run goes on, a processed event keeps its row and is never queued again. */
  lemma {:induction false} ProcessedIsFinal(inbox: Inbox, steps: seq<InboxStep>, e: EventId)
    requires InboxOk(inbox) && e in inbox.ledger && inbox.ledger[e].outcome.status == EventProcessed
    ensures
      var last := Run(inbox, steps);
      && e in last.ledger && last.ledger[e] == inbox.ledger[e]
      && e in last.queue && last.queue[e].published
    decreases |steps|
  {
    if steps == [] {
      assert EventOk(inbox, e);
    } else {
      StepKeeps(inbox, steps[0]);
      StepRetains(inbox, steps[0]);
      ProcessedIsFinal(RunStep(inbox, steps[0]), steps[1..], e);
    }
  }

  /** While anything is pending no batch that carries it is complete, however often it was retried. */
  lemma CompleteBatchIsSettled(inbox: Inbox, b: BatchId, e: EventId)
    requires InboxOk(inbox) && LinkKey(b, e) in inbox.links
    ensures b in inbox.batches && e in inbox.ledger
    ensures IsComplete(inbox.batches[b].status) ==> inbox.ledger[e].outcome.status != EventPending
    ensures inbox.batches[b].status == Completed ==> inbox.ledger[e].outcome.status == EventProcessed
  {
    var k := LinkKey(b, e);
    assert LinkOk(inbox, k) && BatchOk(inbox.links, b, inbox.batches[b]);
    if inbox.links[k].status == EventPending {
      assert k in LinksWith(inbox.links, b, EventPending);
    }
    if inbox.links[k].status == EventRejected {
      assert k in LinksWith(inbox.links, b, EventRejected);
    }
  }
}
