/**
 What an accepted batch puts into ledger and queue, read by read, and exactly when a batch
 is refused, said by the fields of the request and of the listed assignments.
 */
module Acceptances {
  import opened Basics
  import opened Observations
  import opened Inboxes
  import InboxInvariants

  // ----- Where a read is placed -----

  /** The half-open interval of the assignment contains the time. */
  predicate InForce(a: Assignment, at: Time) {
    a.from <= at && (a.to.Some? ==> at < a.to.value)
  }

  /** The place of the first listed assignment in force. */
  ghost predicate PlacedAt(assignments: seq<Assignment>, at: Time, l: Location) {
    exists k ::
      && 0 <= k < |assignments| && InForce(assignments[k], at) && assignments[k].location == l
      && forall j :: 0 <= j < k ==> !InForce(assignments[j], at)
  }

  ghost predicate NoneInForce(assignments: seq<Assignment>, at: Time) {
    forall k :: 0 <= k < |assignments| ==> !InForce(assignments[k], at)
  }

  lemma {:induction false} ResolvesToFirst(assignments: seq<Assignment>, at: Time)
    ensures
      match ResolveAssignment(assignments, at)
      case Some(l) => PlacedAt(assignments, at, l)
      case None => NoneInForce(assignments, at)
  {
    if assignments != [] && !InForce(assignments[0], at) {
      ResolvesToFirst(assignments[1..], at);
      match ResolveAssignment(assignments[1..], at)
      case Some(l) =>
        var k :| 0 <= k < |assignments[1..]| && InForce(assignments[1..][k], at) && assignments[1..][k].location == l
            && forall j :: 0 <= j < k ==> !InForce(assignments[1..][j], at);
        assert assignments[k + 1] == assignments[1..][k];
        assert forall j :: 0 < j < k + 1 ==> assignments[j] == assignments[1..][j - 1];
      case None =>
        assert forall j :: 0 < j < |assignments| ==> assignments[j] == assignments[1..][j - 1];
    }
  }

  lemma PlaceIsUnique(assignments: seq<Assignment>, at: Time, l: Location)
    requires PlacedAt(assignments, at, l)
    ensures ResolveAssignment(assignments, at) == Some(l)
  {
    ResolvesToFirst(assignments, at);
  }

  // ----- One read -----

  /** What the ledger and the queue hold of one read of a request. */
  ghost predicate AcceptedAs(
    q: BatchRequest, assignments: seq<Assignment>, batch: BatchId, receivedAt: Time, o: ObservationInput,
    e: Observation)
  {
    && e.eventId == o.eventId && e.epc == o.epc && e.observedAt == o.observedAt && e.rssi == o.rssi
    && e.antenna == o.antenna
    && e.batch == batch && e.device == q.device && e.receivedAt == receivedAt
    && e.backlogDrained == q.backlogDrained && e.readerCoverageOk == q.readerCoverageOk
    && PlacedAt(assignments, o.observedAt, e.location)
    && (e.isBuffered <==> receivedAt - o.observedAt > 60)
    && e.readerHealth == (if q.readerCoverageOk then 1.0 else 0.0)
    && e.replayedFrom == None
  }

  lemma {:induction false} BuiltAs(
    q: BatchRequest, inputs: seq<ObservationInput>, assignments: seq<Assignment>, batch: BatchId, receivedAt: Time)
    ensures
      match BuildEvents(q, inputs, assignments, batch, receivedAt)
      case Some(events) =>
        && |events| == |inputs|
        && forall i :: 0 <= i < |inputs| ==> AcceptedAs(q, assignments, batch, receivedAt, inputs[i], events[i])
      case None => exists i :: 0 <= i < |inputs| && NoneInForce(assignments, inputs[i].observedAt)
  {
    if inputs != [] {
      ResolvesToFirst(assignments, inputs[0].observedAt);
      BuiltAs(q, inputs[1..], assignments, batch, receivedAt);
      match BuildEvents(q, inputs, assignments, batch, receivedAt)
      case Some(events) =>
        assert events[1..] == BuildEvents(q, inputs[1..], assignments, batch, receivedAt).value;
        forall i | 0 < i < |inputs|
          ensures AcceptedAs(q, assignments, batch, receivedAt, inputs[i], events[i])
        {
          assert inputs[i] == inputs[1..][i - 1] && events[i] == events[1..][i - 1];
        }
      case None =>
        if ResolveAssignment(assignments, inputs[0].observedAt).Some? {
          var i :| 0 <= i < |inputs[1..]| && NoneInForce(assignments, inputs[1..][i].observedAt);
          assert inputs[i + 1] == inputs[1..][i];
        }
    }
  }

  // ----- The new rows -----

  /** The i-th event, if its id is new, has its ledger row and its queue row. */
  ghost predicate Entered(
    before: map<EventId, LedgerRow>, ledger: map<EventId, LedgerRow>, queue: map<EventId, QueueRow>,
    first: nat, next: nat, e: Observation)
  {
    var id := e.eventId;
    id !in before ==>
      && id in ledger && ledger[id] == LedgerRow(e, UNTOUCHED)
      && id in queue && queue[id].payload == e && !queue[id].published && queue[id].attempts == 0
      && first <= queue[id].sequence < next
  }

  /** Of two new events the first is queued first. */
  ghost predicate Queued(
    before: map<EventId, LedgerRow>, queue: map<EventId, QueueRow>, a: Observation, b: Observation)
  {
    a.eventId !in before && b.eventId !in before ==>
      && a.eventId in queue && b.eventId in queue
      && queue[a.eventId].sequence < queue[b.eventId].sequence
  }

  ghost predicate AllEntered(
    before: map<EventId, LedgerRow>, ledger: map<EventId, LedgerRow>, queue: map<EventId, QueueRow>,
    first: nat, next: nat, events: seq<Observation>)
  {
    && first <= next
    && (forall i :: 0 <= i < |events| ==> Entered(before, ledger, queue, first, next, events[i]))
    && (forall i, j :: 0 <= i < j < |events| ==> Queued(before, queue, events[i], events[j]))
  }

  lemma OneMoreEntered(
    before: map<EventId, LedgerRow>, ledger: map<EventId, LedgerRow>, queue: map<EventId, QueueRow>,
    first: nat, next: nat, front: seq<Observation>, last: Observation)
    requires AllEntered(before, ledger, queue, first, next, front)
    requires last.eventId !in before && forall i :: 0 <= i < |front| ==> front[i].eventId != last.eventId
    ensures AllEntered(
              before, ledger[last.eventId := LedgerRow(last, UNTOUCHED)],
              queue[last.eventId := QueueRow(last, next, false, 0)], first, next + 1, front + [last])
  {
    var all, queue' := front + [last], queue[last.eventId := QueueRow(last, next, false, 0)];
    var ledger' := ledger[last.eventId := LedgerRow(last, UNTOUCHED)];
    forall i | 0 <= i < |all|
      ensures Entered(before, ledger', queue', first, next + 1, all[i])
    {
      assert i < |front| ==> Entered(before, ledger, queue, first, next, front[i]);
    }
    forall i, j | 0 <= i < j < |all|
      ensures Queued(before, queue', all[i], all[j])
    {
      assert Entered(before, ledger, queue, first, next, front[i]);
      assert j < |front| ==> Queued(before, queue, front[i], front[j]);
    }
  }

  lemma {:induction false} EventsEntered(
    ledger: map<EventId, LedgerRow>, queue: map<EventId, QueueRow>, events: seq<Observation>, first: nat)
    requires DistinctEvents(events)
    ensures
      var (queue', next) := QueueWith(queue, ledger, events, first);
      AllEntered(ledger, LedgerWith(ledger, events), queue', first, next, events)
  {
    if events != [] {
      var front, last := events[..|events| - 1], events[|events| - 1];
      assert events == front + [last];
      EventsEntered(ledger, queue, front, first);
      LedgerWithKeys(ledger, front);
      var (middle, sequence) := QueueWith(queue, ledger, front, first);
      if last.eventId !in ledger {
        OneMoreEntered(ledger, LedgerWith(ledger, front), middle, first, sequence, front, last);
      }
    }
  }

  /** What the tables hold of one read of an accepted batch. */
  ghost predicate RowAccepted(
    inbox: Inbox, next: Inbox, q: BatchRequest, assignments: seq<Assignment>, batch: BatchId, receivedAt: Time,
    o: ObservationInput)
  {
    var id := o.eventId;
    && id in next.ledger
    && (id in inbox.ledger ==> next.ledger[id] == inbox.ledger[id])
    && (id !in inbox.ledger ==>
          && AcceptedAs(q, assignments, batch, receivedAt, o, next.ledger[id].event)
          && next.ledger[id].outcome == UNTOUCHED
          && id in next.queue && next.queue[id].payload == next.ledger[id].event
          && !next.queue[id].published && next.queue[id].attempts == 0
          && inbox.nextSequence <= next.queue[id].sequence < next.nextSequence)
  }

  lemma AcceptedTables(
    inbox: Inbox, token: DeviceId, q: BatchRequest, assignments: seq<Assignment>, batch: BatchId, receivedAt: Time)
    requires AcceptBatch(inbox, token, q, assignments, batch, receivedAt).Ok?
    ensures BuildEvents(q, q.observations, assignments, batch, receivedAt).Some?
    ensures
      var next := AcceptBatch(inbox, token, q, assignments, batch, receivedAt).value;
      var events := BuildEvents(q, q.observations, assignments, batch, receivedAt).value;
      && next.ledger == LedgerWith(inbox.ledger, events)
      && (next.queue, next.nextSequence) == QueueWith(inbox.queue, inbox.ledger, events, inbox.nextSequence)
  {
  }

  lemma AcceptedRow(
    inbox: Inbox, token: DeviceId, q: BatchRequest, assignments: seq<Assignment>, batch: BatchId, receivedAt: Time,
    i: nat)
    requires InboxInvariants.ValidRequest(inbox, q, batch) && i < |q.observations|
    requires AcceptBatch(inbox, token, q, assignments, batch, receivedAt).Ok?
    ensures RowAccepted(
              inbox, AcceptBatch(inbox, token, q, assignments, batch, receivedAt).value, q, assignments, batch,
              receivedAt, q.observations[i])
  {
    AcceptedTables(inbox, token, q, assignments, batch, receivedAt);
    var events := BuildEvents(q, q.observations, assignments, batch, receivedAt).value;
    BuiltAs(q, q.observations, assignments, batch, receivedAt);
    InboxInvariants.BuiltEventsDistinct(q, assignments, batch, receivedAt);
    EventsEntered(inbox.ledger, inbox.queue, events, inbox.nextSequence);
    LedgerWithKeys(inbox.ledger, events);
    assert AcceptedAs(q, assignments, batch, receivedAt, q.observations[i], events[i]);
    var (queue, next) := QueueWith(inbox.queue, inbox.ledger, events, inbox.nextSequence);
    assert Entered(inbox.ledger, LedgerWith(inbox.ledger, events), queue, inbox.nextSequence, next, events[i]);
  }

  /**
   In an accepted batch every read whose id is new gets a ledger row and a queue row with what
   the read and the request say; reads of one request queue in request order, after everything
   queued before. Ids that were known keep their rows, and no other id comes in.
   */
  lemma AcceptedRows(
    inbox: Inbox, token: DeviceId, q: BatchRequest, assignments: seq<Assignment>, batch: BatchId, receivedAt: Time)
    requires InboxInvariants.ValidRequest(inbox, q, batch)
    requires AcceptBatch(inbox, token, q, assignments, batch, receivedAt).Ok?
    ensures
      var next := AcceptBatch(inbox, token, q, assignments, batch, receivedAt).value;
      && (forall o :: o in q.observations ==> RowAccepted(inbox, next, q, assignments, batch, receivedAt, o))
      && (forall id :: id in inbox.ledger ==> id in next.ledger && next.ledger[id] == inbox.ledger[id])
      && (forall id :: id in next.ledger && id !in inbox.ledger ==> exists o :: o in q.observations && o.eventId == id)
  {
    var next := AcceptBatch(inbox, token, q, assignments, batch, receivedAt).value;
    forall o | o in q.observations
      ensures RowAccepted(inbox, next, q, assignments, batch, receivedAt, o)
    {
      var i :| 0 <= i < |q.observations| && q.observations[i] == o;
      AcceptedRow(inbox, token, q, assignments, batch, receivedAt, i);
    }
    AcceptedTables(inbox, token, q, assignments, batch, receivedAt);
    NoOtherRows(inbox, q, assignments, batch, receivedAt);
  }

  lemma NoOtherRows(inbox: Inbox, q: BatchRequest, assignments: seq<Assignment>, batch: BatchId, receivedAt: Time)
    requires BuildEvents(q, q.observations, assignments, batch, receivedAt).Some?
    ensures
      var ledger := LedgerWith(inbox.ledger, BuildEvents(q, q.observations, assignments, batch, receivedAt).value);
      && (forall id :: id in inbox.ledger ==> id in ledger && ledger[id] == inbox.ledger[id])
      && (forall id :: id in ledger && id !in inbox.ledger ==> exists o :: o in q.observations && o.eventId == id)
  {
    var events := BuildEvents(q, q.observations, assignments, batch, receivedAt).value;
    LedgerWithKeys(inbox.ledger, events);
    forall id | id in LedgerWith(inbox.ledger, events) && id !in inbox.ledger
      ensures exists o :: o in q.observations && o.eventId == id
    {
      var i :| 0 <= i < |events| && events[i].eventId == id;
      assert q.observations[i] in q.observations;
    }
  }

  lemma AcceptedInOrder(
    inbox: Inbox, token: DeviceId, q: BatchRequest, assignments: seq<Assignment>, batch: BatchId, receivedAt: Time,
    i: nat, j: nat)
    requires InboxInvariants.ValidRequest(inbox, q, batch)
    requires AcceptBatch(inbox, token, q, assignments, batch, receivedAt).Ok?
    requires i < j < |q.observations|
    requires q.observations[i].eventId !in inbox.ledger && q.observations[j].eventId !in inbox.ledger
    ensures
      var next := AcceptBatch(inbox, token, q, assignments, batch, receivedAt).value;
      && q.observations[i].eventId in next.queue && q.observations[j].eventId in next.queue
      && next.queue[q.observations[i].eventId].sequence < next.queue[q.observations[j].eventId].sequence
  {
    AcceptedTables(inbox, token, q, assignments, batch, receivedAt);
    var events := BuildEvents(q, q.observations, assignments, batch, receivedAt).value;
    InboxInvariants.BuiltEventsDistinct(q, assignments, batch, receivedAt);
    EventsEntered(inbox.ledger, inbox.queue, events, inbox.nextSequence);
    var queue := QueueWith(inbox.queue, inbox.ledger, events, inbox.nextSequence).0;
    assert Queued(inbox.ledger, queue, events[i], events[j]);
  }

  // ----- Refusals -----

  /** The id is known with another read, device or place. */
  ghost predicate Conflicts(
    ledger: map<EventId, LedgerRow>, q: BatchRequest, assignments: seq<Assignment>, o: ObservationInput)
  {
    o.eventId in ledger
    && var e := ledger[o.eventId].event;
       !(e.device == q.device && e.epc == o.epc && e.observedAt == o.observedAt && e.rssi == o.rssi
         && e.antenna == o.antenna && PlacedAt(assignments, o.observedAt, e.location))
  }

  /** A batch is refused for its token, for a time without assignment or for a conflicting id, in this order. */
  lemma AcceptanceRefusal(
    inbox: Inbox, token: DeviceId, q: BatchRequest, assignments: seq<Assignment>, batch: BatchId, receivedAt: Time)
    requires InboxInvariants.ValidRequest(inbox, q, batch)
    ensures
      var r := AcceptBatch(inbox, token, q, assignments, batch, receivedAt);
      var unplaced :=
        NoneInForce(assignments, receivedAt)
        || exists i :: 0 <= i < |q.observations| && NoneInForce(assignments, q.observations[i].observedAt);
      && (r == Err(DeviceTokenMismatch) <==> q.device != token)
      && (r == Err(AssignmentUnavailable) <==> q.device == token && unplaced)
      && (r == Err(EventIdConflict) <==>
          && q.device == token && !unplaced
          && exists i :: 0 <= i < |q.observations| && Conflicts(inbox.ledger, q, assignments, q.observations[i]))
  {
    ResolvesToFirst(assignments, receivedAt);
    BuiltAs(q, q.observations, assignments, batch, receivedAt);
    var built := BuildEvents(q, q.observations, assignments, batch, receivedAt);
    if built.Some? {
      forall i | 0 <= i < |q.observations|
        ensures !NoneInForce(assignments, q.observations[i].observedAt)
      {
        assert AcceptedAs(q, assignments, batch, receivedAt, q.observations[i], built.value[i]);
      }
      ConflictsAgree(inbox, q, assignments, batch, receivedAt);
    }
  }

  lemma RefusedEvents(inbox: Inbox, batch: BatchId, events: seq<Observation>)
    ensures
      var ledger := LedgerWith(inbox.ledger, events);
      AcceptEvents(inbox, batch, events).Err? <==>
      exists i :: 0 <= i < |events| && events[i].eventId in ledger
           && !SamePayload(ledger[events[i].eventId].event, events[i])
  {
    LedgerWithKeys(inbox.ledger, events);
  }

  lemma ConflictsAgree(
    inbox: Inbox, q: BatchRequest, assignments: seq<Assignment>, batch: BatchId, receivedAt: Time)
    requires InboxInvariants.ValidRequest(inbox, q, batch)
    requires BuildEvents(q, q.observations, assignments, batch, receivedAt).Some?
    ensures
      var events := BuildEvents(q, q.observations, assignments, batch, receivedAt).value;
      AcceptEvents(inbox, batch, events).Err? <==>
      exists i :: 0 <= i < |q.observations| && Conflicts(inbox.ledger, q, assignments, q.observations[i])
  {
    var events := BuildEvents(q, q.observations, assignments, batch, receivedAt).value;
    BuiltAs(q, q.observations, assignments, batch, receivedAt);
    InboxInvariants.BuiltEventsDistinct(q, assignments, batch, receivedAt);
    RefusedEvents(inbox, batch, events);
    forall i | 0 <= i < |q.observations|
      ensures
        var ledger := LedgerWith(inbox.ledger, events);
        events[i].eventId in ledger && !SamePayload(ledger[events[i].eventId].event, events[i]) <==>
        Conflicts(inbox.ledger, q, assignments, q.observations[i])
    {
      EventConflict(inbox, q, assignments, batch, receivedAt, events, i);
    }
  }

  lemma EventConflict(
    inbox: Inbox, q: BatchRequest, assignments: seq<Assignment>, batch: BatchId, receivedAt: Time,
    events: seq<Observation>, i: nat)
    requires DistinctEvents(events) && i < |events| == |q.observations|
    requires AcceptedAs(q, assignments, batch, receivedAt, q.observations[i], events[i])
    ensures
      var ledger := LedgerWith(inbox.ledger, events);
      events[i].eventId in ledger && !SamePayload(ledger[events[i].eventId].event, events[i]) <==>
      Conflicts(inbox.ledger, q, assignments, q.observations[i])
  {
    EventsEntered(inbox.ledger, inbox.queue, events, inbox.nextSequence);
    LedgerWithKeys(inbox.ledger, events);
    OneConflict(
      inbox, q, assignments, batch, receivedAt, q.observations[i], events[i], LedgerWith(inbox.ledger, events));
  }

  lemma OneConflict(
    inbox: Inbox, q: BatchRequest, assignments: seq<Assignment>, batch: BatchId, receivedAt: Time,
    o: ObservationInput, e: Observation, ledger: map<EventId, LedgerRow>)
    requires AcceptedAs(q, assignments, batch, receivedAt, o, e)
    requires e.eventId in ledger
    requires e.eventId in inbox.ledger ==> ledger[e.eventId] == inbox.ledger[e.eventId]
    requires e.eventId !in inbox.ledger ==> ledger[e.eventId].event == e
    ensures !SamePayload(ledger[e.eventId].event, e) <==> Conflicts(inbox.ledger, q, assignments, o)
  {
    PlaceIsUnique(assignments, o.observedAt, e.location);
    if PlacedAt(assignments, o.observedAt, ledger[e.eventId].event.location) {
      PlaceIsUnique(assignments, o.observedAt, ledger[e.eventId].event.location);
    }
  }
}
