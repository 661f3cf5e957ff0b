/**
 The durable inbox: one ledger row per event id, one queue row for the worker, a link from
 every request batch to each event it carried, and the batch counters that clients poll.
 */
module Inboxes {
  import opened Basics
  import opened Observations

  datatype EventStatus = EventPending | EventProcessed | EventRejected

  datatype Reason = ObservedTooFarInFuture | AssignmentFailed(code: int) | UnknownEpc | AttemptsExhausted

  datatype Outcome = Outcome(status: EventStatus, disposition: Option<Disposition>, reason: Option<Reason>)

  const UNTOUCHED: Outcome := Outcome(EventPending, None, None)
  const REQUEUED: Outcome := Outcome(EventPending, Some(ReplayQueued), None)

  datatype LedgerRow = LedgerRow(event: Observation, outcome: Outcome)

  datatype QueueRow = QueueRow(payload: Observation, sequence: nat, published: bool, attempts: nat)

  datatype LinkKey = LinkKey(batch: BatchId, event: EventId)

  datatype BatchStatus = Accepted | Processing | Completed | CompletedWithErrors

  datatype BatchRow = BatchRow(accepted: nat, processed: nat, rejected: nat, status: BatchStatus, completed: bool)

  datatype QuarantineRow = QuarantineRow(batch: BatchId, reason: Reason)

  datatype Inbox = Inbox(
    ledger: map<EventId, LedgerRow>,
    queue: map<EventId, QueueRow>,
    links: map<LinkKey, Outcome>,
    batches: map<BatchId, BatchRow>,
    quarantines: map<EventId, QuarantineRow>,
    nextSequence: nat)

  const EMPTY: Inbox := Inbox(map[], map[], map[], map[], map[], 0)

  // ----- Building the events of a request -----

  datatype Assignment = Assignment(location: Location, from: Time, to: Option<Time>)

  datatype ObservationInput = ObservationInput(
    eventId: EventId, epc: Epc, observedAt: Time, rssi: real, antenna: Option<int>)

  datatype BatchRequest = BatchRequest(
    device: DeviceId, observations: seq<ObservationInput>, backlogDrained: bool, readerCoverageOk: bool)

  datatype AcceptError = DeviceTokenMismatch | AssignmentUnavailable | EventIdConflict

  const BUFFERED_AFTER: int := 60

  predicate Covers(a: Assignment, at: Time) {
    a.from <= at && (a.to.None? || at < a.to.value)
  }

  /** The first listed assignment whose half-open interval covers a time. */
  function ResolveAssignment(assignments: seq<Assignment>, at: Time): (r: Option<Location>)
    ensures r.None? <==> forall a :: a in assignments ==> !Covers(a, at)
    ensures r.Some? ==> exists a :: a in assignments && Covers(a, at) && a.location == r.value
  {
    if assignments == [] then None
    else if Covers(assignments[0], at) then Some(assignments[0].location)
    else ResolveAssignment(assignments[1..], at)
  }

  function BuildEvent(
    q: BatchRequest, o: ObservationInput, location: Location, batch: BatchId, receivedAt: Time): Observation
  {
    Observation(
      o.eventId, batch, q.device, location, o.epc, o.observedAt, receivedAt, o.rssi, o.antenna,
      if q.readerCoverageOk then 1.0 else 0.0,
      receivedAt - o.observedAt > BUFFERED_AFTER,
      q.backlogDrained, q.readerCoverageOk, None)
  }

  function BuildEvents(
    q: BatchRequest, inputs: seq<ObservationInput>, assignments: seq<Assignment>, batch: BatchId, receivedAt: Time)
    : (r: Option<seq<Observation>>)
    ensures r.Some? ==> |r.value| == |inputs|
    ensures r.Some? ==> forall i :: 0 <= i < |inputs| ==>
              r.value[i].eventId == inputs[i].eventId && r.value[i].batch == batch && r.value[i].replayedFrom.None?
  {
    if inputs == [] then Some([])
    else
      var location := ResolveAssignment(assignments, inputs[0].observedAt);
      var rest := BuildEvents(q, inputs[1..], assignments, batch, receivedAt);
      if location.None? || rest.None? then None
      else Some([BuildEvent(q, inputs[0], location.value, batch, receivedAt)] + rest.value)
  }

  // ----- Counters -----

  function LinksOf(links: map<LinkKey, Outcome>, batch: BatchId): set<LinkKey> {
    set k | k in links && k.batch == batch
  }

  function LinksWith(links: map<LinkKey, Outcome>, batch: BatchId, status: EventStatus): set<LinkKey> {
    set k | k in links && k.batch == batch && links[k].status == status
  }

  function Reached(row: BatchRow, processed: nat, rejected: nat): BatchRow {
    var row := row.(processed := processed, rejected := rejected);
    if processed + rejected == row.accepted then
      row.(status := if rejected > 0 then CompletedWithErrors else Completed, completed := true)
    else if processed + rejected > 0 then row.(status := Processing)
    else row
  }

  function Recounted(row: BatchRow, links: map<LinkKey, Outcome>, batch: BatchId): BatchRow {
    Reached(row, |LinksWith(links, batch, EventProcessed)|, |LinksWith(links, batch, EventRejected)|)
  }

  function Reopened(row: BatchRow, links: map<LinkKey, Outcome>, batch: BatchId): BatchRow {
    row.(
    processed := |LinksWith(links, batch, EventProcessed)|,
    rejected := |LinksWith(links, batch, EventRejected)|,
    status := Processing,
    completed := false)
  }

  // ----- Accepting a batch -----

  predicate DistinctEvents(events: seq<Observation>) {
    forall i, j :: 0 <= i < j < |events| ==> events[i].eventId != events[j].eventId
  }

  /** The immutable part of an observation; its fingerprint hash is taken as injective. */
  predicate SamePayload(a: Observation, b: Observation) {
    && a.antenna == b.antenna && a.device == b.device && a.epc == b.epc && a.observedAt == b.observedAt
    && a.rssi == b.rssi && a.location == b.location
  }

  /** First acceptance wins: an id already in the ledger is not inserted again. */
  function LedgerWith(ledger: map<EventId, LedgerRow>, events: seq<Observation>): (r: map<EventId, LedgerRow>) {
    if events == [] then ledger
    else
      var front := LedgerWith(ledger, events[..|events| - 1]);
      var last := events[|events| - 1];
      if last.eventId in front then front else front[last.eventId := LedgerRow(last, UNTOUCHED)]
  }

  function QueueWith(
    queue: map<EventId, QueueRow>, ledger: map<EventId, LedgerRow>, events: seq<Observation>, first: nat)
    : (map<EventId, QueueRow>, nat)
  {
    if events == [] then (queue, first)
    else
      var (front, next) := QueueWith(queue, ledger, events[..|events| - 1], first);
      var last := events[|events| - 1];
      if last.eventId in ledger then (front, next)
      else (front[last.eventId := QueueRow(last, next, false, 0)], next + 1)
  }

  function LinksWithBatch(
    links: map<LinkKey, Outcome>, ledger: map<EventId, LedgerRow>, batch: BatchId, events: seq<Observation>)
    : map<LinkKey, Outcome>
    requires forall i :: 0 <= i < |events| ==> events[i].eventId in ledger
  {
    if events == [] then links
    else
      var last := events[|events| - 1];
      LinksWithBatch(links, ledger, batch,
          events[..|events| - 1])[LinkKey(batch, last.eventId) := ledger[last.eventId].outcome]
  }

  lemma {:induction false} LedgerWithKeys(ledger: map<EventId, LedgerRow>, events: seq<Observation>)
    ensures forall id :: id in LedgerWith(ledger, events) <==> id in ledger || exists i ::
            0 <= i < |events| && events[i].eventId == id
    ensures forall id :: id in ledger ==> LedgerWith(ledger, events)[id] == ledger[id]
    ensures forall id :: id in LedgerWith(ledger, events) && id !in ledger ==>
              LedgerWith(ledger, events)[id].outcome == UNTOUCHED && LedgerWith(ledger, events)[id].event.eventId == id
  {
    if events != [] {
      var before := events[..|events| - 1];
      LedgerWithKeys(ledger, before);
      forall id
        ensures id in LedgerWith(ledger, events) <==> id in ledger || exists i ::
                0 <= i < |events| && events[i].eventId == id
      {
        if exists i :: 0 <= i < |before| && before[i].eventId == id {
          var i :| 0 <= i < |before| && before[i].eventId == id;
          assert events[i].eventId == id;
        }
        if exists i :: 0 <= i < |events| && events[i].eventId == id {
          var i :| 0 <= i < |events| && events[i].eventId == id;
          assert i < |before| ==> before[i].eventId == id;
        }
      }
    }
  }

  /** How many of a request's events have a status, an event already known counting with its old one. */
  function CountEvents(events: seq<Observation>, ledger: map<EventId, LedgerRow>, status: EventStatus): nat
    requires forall i :: 0 <= i < |events| ==> events[i].eventId in ledger
  {
    if events == [] then 0
    else
      CountEvents(events[..|events| - 1], ledger, status)
      + if ledger[events[|events| - 1].eventId].outcome.status == status then 1 else 0
  }

  /** The whole acceptance transaction after the events have been resolved. */
  function AcceptEvents(inbox: Inbox, batch: BatchId, events: seq<Observation>): Result<Inbox, AcceptError>
  {
    var ledger := LedgerWith(inbox.ledger, events);
    LedgerWithKeys(inbox.ledger, events);
    if exists i :: 0 <= i < |events| && !SamePayload(ledger[events[i].eventId].event, events[i]) then
      Err(EventIdConflict)
    else
      var (queue, next) := QueueWith(inbox.queue, inbox.ledger, events, inbox.nextSequence);
      var links := LinksWithBatch(inbox.links, ledger, batch, events);
      var row := BatchRow(|events|, 0, 0, Accepted, false);
      var initial := Reached(row, CountEvents(events, ledger, EventProcessed),
          CountEvents(events, ledger, EventRejected));
      Ok(Inbox(ledger, queue, links, inbox.batches[batch := initial], inbox.quarantines, next))
  }

  function AcceptBatch(
    inbox: Inbox, token: DeviceId, q: BatchRequest, assignments: seq<Assignment>, batch: BatchId, receivedAt: Time)
    : Result<Inbox, AcceptError>
  {
    if q.device != token then Err(DeviceTokenMismatch)
    else if ResolveAssignment(assignments, receivedAt).None? then Err(AssignmentUnavailable)
    else
      var events := BuildEvents(q, q.observations, assignments, batch, receivedAt);
      if events.None? then Err(AssignmentUnavailable)
      else AcceptEvents(inbox, batch, events.value)
  }

  // ----- Finalizing an event -----

  function BatchesOf(links: map<LinkKey, Outcome>, event: EventId): set<BatchId> {
    set k | k in links && k.event == event :: k.batch
  }

  function LinksSet(links: map<LinkKey, Outcome>, event: EventId, outcome: Outcome): map<LinkKey, Outcome> {
    map k | k in links :: if k.event == event then outcome else links[k]
  }

  datatype FinalizeError = LedgerMissing | BatchMissing

  /** Finalize one event and every batch that carried it; a finalized event stays as it is. */
  function Finalize(inbox: Inbox, event: EventId, outcome: Outcome): (r: Result<Inbox, FinalizeError>)
    ensures r.Ok? ==> r.value.queue == inbox.queue
  {
    if event !in inbox.ledger then Err(LedgerMissing)
    else if inbox.ledger[event].outcome.status != EventPending then Ok(inbox)
    else if !(BatchesOf(inbox.links, event) <= inbox.batches.Keys) then Err(BatchMissing)
    else
      var links := LinksSet(inbox.links, event, outcome);
      Ok(inbox.(
         ledger := inbox.ledger[event := inbox.ledger[event].(outcome := outcome)],
         links := links,
         batches := map b | b in inbox.batches ::
           if b in BatchesOf(inbox.links, event) then Recounted(inbox.batches[b], links, b) else inbox.batches[b]))
  }

  function ProcessedAs(d: Disposition): Outcome { Outcome(EventProcessed, Some(d), None) }

  function RejectedFor(r: Reason): Outcome { Outcome(EventRejected, Some(QuarantinedEvent), Some(r)) }

  /** Quarantine keeps the first reason of an event and rejects it. */
  function Quarantine(inbox: Inbox, event: EventId, batch: BatchId, reason: Reason): (r: Result<Inbox, FinalizeError>)
    ensures r.Ok? ==> r.value.queue == inbox.queue
  {
    var kept :=
      if event in inbox.quarantines then inbox
      else inbox.(quarantines := inbox.quarantines[event := QuarantineRow(batch, reason)]);
    Finalize(kept, event, RejectedFor(reason))
  }

  // ----- The worker's bookkeeping on the queue row -----

  /** The worker takes only rows that are not published. */
  predicate Takeable(inbox: Inbox, id: EventId) {
    id in inbox.queue && !inbox.queue[id].published
  }

  function MarkPublished(inbox: Inbox, event: EventId): Inbox
    requires event in inbox.queue
  {
    var row := inbox.queue[event];
    inbox.(queue := inbox.queue[event := row.(published := true, attempts := row.attempts + 1)])
  }

  /** A failed attempt; the last allowed one rejects the event for good. */
  function FailAttempt(inbox: Inbox, event: EventId, maxAttempts: nat): Result<Inbox, FinalizeError>
    requires event in inbox.queue
  {
    var row := inbox.queue[event].(attempts := inbox.queue[event].attempts + 1);
    if row.attempts >= maxAttempts then
      match Quarantine(inbox, event, row.payload.batch, AttemptsExhausted)
      case Err(e) => Err(e)
      case Ok(next) => Ok(next.(queue := next.queue[event := row.(published := true)]))
    else Ok(inbox.(queue := inbox.queue[event := row]))
  }

  // ----- Operator replay -----

  datatype ReplayError = QuarantineNotFound | LedgerIncomplete | StateInconsistent | LinkMissing | ReplayBatchMissing

  function ReplayPayload(row: LedgerRow, event: EventId, quarantine: QuarantineRow): Observation {
    row.event.(batch := quarantine.batch, replayedFrom := Some(event))
  }

  /** Requeue one rejected event; asking again, or for a processed event, changes nothing. */
  function QueueReplay(inbox: Inbox, event: EventId): Result<(Inbox, bool), ReplayError> {
    if event !in inbox.quarantines then Err(QuarantineNotFound)
    else if event !in inbox.ledger || event !in inbox.queue then Err(LedgerIncomplete)
    else
      match inbox.ledger[event].outcome.status
      case EventProcessed => Ok((inbox, false))
      case EventPending => if inbox.queue[event].published then Err(StateInconsistent) else Ok((inbox, false))
      case EventRejected =>
        var touched := BatchesOf(inbox.links, event);
        if touched == {} then Err(LinkMissing)
        else if !(touched <= inbox.batches.Keys) then Err(ReplayBatchMissing)
        else
          var links := LinksSet(inbox.links, event, REQUEUED);
          var payload := ReplayPayload(inbox.ledger[event], event, inbox.quarantines[event]);
          Ok((inbox.(
              ledger := inbox.ledger[event := inbox.ledger[event].(outcome := REQUEUED)],
              links := links,
              batches := map b | b in inbox.batches ::
                if b in touched then Reopened(inbox.batches[b], links, b) else inbox.batches[b],
              queue := inbox.queue[event := inbox.queue[event].(payload := payload, published := false,
                  attempts := 0)]),
              true))
  }
}
