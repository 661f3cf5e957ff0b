/**
 The event worker: it takes accepted observations in acceptance order, one transaction
 each. The transaction spans the inbox and the inventory tables and is rolled back by an
 exception; the evidence window lives in process memory and is put back by hand.
 */
module EventWorkers {
  import opened Basics
  import opened Observations
  import opened RecentObservations
  import opened StableZones
  import opened Bindings
  import opened FiniteSums
  import opened Inboxes
  import opened Inventories

  datatype Config = Config(settings: Settings, limits: Limits)

  /** What a transaction reads from the clock and the registries, and where it fails, if it does. */
  datatype Environment = Environment(
    processorTime: Time,
    assignment: Result<Location, int>,
    bindings: seq<Binding>,
    fault: Option<seq<EvidenceOp>>)

  datatype State = State(inbox: Inbox, inventory: Inventory, evidence: Evidence)

  // ----- The newest processed read of an item -----

  predicate CountsFor(row: LedgerRow, epc: Epc) {
    row.event.epc == epc && row.outcome.status == EventProcessed
  }

  ghost predicate IsNewest(ledger: map<EventId, LedgerRow>, epc: Epc, w: Option<Time>) {
    && (w.None? ==> forall id :: id in ledger ==> !CountsFor(ledger[id], epc))
    && (w.Some? ==>
          && (exists id :: id in ledger && CountsFor(ledger[id], epc) && ledger[id].event.observedAt == w.value)
          && (forall id :: id in ledger && CountsFor(ledger[id], epc) ==> ledger[id].event.observedAt <= w.value))
  }

  predicate Newer(t: Time, w: Option<Time>) {
    w.None? || w.value < t
  }

  ghost function ProcessedWatermark(ledger: map<EventId, LedgerRow>, epc: Epc): (w: Option<Time>)
    ensures IsNewest(ledger, epc, w)
  {
    if ledger == map[] then None
    else
      var id := AnyKey(ledger);
      var rest := ProcessedWatermark(ledger - {id}, epc);
      assert forall j :: j in ledger ==> j == id || j in ledger - {id};
      if CountsFor(ledger[id], epc) && Newer(ledger[id].event.observedAt, rest) then Some(ledger[id].event.observedAt)
      else
        assert rest.Some? ==> exists j ::
            j in ledger - {id} && CountsFor(ledger[j], epc) && ledger[j].event.observedAt == rest.value;
        rest
  }

  lemma NewestIsUnique(ledger: map<EventId, LedgerRow>, epc: Epc, v: Option<Time>, w: Option<Time>)
    requires IsNewest(ledger, epc, v) && IsNewest(ledger, epc, w)
    ensures v == w
  {
  }

  // ----- Processing one observation -----

  datatype Verdict =
    | Refused(reason: Reason)
    | Settled(disposition: Disposition)
    | Admitted(location: Location, sku: SkuId, notBefore: Option<Time>)

  predicate ReplaysUnknownEpc(inbox: Inbox, event: Observation) {
    && event.replayedFrom == Some(event.eventId)
    && event.eventId in inbox.quarantines && inbox.quarantines[event.eventId].reason == UnknownEpc
  }

  /** The SKU of a read: by its own time, or for the replay of an unknown EPC by what is bound now. */
  function BindingFor(inbox: Inbox, event: Observation, env: Environment): Option<(SkuId, Option<Time>)> {
    match Resolve(env.bindings, event.observedAt)
    case Some(b) => Some((b.sku, Some(b.from)))
    case None =>
      if !ReplaysUnknownEpc(inbox, event) then None
      else
        match ResolveOpen(env.bindings, env.processorTime)
        case Some(b) => Some((b.sku, None))
        case None => None
  }

  /** Every check that comes before a read may become evidence. */
  ghost function Admit(
    inbox: Inbox, inv: Inventory, event: Observation, env: Environment, settings: Settings): Verdict
  {
    if event.observedAt > Min(event.receivedAt, env.processorTime) + settings.maxFutureSkew
        then Refused(ObservedTooFarInFuture)
    else if env.assignment.Err? then Refused(AssignmentFailed(env.assignment.error))
    else
      match BindingFor(inbox, event, env)
      case None => Refused(UnknownEpc)
      case Some((sku, notBefore)) =>
        if Before(event.observedAt, Watermark(inv, event.epc, ProcessedWatermark(inbox.ledger, event.epc)))
            then Settled(Late)
        else if Removed(inv, event.epc) then Settled(RemovedItemObserved)
        else Admitted(env.assignment.value, sku, notBefore)
  }

  function LocationsIn(window: seq<Observation>): set<Location> {
    set o | o in window :: o.location
  }

  ghost function ReadingOf(
    inbox: Inbox, event: Observation, sku: SkuId, window: seq<Observation>, settings: Settings): Reading
    requires ValidSettings(settings)
  {
    Reading(
      event.epc, event.observedAt, event.receivedAt, ProcessedWatermark(inbox.ledger, event.epc), sku,
      InferStableZone(window, settings), LocationsIn(window))
  }

  datatype WorkError = Finalizing(error: FinalizeError) | NoLedger | Faulted

  /** The tables a transaction commits. */
  type Work = Result<(Inbox, Inventory, Disposition), WorkError>

  function Finalized(r: Result<Inbox, FinalizeError>, inv: Inventory, d: Disposition): Work {
    match r
    case Ok(inbox) => Ok((inbox, inv, d))
    case Err(e) => Err(Finalizing(e))
  }

  /** A replayed event may have passed this process before: its marker is released first. */
  function Marked(e: Evidence, event: Observation, limits: Limits): (Evidence, bool) {
    Remember(if event.replayedFrom.Some? then Forget(e, event.eventId) else e, event.eventId, limits)
  }

  function ResolvedEvent(event: Observation, l: Location): Observation {
    event.(location := l)
  }

  ghost function Process(s: State, event: Observation, env: Environment, c: Config): (r: (Evidence, Work))
    requires ValidSettings(c.settings)
    ensures r.1.Ok? ==> r.1.value.0.queue == s.inbox.queue
  {
    var (marked, isNew) := Marked(s.evidence, event, c.limits);
    if !isNew then (marked, Finalized(Finalize(s.inbox, event.eventId, ProcessedAs(Duplicate)), s.inventory, Duplicate))
    else
      match Admit(s.inbox, s.inventory, event, env, c.settings)
      case Refused(reason) =>
        (marked, Finalized(Quarantine(s.inbox, event.eventId, event.batch, reason), s.inventory, QuarantinedEvent))
      case Settled(d) => (marked, Finalized(Finalize(s.inbox, event.eventId, ProcessedAs(d)), s.inventory, d))
      case Admitted(location, sku, notBefore) =>
        var (added, window) :=
          Add(marked, ResolvedEvent(event, location), c.settings.confirmationWindow, notBefore, c.limits);
        var (inv, d) := Conclude(s.inventory, ReadingOf(s.inbox, event, sku, window, c.settings),
            c.settings.lastSeenFlush);
        (added, Finalized(Finalize(s.inbox, event.eventId, ProcessedAs(d)), inv, d))
  }

  // ----- One attempt at a queue row -----

  ghost function Transaction(s: State, event: Observation, env: Environment, c: Config): (r: (Evidence, Work))
    requires ValidSettings(c.settings)
    ensures r.1.Ok? ==> r.1.value.0.queue == s.inbox.queue
  {
    if env.fault.Some? then (RunOps(s.evidence, event, env.fault.value, c.limits), Err(Faulted))
    else if event.eventId !in s.inbox.ledger then (s.evidence, Err(NoLedger))
    else if s.inbox.ledger[event.eventId].outcome.status == EventPending then Process(s, event, env, c)
    else (s.evidence, Ok((s.inbox, s.inventory, Duplicate)))
  }

  datatype Attempt = Skipped | Committed | Terminalized | Stopped

  /** Commit, or put the evidence back and count the failed attempt. */
  ghost function TakeRow(s: State, id: EventId, env: Environment, c: Config): (State, Attempt)
    requires ValidSettings(c.settings)
  {
    if !Takeable(s.inbox, id) then (s, Skipped)
    else
      var event := s.inbox.queue[id].payload;
      var (evidence, work) := Transaction(s, event, env, c);
      match work
      case Ok((inbox, inv, d)) =>
        (State(MarkPublished(inbox, id), inv, evidence), Committed)
      case Err(_) =>
        var rewound := Rewind(evidence, Take(s.evidence, event));
        match FailAttempt(s.inbox, id, c.settings.maxAttempts)
        case Ok(inbox) =>
          (State(inbox, s.inventory, rewound), if s.inbox.queue[id].attempts + 1 >= c.settings.maxAttempts
              then Terminalized else Stopped)
        case Err(_) => (s.(evidence := rewound), Stopped)
  }

  /** One pass over selected rows; a failure that is not terminal ends the pass. */
  ghost function Drain(s: State, ids: seq<EventId>, envs: seq<Environment>, c: Config): (State, nat, bool)
    requires ValidSettings(c.settings) && |envs| == |ids|
    decreases |ids|
  {
    if ids == [] then (s, 0, false)
    else
      var (next, attempt) := TakeRow(s, ids[0], envs[0], c);
      if attempt == Stopped then (next, 0, true)
      else
        var (last, n, stopped) := Drain(next, ids[1..], envs[1..], c);
        (last, n + (if attempt == Skipped then 0 else 1), stopped)
  }

  ghost function Counted(count: nat, rest: (State, nat, bool)): (State, nat, bool) {
    (rest.0, count + rest.1, rest.2)
  }

  /** What remains of a pass at row i. */
  ghost function DrainFrom(s: State, ids: seq<EventId>, envs: seq<Environment>, c: Config, i: nat): (State, nat, bool)
    requires ValidSettings(c.settings) && |envs| == |ids| && i <= |ids|
  {
    Drain(s, ids[i..], envs[i..], c)
  }

  lemma DrainFromStart(s: State, ids: seq<EventId>, envs: seq<Environment>, c: Config)
    requires ValidSettings(c.settings) && |envs| == |ids|
    ensures DrainFrom(s, ids, envs, c, 0) == Drain(s, ids, envs, c)
  {
    assert ids[0..] == ids && envs[0..] == envs;
  }

  lemma DrainEnds(s: State, ids: seq<EventId>, envs: seq<Environment>, c: Config)
    requires ValidSettings(c.settings) && |envs| == |ids|
    ensures DrainFrom(s, ids, envs, c, |ids|) == (s, 0, false)
  {
  }

  lemma DrainFirst(s: State, ids: seq<EventId>, envs: seq<Environment>, c: Config)
    requires ValidSettings(c.settings) && |envs| == |ids| && ids != []
    ensures
      var (next, attempt) := TakeRow(s, ids[0], envs[0], c);
      Drain(s, ids, envs, c) ==
      if attempt == Stopped then (next, 0, true)
      else Counted(if attempt == Skipped then 0 else 1, Drain(next, ids[1..], envs[1..], c))
  {
  }

  lemma DrainStep(s: State, ids: seq<EventId>, envs: seq<Environment>, c: Config, i: nat)
    requires ValidSettings(c.settings) && |envs| == |ids| && i < |ids|
    ensures
      var (next, attempt) := TakeRow(s, ids[i], envs[i], c);
      DrainFrom(s, ids, envs, c, i) ==
      if attempt == Stopped then (next, 0, true)
      else Counted(if attempt == Skipped then 0 else 1, DrainFrom(next, ids, envs, c, i + 1))
  {
    DrainFirst(s, ids[i..], envs[i..], c);
    assert ids[i..][1..] == ids[i + 1..] && envs[i..][1..] == envs[i + 1..];
  }
}
