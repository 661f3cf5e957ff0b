/**
 How one attempt at a queue row ends, said by the fields of the read, of the listed bindings
 and of the tables: which refusal it gets, when it is late, and under which SKU it moves an item.
 */
module EventWorkerOutcomes {
  import opened Basics
  import opened Observations
  import opened RecentObservations
  import opened StableZones
  import opened Bindings
  import opened Inboxes
  import opened Inventories
  import opened EventWorkers
  import opened EventWorkerInvariants
  import InboxInvariants
  import InboxOutcomes
  import OrderedDicts
  import Readings

  // ----- The binding of a read -----

  /** The half-open interval of the binding contains the time. */
  predicate CoversTime(b: Binding, at: Time) {
    b.from <= at && (b.to.Some? ==> at < b.to.value)
  }

  /** Of the bindings that contain the time, one with the latest start. */
  ghost predicate EffectiveAt(bindings: seq<Binding>, at: Time, b: Binding) {
    && b in bindings && CoversTime(b, at)
    && forall x :: x in bindings && CoversTime(x, at) ==> x.from <= b.from
  }

  ghost predicate NoneAt(bindings: seq<Binding>, at: Time) {
    forall b :: b in bindings ==> !CoversTime(b, at)
  }

  /** Of the open bindings that have begun, one with the latest start. */
  ghost predicate OpenAt(bindings: seq<Binding>, now: Time, b: Binding) {
    && b in bindings && b.from <= now && b.to == None
    && forall x :: x in bindings && x.from <= now && x.to == None ==> x.from <= b.from
  }

  ghost predicate NoneOpen(bindings: seq<Binding>, now: Time) {
    forall b :: b in bindings ==> !(b.from <= now && b.to == None)
  }

  /** An operator's replay of this read's own quarantine for an unknown EPC. */
  predicate OwnReplay(inbox: Inbox, event: Observation) {
    && event.replayedFrom == Some(event.eventId)
    && event.eventId in inbox.quarantines && inbox.quarantines[event.eventId].reason == UnknownEpc
  }

  /** The SKU of a read and the time before which no read may support it. */
  ghost predicate SoldAs(inbox: Inbox, event: Observation, env: Environment, sku: SkuId, notBefore: Option<Time>) {
    if NoneAt(env.bindings, event.observedAt) then
      && OwnReplay(inbox, event) && notBefore == None
      && exists b :: OpenAt(env.bindings, env.processorTime, b) && b.sku == sku
    else
      exists b :: EffectiveAt(env.bindings, event.observedAt, b) && b.sku == sku && notBefore == Some(b.from)
  }

  ghost predicate Unsold(inbox: Inbox, event: Observation, env: Environment) {
    && NoneAt(env.bindings, event.observedAt)
    && (OwnReplay(inbox, event) ==> NoneOpen(env.bindings, env.processorTime))
  }

  lemma BindingForIs(inbox: Inbox, event: Observation, env: Environment)
    ensures
      match BindingFor(inbox, event, env)
      case Some((sku, notBefore)) => SoldAs(inbox, event, env, sku, notBefore) && !Unsold(inbox, event, env)
      case None => Unsold(inbox, event, env)
  {
    var at, now := event.observedAt, env.processorTime;
    forall b: Binding
      ensures ActiveAt(b, at) <==> CoversTime(b, at)
      ensures OpenSince(b, now) <==> b.from <= now && b.to == None
    {
    }
    match Resolve(env.bindings, at)
    case Some(b) =>
      assert EffectiveAt(env.bindings, at, b);
    case None =>
      assert NoneAt(env.bindings, at);
      match ResolveOpen(env.bindings, now)
      case Some(b) => assert OpenAt(env.bindings, now, b);
      case None => assert NoneOpen(env.bindings, now);
  }

  // ----- Outcomes -----

  predicate TooFarAhead(event: Observation, env: Environment, skew: nat) {
    event.observedAt - event.receivedAt > skew || event.observedAt - env.processorTime > skew
  }

  /** The item, or a processed read of it, is known to have been seen later. */
  ghost predicate SeenLater(inbox: Inbox, inv: Inventory, event: Observation) {
    || (event.epc in inv.items && event.observedAt < inv.items[event.epc].lastObservedAt)
    || exists id :: id in inbox.ledger && inbox.ledger[id].event.epc == event.epc
         && inbox.ledger[id].outcome.status == EventProcessed && event.observedAt < inbox.ledger[id].event.observedAt
  }

  predicate IsGone(inv: Inventory, epc: Epc) { epc in inv.items && inv.items[epc].removal.Some? }

  function RejectedAs(reason: Reason): Outcome { Outcome(EventRejected, Some(QuarantinedEvent), Some(reason)) }

  function EndedAs(d: Disposition): Outcome { Outcome(EventProcessed, Some(d), None) }

  /** The first check that a read fails decides; a read that passes them all becomes evidence. */
  ghost predicate EndsAs(s: State, event: Observation, env: Environment, skew: nat, o: Outcome) {
    if TooFarAhead(event, env, skew) then o == RejectedAs(ObservedTooFarInFuture)
    else if env.assignment.Err? then o == RejectedAs(AssignmentFailed(env.assignment.error))
    else if Unsold(s.inbox, event, env) then o == RejectedAs(UnknownEpc)
    else if SeenLater(s.inbox, s.inventory, event) then o == EndedAs(Late)
    else if IsGone(s.inventory, event.epc) then o == EndedAs(RemovedItemObserved)
    else o == EndedAs(Observations.Processed) || o == EndedAs(Ambiguous)
  }

  ghost predicate BecomesEvidence(s: State, event: Observation, env: Environment, skew: nat) {
    && !TooFarAhead(event, env, skew) && env.assignment.Ok? && !Unsold(s.inbox, event, env)
    && !SeenLater(s.inbox, s.inventory, event) && !IsGone(s.inventory, event.epc)
  }

  lemma LateIffSeenLater(inbox: Inbox, inv: Inventory, event: Observation)
    ensures Before(event.observedAt, Watermark(inv, event.epc, ProcessedWatermark(inbox.ledger, event.epc))) <==>
            SeenLater(inbox, inv, event)
  {
    var w := ProcessedWatermark(inbox.ledger, event.epc);
    assert IsNewest(inbox.ledger, event.epc, w);
    if w.Some? {
      var id :| id in inbox.ledger && CountsFor(inbox.ledger[id], event.epc)
          && inbox.ledger[id].event.observedAt == w.value;
    }
  }

  lemma AdmittedAs(s: State, event: Observation, env: Environment, settings: Settings)
    ensures
      match Admit(s.inbox, s.inventory, event, env, settings)
      case Refused(reason) => EndsAs(s, event, env, settings.maxFutureSkew, RejectedAs(reason))
                              && !BecomesEvidence(s, event, env, settings.maxFutureSkew)
      case Settled(d) => EndsAs(s, event, env, settings.maxFutureSkew, EndedAs(d))
                         && !BecomesEvidence(s, event, env, settings.maxFutureSkew)
      case Admitted(l, sku, notBefore) =>
        && BecomesEvidence(s, event, env, settings.maxFutureSkew)
        && l == env.assignment.value && SoldAs(s.inbox, event, env, sku, notBefore)
  {
    BindingForIs(s.inbox, event, env);
    LateIffSeenLater(s.inbox, s.inventory, event);
  }

  lemma UnusedOutcome(s: State, id: EventId, v: Verdict)
    requires InboxInvariants.InboxOk(s.inbox) && Takeable(s.inbox, id) && !v.Admitted?
    ensures
      var next := UnusedInbox(s.inbox, id, v);
      id in next.ledger && next.ledger[id].outcome == if v.Refused? then RejectedAs(v.reason)
          else EndedAs(v.disposition)
  {
    PayloadOf(s.inbox, id);
    match v
    case Refused(reason) => InboxInvariants.RejectCommits(s.inbox, id, s.inbox.queue[id].payload.batch, reason);
    case Settled(d) => InboxInvariants.SucceedCommits(s.inbox, id, ProcessedAs(d));
  }

  lemma ProcessedOutcome(inbox: Inbox, id: EventId, d: Disposition)
    requires InboxInvariants.InboxOk(inbox) && Takeable(inbox, id)
    ensures
      var next := EventWorkerInvariants.Processed(inbox, id, d);
      id in next.ledger && next.ledger[id].outcome == EndedAs(d)
  {
    PayloadOf(inbox, id);
    InboxInvariants.SucceedCommits(inbox, id, ProcessedAs(d));
  }

  lemma ConcludesProcessed(s: State, event: Observation, env: Environment, c: Config)
    requires ValidSettings(c.settings) && Admit(s.inbox, s.inventory, event, env, c.settings).Admitted?
    ensures AdmittedResult(s, event, env, c).4 == Observations.Processed
            || AdmittedResult(s, event, env, c).4 == Ambiguous
  {
    Readings.ConcludesAs(s.inventory, AdmittedResult(s, event, env, c).2, c.settings.lastSeenFlush);
  }

  lemma AdmittedOutcome(s: State, id: EventId, env: Environment, c: Config)
    requires Ready(s, id, env, c) && env.fault.None?
    requires Admit(s.inbox, s.inventory, s.inbox.queue[id].payload, env, c.settings).Admitted?
    ensures
      var next := TakeRow(s, id, env, c).0;
      && id in next.inbox.ledger
      && (next.inbox.ledger[id].outcome == EndedAs(Observations.Processed)
          || next.inbox.ledger[id].outcome == EndedAs(Ambiguous))
  {
    ProcessedOutcome(s.inbox, id, AdmittedResult(s, s.inbox.queue[id].payload, env, c).4);
    AdmittedCommits(s, id, env, c);
    ConcludesProcessed(s, s.inbox.queue[id].payload, env, c);
  }

  /** An attempt that meets no fault commits, and the read ends as its fields and the tables say. */
  lemma TakenAs(s: State, id: EventId, env: Environment, c: Config)
    requires Ready(s, id, env, c) && env.fault.None?
    ensures
      var event := s.inbox.queue[id].payload;
      var (next, attempt) := TakeRow(s, id, env, c);
      && attempt == Committed && id in next.inbox.ledger
      && EndsAs(s, event, env, c.settings.maxFutureSkew, next.inbox.ledger[id].outcome)
      && (!BecomesEvidence(s, event, env, c.settings.maxFutureSkew) ==> next.inventory == s.inventory)
  {
    var event := s.inbox.queue[id].payload;
    var v := Admit(s.inbox, s.inventory, event, env, c.settings);
    AdmittedAs(s, event, env, c.settings);
    if v.Admitted? {
      AdmittedCommits(s, id, env, c);
      AdmittedOutcome(s, id, env, c);
    } else {
      UnusedCommits(s, id, env, c);
      UnusedOutcome(s, id, v);
    }
  }

  /** An attempt that meets a fault is counted, and the last allowed one rejects the event; no table else changes. */
  lemma FaultedAs(s: State, id: EventId, env: Environment, c: Config)
    requires Ready(s, id, env, c) && env.fault.Some?
    ensures
      var row := s.inbox.queue[id];
      var last := c.settings.maxAttempts <= row.attempts + 1;
      var (next, attempt) := TakeRow(s, id, env, c);
      && attempt == (if last then Terminalized else Stopped) && next.inventory == s.inventory
      && next.inbox.queue == s.inbox.queue[id := QueueRow(row.payload, row.sequence, last, row.attempts + 1)]
      && id in s.inbox.ledger && id in next.inbox.ledger
      && next.inbox.ledger[id].outcome == (if last then RejectedAs(AttemptsExhausted) else s.inbox.ledger[id].outcome)
  {
    FaultResult(s, id, env, c);
    InboxOutcomes.FailOutcome(s.inbox, id, c.settings.maxAttempts);
  }

  /** An event that this worker remembers ends as a duplicate, and leaves inventory and windows alone. */
  lemma RememberedIsDuplicate(s: State, event: Observation, env: Environment, c: Config)
    requires ValidSettings(c.settings)
    requires OrderedDicts.Contains(s.evidence.eventIds, event.eventId) && event.replayedFrom.None?
    ensures
      var (evidence, work) := Process(s, event, env, c);
      && evidence.windows == s.evidence.windows
      && (work.Ok? ==>
            && work.value.1 == s.inventory && work.value.2 == Duplicate && event.eventId in s.inbox.ledger
            && (s.inbox.ledger[event.eventId].outcome.status == EventPending ==>
                  && event.eventId in work.value.0.ledger
                  && work.value.0.ledger[event.eventId].outcome == EndedAs(Duplicate)))
  {
    InboxOutcomes.FinalizeOutcome(s.inbox, event.eventId, ProcessedAs(Duplicate));
  }

  /** A queue row whose event has ended is only taken off the queue. */
  lemma EndedIsSkipped(s: State, id: EventId, env: Environment, c: Config)
    requires ValidSettings(c.settings) && Takeable(s.inbox, id) && env.fault.None?
    requires
      var e := s.inbox.queue[id].payload.eventId;
      e in s.inbox.ledger && s.inbox.ledger[e].outcome.status != EventPending
    ensures
      var row := s.inbox.queue[id];
      var (next, attempt) := TakeRow(s, id, env, c);
      && attempt == Committed && next.inventory == s.inventory && next.evidence == s.evidence
      && next.inbox == s.inbox.(queue := s.inbox.queue[id := row.(published := true, attempts := row.attempts + 1)])
  {
  }

  // ----- What a read that becomes evidence is judged by -----

  /** The reads kept of the item, this one among them, that are recent enough and not from before the binding. */
  ghost predicate JudgedBy(
    e: Evidence, read: Observation, seconds: nat, notBefore: Option<Time>, window: seq<Observation>)
  {
    && DistinctReads(window)
    && forall o :: o in window <==>
         && (o in WindowOf(e, read.epc) || o == read)
         && read.observedAt - o.observedAt <= seconds && (notBefore.Some? ==> notBefore.value <= o.observedAt)
  }

  /** The place decided on is the decisive one, with the times of its latest read; without one there is none. */
  ghost predicate DecidedBy(window: seq<Observation>, settings: Settings, d: Option<Decision>) {
    && (d.Some? ==> Decisive(window, d.value.location, settings)
                    && LatestAt(window, d.value.location, d.value.observedAt, d.value.receivedAt))
    && (d.None? ==> forall l :: !Decisive(window, l, settings))
  }

  /** What the inventory is told of a read. */
  ghost predicate ToldAs(
    s: State, event: Observation, env: Environment, settings: Settings, r: Reading, notBefore: Option<Time>,
    window: seq<Observation>)
    requires env.assignment.Ok?
  {
    && r.epc == event.epc && r.observedAt == event.observedAt && r.receivedAt == event.receivedAt
    && SoldAs(s.inbox, event, env, r.sku, notBefore)
    && JudgedBy(
         s.evidence, event.(location := env.assignment.value), settings.confirmationWindow, notBefore, window)
    && DecidedBy(window, settings, r.decision)
    && r.locations == (set o | o in window :: o.location)
    && IsNewest(s.inbox.ledger, event.epc, r.processedWatermark)
  }

  ghost predicate ConcludesFrom(
    s: State, next: Inventory, d: Disposition, event: Observation, env: Environment, settings: Settings)
    requires env.assignment.Ok?
  {
    exists r, notBefore, window {:trigger ToldAs(s, event, env, settings, r, notBefore, window)} ::
      && ToldAs(s, event, env, settings, r, notBefore, window)
      && Readings.ConcludedAs(s.inventory, next, d, r, settings.lastSeenFlush)
  }

  lemma AdmittedJudged(s: State, event: Observation, env: Environment, c: Config)
    requires EvidenceOk(s.inbox, s.inventory, s.evidence, c.limits) && !Holds(s.evidence, event.eventId)
    requires Admit(s.inbox, s.inventory, event, env, c.settings).Admitted?
    ensures
      var v := Admit(s.inbox, s.inventory, event, env, c.settings);
      JudgedBy(
        s.evidence, ResolvedEvent(event, v.location), c.settings.confirmationWindow, v.notBefore,
        WindowAfter(s, event, env, c))
  {
    var v := Admit(s.inbox, s.inventory, event, env, c.settings);
    var before, read := WindowOf(s.evidence, event.epc), ResolvedEvent(event, v.location);
    AdmittedIsNewest(s, event, env, c);
    assert WindowOk(s.inbox, s.inventory, event.epc, before);
    ExtendedDistinct(before, read, c.settings.confirmationWindow, v.notBefore);
    ExtendedByNewest(before, read, c.settings.confirmationWindow, v.notBefore);
  }

  /** What a newest read leaves of its window. */
  lemma ExtendedByNewest(window: seq<Observation>, read: Observation, seconds: nat, notBefore: Option<Time>)
    requires forall o :: o in window ==> o.observedAt <= read.observedAt
    ensures forall o :: o in Extended(window, read, seconds, notBefore) <==>
              && (o in window || o == read)
              && read.observedAt - o.observedAt <= seconds && (notBefore.Some? ==> notBefore.value <= o.observedAt)
  {
    var all := window + [read];
    assert read in all;
    assert forall o :: o in all <==> o in window || o == read;
  }

  lemma InferredIsDecided(window: seq<Observation>, settings: Settings)
    requires ValidSettings(settings)
    ensures DecidedBy(window, settings, InferStableZone(window, settings))
  {
    DecisionIsDecisive(window, settings);
  }

  lemma MarkedWindows(e: Evidence, event: Observation, limits: Limits)
    ensures Marked(e, event, limits).0.windows == e.windows
  {
  }

  lemma AdmittedWindowAfter(s: State, event: Observation, env: Environment, c: Config)
    requires ValidSettings(c.settings) && Admit(s.inbox, s.inventory, event, env, c.settings).Admitted?
    ensures AdmittedResult(s, event, env, c).1 == WindowAfter(s, event, env, c)
  {
    MarkedWindows(s.evidence, event, c.limits);
  }

  lemma AdmittedTold(s: State, event: Observation, env: Environment, c: Config)
    requires ValidSettings(c.settings) && EvidenceOk(s.inbox, s.inventory, s.evidence, c.limits)
    requires !Holds(s.evidence, event.eventId)
    requires Admit(s.inbox, s.inventory, event, env, c.settings).Admitted? && env.assignment.Ok?
    ensures
      var v := Admit(s.inbox, s.inventory, event, env, c.settings);
      var (added, window, reading, inv, d) := AdmittedResult(s, event, env, c);
      ToldAs(s, event, env, c.settings, reading, v.notBefore, window)
  {
    AdmittedAs(s, event, env, c.settings);
    AdmittedWindowAfter(s, event, env, c);
    AdmittedJudged(s, event, env, c);
    InferredIsDecided(WindowAfter(s, event, env, c), c.settings);
  }

  lemma AdmittedConcludes(s: State, event: Observation, env: Environment, c: Config)
    requires ValidSettings(c.settings) && EvidenceOk(s.inbox, s.inventory, s.evidence, c.limits)
    requires !Holds(s.evidence, event.eventId)
    requires Admit(s.inbox, s.inventory, event, env, c.settings).Admitted? && env.assignment.Ok?
    ensures
      var (added, window, reading, inv, d) := AdmittedResult(s, event, env, c);
      ConcludesFrom(s, inv, d, event, env, c.settings)
  {
    AdmittedTold(s, event, env, c);
    Readings.ConcludesAs(s.inventory, AdmittedResult(s, event, env, c).2, c.settings.lastSeenFlush);
  }

  /**
   A read that becomes evidence leaves its item open, confirms it or moves it as told by the SKU of
   the binding of its time and by the reads kept of the item in its time window.
   */
  lemma EvidenceConcludes(s: State, id: EventId, env: Environment, c: Config)
    requires Ready(s, id, env, c) && env.fault.None?
    requires BecomesEvidence(s, s.inbox.queue[id].payload, env, c.settings.maxFutureSkew)
    ensures
      var next := TakeRow(s, id, env, c).0;
      && id in next.inbox.ledger && next.inbox.ledger[id].outcome.disposition.Some?
      && ConcludesFrom(
           s, next.inventory, next.inbox.ledger[id].outcome.disposition.value, s.inbox.queue[id].payload, env,
           c.settings)
  {
    var event := s.inbox.queue[id].payload;
    AdmittedAs(s, event, env, c.settings);
    PayloadOf(s.inbox, id);
    PendingNotHeld(s.inbox, s.inventory, s.evidence, id, c.limits);
    AdmittedConcludes(s, event, env, c);
    AdmittedCommits(s, id, env, c);
    ProcessedOutcome(s.inbox, id, AdmittedResult(s, event, env, c).4);
  }

  // ----- The SKU and the place of a recorded move -----

  /** The item is where its recent reads decisively put it, under the SKU of the binding of the read's time. */
  ghost predicate RestsOn(
    s: State, item: ItemState, event: Observation, env: Environment, settings: Settings, notBefore: Option<Time>,
    window: seq<Observation>)
    requires env.assignment.Ok?
  {
    && SoldAs(s.inbox, event, env, item.sku, notBefore)
    && JudgedBy(
         s.evidence, event.(location := env.assignment.value), settings.confirmationWindow, notBefore, window)
    && item.location.Some? && Decisive(window, item.location.value, settings)
  }

  /** A row is recorded only for the EPC of a read that becomes evidence, and rests on it. */
  lemma RecordedMove(s: State, id: EventId, env: Environment, c: Config, t: TransitionId)
    requires Ready(s, id, env, c) && env.fault.None?
    requires t in TakeRow(s, id, env, c).0.inventory.outbox && t !in s.inventory.outbox
    ensures
      var event := s.inbox.queue[id].payload;
      var items := TakeRow(s, id, env, c).0.inventory.items;
      && t.epc == event.epc && event.epc in items
      && BecomesEvidence(s, event, env, c.settings.maxFutureSkew)
      && exists notBefore, window :: RestsOn(s, items[event.epc], event, env, c.settings, notBefore, window)
  {
    var event := s.inbox.queue[id].payload;
    TakenAs(s, id, env, c);
    EvidenceConcludes(s, id, env, c);
    var next := TakeRow(s, id, env, c).0;
    MoveRests(s, next.inventory, next.inbox.ledger[id].outcome.disposition.value, event, env, c.settings, t);
  }

  lemma MoveRests(
    s: State, next: Inventory, d: Disposition, event: Observation, env: Environment, settings: Settings,
    t: TransitionId)
    requires env.assignment.Ok? && ConcludesFrom(s, next, d, event, env, settings)
    requires t in next.outbox && t !in s.inventory.outbox
    ensures t.epc == event.epc && event.epc in next.items
    ensures exists notBefore, window :: RestsOn(s, next.items[event.epc], event, env, settings, notBefore, window)
  {
    var r, notBefore, window :| ToldAs(s, event, env, settings, r, notBefore, window)
        && Readings.ConcludedAs(s.inventory, next, d, r, settings.lastSeenFlush);
    assert Readings.MovedTo(s.inventory, next, r, r.decision.value);
    assert RestsOn(s, next.items[event.epc], event, env, settings, notBefore, window);
  }
}
