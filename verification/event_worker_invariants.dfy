/**
 Every accepted event is evidence at most once, over any run of retried batches, failed
 attempts, poison quarantine, operator replay, worker restarts and inventory transactions,
 with any number of worker processes; and a read that passes the late check is a newest
 read of its window.
 */
module EventWorkerInvariants {
  import opened Basics
  import opened Observations
  import opened OrderedDicts
  import opened RecentObservations
  import opened StableZones
  import opened Bindings
  import opened Inboxes
  import opened Inventories
  import opened EventWorkers
  import InboxInvariants
  import InventoryInvariants
  import InventoryRuns

  // ----- The invariant -----

  /** A read held as evidence is a processed ledger row of its item. */
  ghost predicate Witnessed(ledger: map<EventId, LedgerRow>, o: Observation) {
    && o.eventId in ledger && CountsFor(ledger[o.eventId], o.epc)
    && ledger[o.eventId].event.observedAt == o.observedAt
  }

  ghost predicate ReadOk(inbox: Inbox, inv: Inventory, epc: Epc, o: Observation) {
    o.epc == epc && Witnessed(inbox.ledger, o) && KnownLocation(inv, o.location)
  }

  ghost predicate DistinctReads(window: seq<Observation>) {
    forall i, j :: 0 <= i < j < |window| ==> window[i].eventId != window[j].eventId
  }

  ghost predicate WindowOk(inbox: Inbox, inv: Inventory, epc: Epc, window: seq<Observation>) {
    && DistinctReads(window)
    && forall o {:trigger ReadOk(inbox, inv, epc, o)} :: o in window ==> ReadOk(inbox, inv, epc, o)
  }

  /** A remembered id is of an event that was finalized, or requeued by an operator since. */
  ghost predicate RememberedOk(inbox: Inbox, id: EventId) {
    && id in inbox.ledger && id in inbox.queue
    && (inbox.ledger[id].outcome.status == EventPending ==> inbox.queue[id].payload.replayedFrom.Some?)
  }

  ghost predicate EvidenceOk(inbox: Inbox, inv: Inventory, e: Evidence, limits: Limits) {
    && ValidEvidence(e, limits)
    && (forall epc {:trigger WindowOf(e, epc)} :: WindowOk(inbox, inv, epc, WindowOf(e, epc)))
    && (forall id {:trigger RememberedOk(inbox, id)} :: Contains(e.eventIds, id) ==> RememberedOk(inbox, id))
  }

  ghost predicate Holds(e: Evidence, id: EventId) {
    exists epc, o {:trigger o in WindowOf(e, epc)} :: o in WindowOf(e, epc) && o.eventId == id
  }

  datatype System = System(inbox: Inbox, inventory: Inventory, workers: map<int, Evidence>)

  ghost predicate Exclusive(workers: map<int, Evidence>) {
    forall v, w, id {:trigger Holds(workers[v], id), Holds(workers[w], id)} ::
      v in workers && w in workers && v != w && Holds(workers[v], id) ==> !Holds(workers[w], id)
  }

  ghost predicate WorkersOk(s: System, limits: Limits) {
    forall w {:trigger s.workers[w]} :: w in s.workers ==> EvidenceOk(s.inbox, s.inventory, s.workers[w], limits)
  }

  ghost predicate SystemOk(s: System, limits: Limits) {
    && InboxInvariants.InboxOk(s.inbox)
    && WorkersOk(s, limits)
    && Exclusive(s.workers)
  }

  /** An event is held as evidence only once it is processed, and then in one place. */
  lemma EvidenceOnce(s: System, limits: Limits, w: int, epc: Epc, i: nat)
    requires SystemOk(s, limits) && w in s.workers && i < |WindowOf(s.workers[w], epc)|
    ensures
      var o := WindowOf(s.workers[w], epc)[i];
      && o.epc == epc && o.eventId in s.inbox.ledger && s.inbox.ledger[o.eventId].outcome.status == EventProcessed
      && forall v, other, j ::
           (v in s.workers && 0 <= j < |WindowOf(s.workers[v], other)|
               && WindowOf(s.workers[v], other)[j].eventId == o.eventId)
           ==> v == w && other == epc && j == i
  {
    var o := WindowOf(s.workers[w], epc)[i];
    assert EvidenceOk(s.inbox, s.inventory, s.workers[w], limits);
    assert ReadOk(s.inbox, s.inventory, epc, o);
    forall v, other, j | v in s.workers && 0 <= j < |WindowOf(s.workers[v], other)|
                         && WindowOf(s.workers[v], other)[j].eventId == o.eventId
      ensures v == w && other == epc && j == i
    {
      var p := WindowOf(s.workers[v], other)[j];
      assert EvidenceOk(s.inbox, s.inventory, s.workers[v], limits);
      assert p in WindowOf(s.workers[v], other) && ReadOk(s.inbox, s.inventory, other, p);
      assert Holds(s.workers[v], o.eventId);
      assert o in WindowOf(s.workers[w], epc);
      assert Holds(s.workers[w], o.eventId);
    }
  }

  // ----- Tables that only gain -----

  /** What a transaction of another worker or of the inbox can do to an event this worker remembers. */
  ghost predicate Grown(inbox: Inbox, next: Inbox, inv: Inventory, inv': Inventory) {
    && InboxInvariants.Retained(inbox.ledger, next.ledger)
    && inv'.zones == inv.zones
    && (forall id :: RememberedOk(inbox, id) ==> RememberedOk(next, id))
  }

  lemma GrownKeepsWindow(inbox: Inbox, next: Inbox, inv: Inventory, inv': Inventory, epc: Epc, window: seq<Observation>)
    requires Grown(inbox, next, inv, inv') && WindowOk(inbox, inv, epc, window)
    ensures WindowOk(next, inv', epc, window)
  {
    forall o | o in window
      ensures ReadOk(next, inv', epc, o)
    {
      assert ReadOk(inbox, inv, epc, o);
    }
  }

  lemma GrownKeepsEvidence(inbox: Inbox, next: Inbox, inv: Inventory, inv': Inventory, e: Evidence, limits: Limits)
    requires Grown(inbox, next, inv, inv') && EvidenceOk(inbox, inv, e, limits)
    ensures EvidenceOk(next, inv', e, limits)
  {
    forall epc
      ensures WindowOk(next, inv', epc, WindowOf(e, epc))
    {
      GrownKeepsWindow(inbox, next, inv, inv', epc, WindowOf(e, epc));
    }
    forall id | Contains(e.eventIds, id)
      ensures RememberedOk(next, id)
    {
      assert RememberedOk(inbox, id);
    }
  }

  // ----- What a transaction does to the evidence -----

  ghost predicate Marks(e: Evidence, next: Evidence, id: EventId) {
    && next.windows == e.windows
    && (forall j :: Contains(next.eventIds, j) ==> Contains(e.eventIds, j) || j == id)
  }

  lemma {:induction false} AppendContains<K, V>(d: Dict<K, V>, k: K, v: V, j: K)
    ensures Contains(d + [(k, v)], j) <==> Contains(d, j) || j == k
  {
    AppendGet(d, k, v, j);
  }

  lemma PopContains<K, V>(d: Dict<K, V>, k: K, j: K)
    ensures Contains(Pop(d, k), j) <==> Contains(d, j) && j != k
  {
    PopGet(d, k, j);
  }

  lemma TailContains<K, V>(d: Dict<K, V>, maximum: nat, j: K)
    ensures Contains(Trim(d, maximum), j) ==> Contains(d, j)
  {
  }

  lemma RememberMarks(e: Evidence, id: EventId, limits: Limits)
    ensures Marks(e, Remember(e, id, limits).0, id)
  {
    var next := Remember(e, id, limits).0;
    forall j | Contains(next.eventIds, j)
      ensures Contains(e.eventIds, j) || j == id
    {
      if Contains(e.eventIds, id) {
        AppendContains(Pop(e.eventIds, id), id, (), j);
        PopContains(e.eventIds, id, j);
      } else {
        TailContains(e.eventIds + [(id, ())], limits.eventIds, j);
        AppendContains(e.eventIds, id, (), j);
      }
    }
  }

  lemma MarkedMarks(e: Evidence, event: Observation, limits: Limits)
    requires ValidEvidence(e, limits)
    ensures Marks(e, Marked(e, event, limits).0, event.eventId)
    ensures ValidEvidence(Marked(e, event, limits).0, limits)
    ensures Marked(e, event, limits).1 <==> event.replayedFrom.Some? || !Contains(e.eventIds, event.eventId)
  {
    var released := if event.replayedFrom.Some? then Forget(e, event.eventId) else e;
    OpsStayBounded(e, event, ForgetOp, limits);
    OpsStayBounded(released, event, RememberOp, limits);
    RememberMarks(released, event.eventId, limits);
    forall j | Contains(released.eventIds, j)
      ensures Contains(e.eventIds, j)
    {
      PopContains(e.eventIds, event.eventId, j);
    }
    PopContains(e.eventIds, event.eventId, event.eventId);
  }

  lemma {:induction false} RetainDistinct(window: seq<Observation>, cutoff: Time, notBefore: Option<Time>)
    requires DistinctReads(window)
    ensures DistinctReads(Retain(window, cutoff, notBefore))
  {
    if window != [] {
      var rest := Retain(window[1..], cutoff, notBefore);
      RetainDistinct(window[1..], cutoff, notBefore);
      forall o | o in rest
        ensures o.eventId != window[0].eventId
      {
        assert o in window[1..];
      }
    }
  }

  /** A newest read stays in the window it enters, and nothing in that window is later. */
  lemma NewestEnters(window: seq<Observation>, event: Observation, seconds: nat, notBefore: Option<Time>)
    requires forall o :: o in window ==> o.observedAt <= event.observedAt
    requires notBefore.Some? ==> notBefore.value <= event.observedAt
    ensures
      var kept := Extended(window, event, seconds, notBefore);
      && event in kept
      && forall o :: o in kept ==>
           o.observedAt <= event.observedAt && (notBefore.Some? ==> notBefore.value <= o.observedAt)
  {
    assert event in window + [event];
    assert forall o :: o in window + [event] ==> o.observedAt <= event.observedAt;
  }

  lemma AppendDistinctReads(window: seq<Observation>, event: Observation)
    requires DistinctReads(window) && forall o :: o in window ==> o.eventId != event.eventId
    ensures DistinctReads(window + [event])
  {
    var all := window + [event];
    forall i, j | 0 <= i < j < |all|
      ensures all[i].eventId != all[j].eventId
    {
      assert all[i] == window[i];
      if j < |window| {
        assert all[j] == window[j];
      } else {
        assert window[i] in window && all[j] == event;
      }
    }
  }

  lemma ExtendedDistinct(window: seq<Observation>, event: Observation, seconds: nat, notBefore: Option<Time>)
    requires DistinctReads(window) && forall o :: o in window ==> o.eventId != event.eventId
    ensures DistinctReads(Extended(window, event, seconds, notBefore))
  {
    var all := window + [event];
    AppendDistinctReads(window, event);
    RetainDistinct(all, Newest(all) - seconds, notBefore);
  }

  // ----- Admission -----

  /** A queue row describes the ledger row it was created with. */
  lemma PayloadOf(inbox: Inbox, id: EventId)
    requires InboxInvariants.InboxOk(inbox) && Takeable(inbox, id)
    ensures id in inbox.ledger && inbox.ledger[id].outcome.status == EventPending
    ensures
      var event := inbox.queue[id].payload;
      && event.eventId == id && SamePayload(event, inbox.ledger[id].event)
  {
    assert InboxInvariants.EventOk(inbox, id);
  }

  /** A read that is not late is at least as new as everything its window holds. */
  lemma AdmittedIsNewest(s: State, event: Observation, env: Environment, c: Config)
    requires EvidenceOk(s.inbox, s.inventory, s.evidence, c.limits)
    requires Admit(s.inbox, s.inventory, event, env, c.settings).Admitted?
    ensures forall o :: o in WindowOf(s.evidence, event.epc) ==> o.observedAt <= event.observedAt
    ensures
      var notBefore := Admit(s.inbox, s.inventory, event, env, c.settings).notBefore;
      notBefore.Some? ==> notBefore.value <= event.observedAt
  {
    forall o | o in WindowOf(s.evidence, event.epc)
      ensures o.observedAt <= event.observedAt
    {
      assert ReadOk(s.inbox, s.inventory, event.epc, o);
      assert CountsFor(s.inbox.ledger[o.eventId], event.epc);
    }
  }

  /** A worker never finds a pending event among the ids it remembers: nothing ends as a duplicate. */
  lemma PendingIsNew(s: State, id: EventId, c: Config)
    requires InboxInvariants.InboxOk(s.inbox) && EvidenceOk(s.inbox, s.inventory, s.evidence, c.limits)
    requires Takeable(s.inbox, id)
    ensures Marked(s.evidence, s.inbox.queue[id].payload, c.limits).1
  {
    PayloadOf(s.inbox, id);
    MarkedMarks(s.evidence, s.inbox.queue[id].payload, c.limits);
    if Contains(s.evidence.eventIds, id) {
      assert RememberedOk(s.inbox, id);
    }
  }

  // ----- The transaction keeps the evidence rules -----

  lemma PendingNotHeld(inbox: Inbox, inv: Inventory, e: Evidence, id: EventId, limits: Limits)
    requires EvidenceOk(inbox, inv, e, limits)
    requires id in inbox.ledger ==> inbox.ledger[id].outcome.status == EventPending
    ensures !Holds(e, id)
  {
    forall epc, o | o in WindowOf(e, epc)
      ensures o.eventId != id
    {
      assert ReadOk(inbox, inv, epc, o);
    }
  }

  lemma MarksKeep(inbox: Inbox, inv: Inventory, e: Evidence, next: Evidence, id: EventId, limits: Limits)
    requires EvidenceOk(inbox, inv, e, limits) && Marks(e, next, id) && ValidEvidence(next, limits)
    requires RememberedOk(inbox, id)
    ensures EvidenceOk(inbox, inv, next, limits)
    ensures forall j :: Holds(next, j) ==> Holds(e, j)
  {
    assert forall epc :: WindowOf(next, epc) == WindowOf(e, epc);
  }

  lemma AddKeeps(
    inbox: Inbox, inv: Inventory, e: Evidence, event: Observation, seconds: nat, notBefore: Option<Time>,
    limits: Limits)
    requires EvidenceOk(inbox, inv, e, limits) && !Holds(e, event.eventId)
    requires ReadOk(inbox, inv, event.epc, event)
    ensures EvidenceOk(inbox, inv, Add(e, event, seconds, notBefore, limits).0, limits)
    ensures forall j :: Holds(Add(e, event, seconds, notBefore, limits).0, j) ==> Holds(e, j) || j == event.eventId
  {
    var (next, window) := Add(e, event, seconds, notBefore, limits);
    var before := WindowOf(e, event.epc);
    OpsStayBounded(e, event, AddOp(event, seconds, notBefore), limits);
    assert event.(epc := event.epc) == event;
    ExtendedDistinct(before, event, seconds, notBefore);
    assert WindowOk(inbox, inv, event.epc, before);
    assert WindowOk(inbox, inv, event.epc, window);
    forall epc
      ensures WindowOk(inbox, inv, epc, WindowOf(next, epc))
      ensures forall o :: o in WindowOf(next, epc) ==> o in WindowOf(e, epc) || o == event
    {
      AddWindows(e, event, seconds, notBefore, limits, epc);
      assert WindowOk(inbox, inv, epc, WindowOf(e, epc));
    }
    forall id | Contains(next.eventIds, id)
      ensures RememberedOk(inbox, id)
    {
    }
  }

  /** Finalizing a pending event: rows are gained, and its id may be remembered from now on. */
  lemma FinalizingGrows(inbox: Inbox, next: Inbox, inv: Inventory, inv': Inventory, id: EventId, o: Outcome)
    requires id in inbox.ledger && inbox.ledger[id].outcome.status == EventPending && o.status != EventPending
    requires id in inbox.queue && inv'.zones == inv.zones
    requires next.ledger == inbox.ledger[id := inbox.ledger[id].(outcome := o)]
    requires next.queue.Keys == inbox.queue.Keys
    requires forall f :: f in inbox.queue ==> next.queue[f].payload == inbox.queue[f].payload
    ensures Grown(inbox, next, inv, inv') && RememberedOk(next, id)
  {
  }

  /** What a committed attempt leaves behind. */
  ghost predicate Advances(s: State, next: State, id: EventId, limits: Limits) {
    && InboxInvariants.InboxOk(next.inbox)
    && Grown(s.inbox, next.inbox, s.inventory, next.inventory)
    && EvidenceOk(next.inbox, next.inventory, next.evidence, limits)
    && forall j :: Holds(next.evidence, j) ==> Holds(s.evidence, j) || j == id
  }

  ghost predicate Ready(s: State, id: EventId, env: Environment, c: Config) {
    && ValidSettings(c.settings)
    && InboxInvariants.InboxOk(s.inbox)
    && EvidenceOk(s.inbox, s.inventory, s.evidence, c.limits)
    && Takeable(s.inbox, id)
    && (env.assignment.Ok? ==> KnownLocation(s.inventory, env.assignment.value))
  }

  /** The inbox after a read that settles without becoming evidence, or is refused. */
  ghost function UnusedInbox(inbox: Inbox, id: EventId, v: Verdict): Inbox
    requires id in inbox.queue && !v.Admitted?
  {
    match v
    case Refused(reason) => InboxInvariants.RejectAndPublish(inbox, id, inbox.queue[id].payload.batch, reason)
    case Settled(d) => InboxInvariants.Succeed(inbox, id, ProcessedAs(d))
  }

  lemma UnusedCommits(s: State, id: EventId, env: Environment, c: Config)
    requires Ready(s, id, env, c) && env.fault.None?
    requires !Admit(s.inbox, s.inventory, s.inbox.queue[id].payload, env, c.settings).Admitted?
    ensures
      var event := s.inbox.queue[id].payload;
      TakeRow(s, id, env, c) ==
      (State(
         UnusedInbox(s.inbox, id, Admit(s.inbox, s.inventory, event, env, c.settings)), s.inventory,
         Marked(s.evidence, event, c.limits).0),
       Committed)
  {
    var event := s.inbox.queue[id].payload;
    PayloadOf(s.inbox, id);
    PendingIsNew(s, id, c);
    match Admit(s.inbox, s.inventory, event, env, c.settings)
    case Refused(reason) => InboxInvariants.RejectCommits(s.inbox, id, event.batch, reason);
    case Settled(d) => InboxInvariants.SucceedCommits(s.inbox, id, ProcessedAs(d));
  }

  lemma UnusedGrows(inbox: Inbox, inv: Inventory, id: EventId, v: Verdict)
    requires InboxInvariants.InboxOk(inbox) && Takeable(inbox, id) && !v.Admitted?
    ensures
      var next := UnusedInbox(inbox, id, v);
      InboxInvariants.InboxOk(next) && Grown(inbox, next, inv, inv) && RememberedOk(next, id)
  {
    PayloadOf(inbox, id);
    match v
    case Refused(reason) =>
      InboxInvariants.RejectKeeps(inbox, id, inbox.queue[id].payload.batch, reason);
      InboxInvariants.RejectCommits(inbox, id, inbox.queue[id].payload.batch, reason);
      FinalizingGrows(inbox, UnusedInbox(inbox, id, v), inv, inv, id, RejectedFor(reason));
    case Settled(d) =>
      InboxInvariants.SucceedKeeps(inbox, id, ProcessedAs(d));
      InboxInvariants.SucceedCommits(inbox, id, ProcessedAs(d));
      FinalizingGrows(inbox, UnusedInbox(inbox, id, v), inv, inv, id, ProcessedAs(d));
  }

  lemma UnusedKeeps(s: State, id: EventId, env: Environment, c: Config)
    requires Ready(s, id, env, c) && env.fault.None?
    requires !Admit(s.inbox, s.inventory, s.inbox.queue[id].payload, env, c.settings).Admitted?
    ensures Advances(s, TakeRow(s, id, env, c).0, id, c.limits)
  {
    var event := s.inbox.queue[id].payload;
    var v := Admit(s.inbox, s.inventory, event, env, c.settings);
    PayloadOf(s.inbox, id);
    UnusedCommits(s, id, env, c);
    UnusedGrows(s.inbox, s.inventory, id, v);
    MarkedMarks(s.evidence, event, c.limits);
    var next := UnusedInbox(s.inbox, id, v);
    GrownKeepsEvidence(s.inbox, next, s.inventory, s.inventory, s.evidence, c.limits);
    MarksKeep(next, s.inventory, s.evidence, Marked(s.evidence, event, c.limits).0, id, c.limits);
  }

  // ----- A read that becomes evidence -----

  /** The window that an admitted read leaves behind. */
  ghost function WindowAfter(s: State, event: Observation, env: Environment, c: Config): seq<Observation>
    requires Admit(s.inbox, s.inventory, event, env, c.settings).Admitted?
  {
    var v := Admit(s.inbox, s.inventory, event, env, c.settings);
    Extended(WindowOf(s.evidence, event.epc), ResolvedEvent(event, v.location), c.settings.confirmationWindow,
        v.notBefore)
  }

  /**
   Late reads never reach the evidence: an admitted read is a newest one of its window, and
   the window holds nothing from before the binding that resolved it.
   */
  lemma AdmittedReadIsNewest(s: State, event: Observation, env: Environment, c: Config)
    requires EvidenceOk(s.inbox, s.inventory, s.evidence, c.limits)
    requires Admit(s.inbox, s.inventory, event, env, c.settings).Admitted?
    ensures
      var v := Admit(s.inbox, s.inventory, event, env, c.settings);
      var window := WindowAfter(s, event, env, c);
      && ResolvedEvent(event, v.location) in window
      && forall o :: o in window ==>
           o.observedAt <= event.observedAt <= o.observedAt + c.settings.confirmationWindow
           && (v.notBefore.Some? ==> v.notBefore.value <= o.observedAt)
  {
    var v := Admit(s.inbox, s.inventory, event, env, c.settings);
    AdmittedIsNewest(s, event, env, c);
    NewestEnters(
      WindowOf(s.evidence, event.epc), ResolvedEvent(event, v.location), c.settings.confirmationWindow, v.notBefore);
  }

  lemma ZonesFixed(inv: Inventory, r: Reading, flush: nat)
    ensures Conclude(inv, r, flush).0.zones == inv.zones
  {
  }

  /** A decision names a place that some read of the window came from. */
  lemma DecisionIsStorable(inbox: Inbox, inv: Inventory, epc: Epc, window: seq<Observation>, settings: Settings)
    requires ValidSettings(settings) && WindowOk(inbox, inv, epc, window)
    ensures
      var d := InferStableZone(window, settings);
      d.Some? ==> KnownLocation(inv, d.value.location)
  {
    DecisionIsDecisive(window, settings);
    var d := InferStableZone(window, settings);
    if d.Some? {
      var o := OccursByRead(window, d.value.location);
      assert ReadOk(inbox, inv, epc, o);
    }
  }

  /** The inventory half of an admitted read is one observation step of the inventory. */
  lemma AdmittedInventory(
    inbox: Inbox, s: State, event: Observation, env: Environment, window: seq<Observation>, c: Config)
    requires ValidSettings(c.settings)
    requires Admit(s.inbox, s.inventory, event, env, c.settings).Admitted?
    requires WindowOk(inbox, s.inventory, event.epc, window)
    ensures
      var v := Admit(s.inbox, s.inventory, event, env, c.settings);
      var reading := ReadingOf(s.inbox, event, v.sku, window, c.settings);
      var next := Conclude(s.inventory, reading, c.settings.lastSeenFlush).0;
      && next == Inventories.RunStep(s.inventory, Item(ObserveStep(reading, c.settings.lastSeenFlush)))
      && next.zones == s.inventory.zones
  {
    var v := Admit(s.inbox, s.inventory, event, env, c.settings);
    var reading := ReadingOf(s.inbox, event, v.sku, window, c.settings);
    DecisionIsStorable(inbox, s.inventory, event.epc, window, c.settings);
    ZonesFixed(s.inventory, reading, c.settings.lastSeenFlush);
    assert Observe(s.inventory, reading, c.settings.lastSeenFlush) ==
        Conclude(s.inventory, reading, c.settings.lastSeenFlush);
  }

  /** The window an admitted read is judged by obeys the rules once the read is processed. */
  lemma AdmittedWindow(
    inbox: Inbox, inv: Inventory, e: Evidence, event: Observation, seconds: nat, notBefore: Option<Time>,
    limits: Limits)
    requires EvidenceOk(inbox, inv, e, limits) && !Holds(e, event.eventId)
    requires ReadOk(inbox, inv, event.epc, event)
    ensures WindowOk(inbox, inv, event.epc, Add(e, event, seconds, notBefore, limits).1)
  {
    var before := WindowOf(e, event.epc);
    assert WindowOk(inbox, inv, event.epc, before);
    ExtendedDistinct(before, event, seconds, notBefore);
    forall o | o in Add(e, event, seconds, notBefore, limits).1
      ensures ReadOk(inbox, inv, event.epc, o)
    {
      assert o in before ==> ReadOk(inbox, inv, event.epc, o);
    }
  }

  /** The inbox after an event is processed, whatever the disposition. */
  ghost function Processed(inbox: Inbox, id: EventId, d: Disposition): Inbox
    requires id in inbox.queue
  {
    InboxInvariants.Succeed(inbox, id, ProcessedAs(d))
  }

  lemma ProcessedKeeps(s: State, id: EventId, inv': Inventory, d: Disposition, c: Config)
    requires InboxInvariants.InboxOk(s.inbox) && EvidenceOk(s.inbox, s.inventory, s.evidence, c.limits)
    requires Takeable(s.inbox, id) && inv'.zones == s.inventory.zones
    ensures
      var next := Processed(s.inbox, id, d);
      && InboxInvariants.InboxOk(next) && Grown(s.inbox, next, s.inventory, inv')
      && EvidenceOk(next, inv', s.evidence, c.limits) && RememberedOk(next, id)
      && id in next.ledger && next.ledger[id].outcome.status == EventProcessed
  {
    PayloadOf(s.inbox, id);
    InboxInvariants.SucceedKeeps(s.inbox, id, ProcessedAs(d));
    InboxInvariants.SucceedCommits(s.inbox, id, ProcessedAs(d));
    var next := Processed(s.inbox, id, d);
    FinalizingGrows(s.inbox, next, s.inventory, inv', id, ProcessedAs(d));
    GrownKeepsEvidence(s.inbox, next, s.inventory, inv', s.evidence, c.limits);
  }

  /** What an admitted read leaves in memory and in the inventory, and how it ends. */
  ghost function AdmittedResult(s: State, event: Observation, env: Environment, c: Config)
    : (Evidence, seq<Observation>, Reading, Inventory, Disposition)
    requires ValidSettings(c.settings)
    requires Admit(s.inbox, s.inventory, event, env, c.settings).Admitted?
  {
    var v := Admit(s.inbox, s.inventory, event, env, c.settings);
    var marked := Marked(s.evidence, event, c.limits).0;
    var (added, window) := Add(marked, ResolvedEvent(event, v.location), c.settings.confirmationWindow, v.notBefore,
        c.limits);
    var reading := ReadingOf(s.inbox, event, v.sku, window, c.settings);
    var (inv, d) := Conclude(s.inventory, reading, c.settings.lastSeenFlush);
    (added, window, reading, inv, d)
  }

  lemma AdmittedProcess(s: State, id: EventId, env: Environment, c: Config)
    requires Ready(s, id, env, c)
    requires Admit(s.inbox, s.inventory, s.inbox.queue[id].payload, env, c.settings).Admitted?
    ensures
      var (added, window, reading, inv, d) := AdmittedResult(s, s.inbox.queue[id].payload, env, c);
      Process(s, s.inbox.queue[id].payload, env, c) == (added, Finalized(Finalize(s.inbox, id, ProcessedAs(d)), inv, d))
  {
    PayloadOf(s.inbox, id);
    PendingIsNew(s, id, c);
  }

  lemma AdmittedCommits(s: State, id: EventId, env: Environment, c: Config)
    requires Ready(s, id, env, c) && env.fault.None?
    requires Admit(s.inbox, s.inventory, s.inbox.queue[id].payload, env, c.settings).Admitted?
    ensures
      var (added, window, reading, inv, d) := AdmittedResult(s, s.inbox.queue[id].payload, env, c);
      TakeRow(s, id, env, c) == (State(Processed(s.inbox, id, d), inv, added), Committed)
  {
    PayloadOf(s.inbox, id);
    AdmittedProcess(s, id, env, c);
    InboxInvariants.SucceedCommits(s.inbox, id, ProcessedAs(AdmittedResult(s, s.inbox.queue[id].payload, env, c).4));
  }

  lemma MarkedForUse(s: State, id: EventId, inv: Inventory, d: Disposition, c: Config)
    requires InboxInvariants.InboxOk(s.inbox) && EvidenceOk(s.inbox, s.inventory, s.evidence, c.limits)
    requires Takeable(s.inbox, id) && inv.zones == s.inventory.zones
    ensures
      var marked := Marked(s.evidence, s.inbox.queue[id].payload, c.limits).0;
      && EvidenceOk(Processed(s.inbox, id, d), inv, marked, c.limits) && !Holds(marked, id)
      && forall j :: Holds(marked, j) ==> Holds(s.evidence, j)
  {
    PayloadOf(s.inbox, id);
    MarkedMarks(s.evidence, s.inbox.queue[id].payload, c.limits);
    ProcessedKeeps(s, id, inv, d, c);
    MarksKeep(Processed(s.inbox, id, d), inv, s.evidence, Marked(s.evidence, s.inbox.queue[id].payload, c.limits).0, id,
        c.limits);
    PendingNotHeld(s.inbox, s.inventory, s.evidence, id, c.limits);
  }

  /** Once processed, the read with its resolved location may be held as evidence. */
  lemma ReadWitnessed(s: State, id: EventId, l: Location, inv: Inventory, d: Disposition, c: Config)
    requires InboxInvariants.InboxOk(s.inbox) && EvidenceOk(s.inbox, s.inventory, s.evidence, c.limits)
    requires Takeable(s.inbox, id) && inv.zones == s.inventory.zones && KnownLocation(inv, l)
    ensures
      var read := ResolvedEvent(s.inbox.queue[id].payload, l);
      ReadOk(Processed(s.inbox, id, d), inv, read.epc, read)
  {
    PayloadOf(s.inbox, id);
    ProcessedKeeps(s, id, inv, d, c);
  }

  /** A marked evidence takes a new read that the inbox bears out. */
  lemma AddedEvidence(
    inbox: Inbox, inv: Inventory, e: Evidence, marked: Evidence, read: Observation, seconds: nat,
    notBefore: Option<Time>, limits: Limits)
    requires EvidenceOk(inbox, inv, marked, limits) && !Holds(marked, read.eventId)
    requires ReadOk(inbox, inv, read.epc, read)
    requires forall j :: Holds(marked, j) ==> Holds(e, j)
    ensures
      var (added, window) := Add(marked, read, seconds, notBefore, limits);
      && EvidenceOk(inbox, inv, added, limits) && WindowOk(inbox, inv, read.epc, window)
      && forall j :: Holds(added, j) ==> Holds(e, j) || j == read.eventId
  {
    AddKeeps(inbox, inv, marked, read, seconds, notBefore, limits);
    AdmittedWindow(inbox, inv, marked, read, seconds, notBefore, limits);
  }

  /** Once processed, a pending read may be added with a known location. */
  lemma TakenAsEvidence(
    s: State, id: EventId, l: Location, notBefore: Option<Time>, inv: Inventory, d: Disposition, c: Config)
    requires InboxInvariants.InboxOk(s.inbox) && EvidenceOk(s.inbox, s.inventory, s.evidence, c.limits)
    requires Takeable(s.inbox, id) && inv.zones == s.inventory.zones && KnownLocation(inv, l)
    ensures
      var event := s.inbox.queue[id].payload;
      var marked := Marked(s.evidence, event, c.limits).0;
      var (added, window) := Add(marked, ResolvedEvent(event, l), c.settings.confirmationWindow, notBefore, c.limits);
      var next := Processed(s.inbox, id, d);
      && EvidenceOk(next, inv, added, c.limits) && WindowOk(next, inv, event.epc, window)
      && forall j :: Holds(added, j) ==> Holds(s.evidence, j) || j == id
  {
    var event := s.inbox.queue[id].payload;
    PayloadOf(s.inbox, id);
    MarkedForUse(s, id, inv, d, c);
    ReadWitnessed(s, id, l, inv, d, c);
    AddedEvidence(
      Processed(s.inbox, id, d), inv, s.evidence, Marked(s.evidence, event, c.limits).0, ResolvedEvent(event, l),
      c.settings.confirmationWindow, notBefore, c.limits);
  }

  lemma AdmittedEvidence(s: State, id: EventId, env: Environment, c: Config)
    requires Ready(s, id, env, c)
    requires Admit(s.inbox, s.inventory, s.inbox.queue[id].payload, env, c.settings).Admitted?
    ensures
      var event := s.inbox.queue[id].payload;
      var (added, window, reading, inv, d) := AdmittedResult(s, event, env, c);
      var next := Processed(s.inbox, id, d);
      && EvidenceOk(next, inv, added, c.limits) && WindowOk(next, inv, event.epc, window)
      && forall j :: Holds(added, j) ==> Holds(s.evidence, j) || j == id
  {
    var event := s.inbox.queue[id].payload;
    var v := Admit(s.inbox, s.inventory, event, env, c.settings);
    var (added, window, reading, inv, d) := AdmittedResult(s, event, env, c);
    ZonesFixed(s.inventory, reading, c.settings.lastSeenFlush);
    TakenAsEvidence(s, id, v.location, v.notBefore, inv, d, c);
  }

  lemma AdmittedKeeps(s: State, id: EventId, env: Environment, c: Config)
    requires Ready(s, id, env, c) && env.fault.None?
    requires Admit(s.inbox, s.inventory, s.inbox.queue[id].payload, env, c.settings).Admitted?
    ensures TakeRow(s, id, env, c).1 == Committed && Advances(s, TakeRow(s, id, env, c).0, id, c.limits)
    ensures
      var reading := AdmittedResult(s, s.inbox.queue[id].payload, env, c).2;
      TakeRow(s, id, env, c).0.inventory
      == Inventories.RunStep(s.inventory, Item(ObserveStep(reading, c.settings.lastSeenFlush)))
  {
    var event := s.inbox.queue[id].payload;
    var (added, window, reading, inv, d) := AdmittedResult(s, event, env, c);
    AdmittedCommits(s, id, env, c);
    AdmittedEvidence(s, id, env, c);
    ZonesFixed(s.inventory, reading, c.settings.lastSeenFlush);
    ProcessedKeeps(s, id, inv, d, c);
    var next := Processed(s.inbox, id, d);
    SameZonesWindow(next, inv, s.inventory, event.epc, window);
    AdmittedInventory(next, s, event, env, window, c);
  }

  lemma SameZonesWindow(inbox: Inbox, inv: Inventory, inv': Inventory, epc: Epc, window: seq<Observation>)
    requires WindowOk(inbox, inv, epc, window) && inv'.zones == inv.zones
    ensures WindowOk(inbox, inv', epc, window)
  {
    forall o | o in window
      ensures ReadOk(inbox, inv', epc, o)
    {
      assert ReadOk(inbox, inv, epc, o);
    }
  }

  // ----- A failed attempt -----

  lemma SameContentsHold<K(!new), V>(a: Dict<K, V>, b: Dict<K, V>, k: K)
    requires SameContents(a, b)
    ensures Contains(a, k) <==> Contains(b, k)
    ensures Get(a, k) == Get(b, k)
  {
  }

  lemma SameEvidenceKeeps(inbox: Inbox, inv: Inventory, e: Evidence, back: Evidence, limits: Limits)
    requires EvidenceOk(inbox, inv, e, limits) && ValidEvidence(back, limits)
    requires SameContents(back.windows, e.windows) && SameContents(back.eventIds, e.eventIds)
    ensures EvidenceOk(inbox, inv, back, limits)
    ensures forall id :: Holds(back, id) ==> Holds(e, id)
  {
    forall epc
      ensures WindowOf(back, epc) == WindowOf(e, epc) && WindowOk(inbox, inv, epc, WindowOf(back, epc))
    {
      SameContentsHold(back.windows, e.windows, epc);
      assert WindowOk(inbox, inv, epc, WindowOf(e, epc));
    }
    forall id | Contains(back.eventIds, id)
      ensures RememberedOk(inbox, id)
    {
      SameContentsHold(back.eventIds, e.eventIds, id);
    }
  }

  /** A fault is recorded against the row, memory is rewound and the inventory is untouched. */
  lemma FaultResult(s: State, id: EventId, env: Environment, c: Config)
    requires Ready(s, id, env, c) && env.fault.Some?
    ensures FailAttempt(s.inbox, id, c.settings.maxAttempts).Ok?
    ensures
      var event := s.inbox.queue[id].payload;
      TakeRow(s, id, env, c) ==
      (State(
         FailAttempt(s.inbox, id, c.settings.maxAttempts).value, s.inventory,
         Rewind(RunOps(s.evidence, event, env.fault.value, c.limits), Take(s.evidence, event))),
       if s.inbox.queue[id].attempts + 1 >= c.settings.maxAttempts then Terminalized else Stopped)
  {
    PayloadOf(s.inbox, id);
    InboxInvariants.FailKeeps(s.inbox, id, c.settings.maxAttempts);
  }

  lemma FaultGrows(inbox: Inbox, inv: Inventory, id: EventId, maxAttempts: nat)
    requires InboxInvariants.InboxOk(inbox) && Takeable(inbox, id)
    ensures FailAttempt(inbox, id, maxAttempts).Ok?
    ensures Grown(inbox, FailAttempt(inbox, id, maxAttempts).value, inv, inv)
  {
    PayloadOf(inbox, id);
    InboxInvariants.FailKeeps(inbox, id, maxAttempts);
  }

  /** Whatever the attempt did to memory, the rollback leaves the evidence as it was. */
  lemma FaultKeeps(s: State, id: EventId, env: Environment, c: Config)
    requires Ready(s, id, env, c) && env.fault.Some?
    ensures
      var next := TakeRow(s, id, env, c).0;
      && Advances(s, next, id, c.limits)
      && SameContents(next.evidence.windows, s.evidence.windows)
      && SameContents(next.evidence.eventIds, s.evidence.eventIds)
  {
    var next := TakeRow(s, id, env, c).0;
    PayloadOf(s.inbox, id);
    FaultResult(s, id, env, c);
    InboxInvariants.FailKeeps(s.inbox, id, c.settings.maxAttempts);
    RestoreUndoes(s.evidence, s.inbox.queue[id].payload, env.fault.value, c.limits);
    FaultGrows(s.inbox, s.inventory, id, c.settings.maxAttempts);
    SameEvidenceKeeps(s.inbox, s.inventory, s.evidence, next.evidence, c.limits);
    GrownKeepsEvidence(s.inbox, next.inbox, s.inventory, s.inventory, next.evidence, c.limits);
  }

  lemma TakeRowKeeps(s: State, id: EventId, env: Environment, c: Config)
    requires Ready(s, id, env, c)
    ensures Advances(s, TakeRow(s, id, env, c).0, id, c.limits)
  {
    if env.fault.Some? {
      FaultKeeps(s, id, env, c);
    } else if Admit(s.inbox, s.inventory, s.inbox.queue[id].payload, env, c.settings).Admitted? {
      AdmittedKeeps(s, id, env, c);
    } else {
      UnusedKeeps(s, id, env, c);
    }
  }
}
