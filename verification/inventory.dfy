/**
 Item states, the transition outbox and the quantity projection, as database tables. An
 item state is changed only together with an outbox row that carries the change of each
 inventory bucket; the projection applies those rows later, at least once, and must agree
 with counting the item states.
 */
module Inventories {
  import opened Basics
  import opened Observations
  import opened StableZones
  import opened FiniteSums

  datatype Bucket = Bucket(location: Location, sku: SkuId)

  datatype TransitionId = TransitionId(epc: Epc, version: nat)

  datatype DeltaId = DeltaId(transition: TransitionId, sku: SkuId, zone: ZoneId)

  datatype Delta = Delta(
    id: DeltaId,
    transition: TransitionId,
    epc: Epc,
    bucket: Bucket,
    quantity: int,
    confidence: real,
    observedAt: Time)

  /** The four states the timestamps of an outbox row can encode under its check constraints. */
  datatype Phase = Pending | Published | Quarantined | Reconciled

  datatype Transition = Transition(id: TransitionId, deltas: seq<Delta>, phase: Phase, attempts: nat)

  datatype Removal = Removal(event: int, removedAt: Time)

  datatype ItemState = ItemState(
    sku: SkuId,
    location: Option<Location>,
    lastObservedAt: Time,
    lastReceivedAt: Time,
    confidence: real,
    version: nat,
    removal: Option<Removal>)

  datatype ExternalKey = ExternalKey(source: int, externalId: int)

  datatype BusinessEvent = BusinessEvent(
    id: int, fingerprint: int, store: StoreId, epc: Epc, occurredAt: Time, transition: TransitionId)

  datatype Inventory = Inventory(
    zones: map<ZoneId, StoreId>,
    items: map<Epc, ItemState>,
    outbox: map<TransitionId, Transition>,
    projection: map<Bucket, nat>,
    applied: set<DeltaId>,
    events: map<ExternalKey, BusinessEvent>)

  const AMBIGUOUS_CONFIDENCE: real := 0.49

  predicate KnownLocation(inv: Inventory, l: Location) {
    l.zone in inv.zones && inv.zones[l.zone] == l.store
  }

  function BucketOf(s: ItemState): Option<Bucket> {
    match s.location
    case None => None
    case Some(l) => Some(Bucket(l, s.sku))
  }

  // ----- Observing an item (after its evidence window has been updated) -----

  /** One admitted read, with what its evidence window says. */
  datatype Reading = Reading(
    epc: Epc,
    observedAt: Time,
    receivedAt: Time,
    processedWatermark: Option<Time>,
    sku: SkuId,
    decision: Option<Decision>,
    locations: set<Location>)

  function Watermark(inv: Inventory, epc: Epc, processed: Option<Time>): Option<Time> {
    if epc !in inv.items then processed
    else if processed.None? then Some(inv.items[epc].lastObservedAt)
    else Some(Max(processed.value, inv.items[epc].lastObservedAt))
  }

  predicate Before(t: Time, watermark: Option<Time>) {
    watermark.Some? && t < watermark.value
  }

  function DeltaFor(t: TransitionId, bucket: Bucket, quantity: int, confidence: real, at: Time): Delta {
    Delta(DeltaId(t, bucket.sku, bucket.location.zone), t, t.epc, bucket, quantity, confidence, at)
  }

  function NextVersion(inv: Inventory, epc: Epc): nat {
    if epc in inv.items then inv.items[epc].version + 1 else 1
  }

  /** Record a confirmed location: the item row and its outbox row change together. */
  function MoveItem(inv: Inventory, r: Reading, d: Decision): Inventory
  {
    var t := TransitionId(r.epc, NextVersion(inv, r.epc));
    var plus := DeltaFor(t, Bucket(d.location, r.sku), 1, d.confidence, d.observedAt);
    var left := if r.epc in inv.items then BucketOf(inv.items[r.epc]) else None;
    var deltas :=
      match left
      case None => [plus]
      case Some(b) => [DeltaFor(t, b, -1, d.confidence, d.observedAt), plus];
    var state := ItemState(
      r.sku,
      Some(d.location),
      Max(r.observedAt, d.observedAt),
      Max(r.receivedAt, d.receivedAt),
      d.confidence,
      t.version,
      if r.epc in inv.items then inv.items[r.epc].removal else None);
    inv.(items := inv.items[r.epc := state],
    outbox := inv.outbox[t := Transition(t, deltas, Pending, 0)])
  }

  predicate FlushDue(s: ItemState, receivedAt: Time, flush: nat) {
    receivedAt - s.lastReceivedAt >= flush
  }

  /** A read that settles nothing: confidence drops and last-seen times may be refreshed. */
  function Unsettled(s: ItemState, r: Reading, lower: bool, flush: nat): ItemState {
    var s := if lower then s.(confidence := MinReal(s.confidence, AMBIGUOUS_CONFIDENCE)) else s;
    if FlushDue(s, r.receivedAt, flush) then
      s.(lastObservedAt := Max(s.lastObservedAt, r.observedAt), lastReceivedAt := r.receivedAt)
    else s
  }

  /** A stable decision for the place where the item already is. */
  function Confirmed(s: ItemState, r: Reading, d: Decision, flush: nat): ItemState {
    var s := if d.confidence > s.confidence then s.(confidence := d.confidence) else s;
    if FlushDue(s, r.receivedAt, flush) then
      s.(lastObservedAt := Max(s.lastObservedAt, Max(d.observedAt, r.observedAt)),
      lastReceivedAt := Max(s.lastReceivedAt, d.receivedAt),
      confidence := d.confidence)
    else s
  }

  predicate SettlesWhereItIs(inv: Inventory, r: Reading, d: Decision) {
    r.epc in inv.items && BucketOf(inv.items[r.epc]) == Some(Bucket(d.location, r.sku))
  }

  function WithItem(inv: Inventory, epc: Epc, s: ItemState): Inventory {
    inv.(items := inv.items[epc := s])
  }

  /** What one admitted read does to the tables. */
  function Conclude(inv: Inventory, r: Reading, flush: nat): (Inventory, Disposition)
  {
    var watermark := Watermark(inv, r.epc, r.processedWatermark);
    if r.decision.None? then
      if r.epc in inv.items then
        var s := inv.items[r.epc];
        var sameEvidence := s.sku == r.sku && s.location.Some? && r.locations == {s.location.value};
        (WithItem(inv, r.epc, Unsettled(s, r, !sameEvidence, flush)), Ambiguous)
      else (inv, Ambiguous)
    else
      var d := r.decision.value;
      if Before(d.observedAt, watermark) then
        if r.epc in inv.items then
          (WithItem(inv, r.epc, Unsettled(inv.items[r.epc], r, true, flush)), Ambiguous)
        else (inv, Ambiguous)
      else if SettlesWhereItIs(inv, r, d) then
        (WithItem(inv, r.epc, Confirmed(inv.items[r.epc], r, d, flush)), Processed)
      else (MoveItem(inv, r, d), Processed)
  }

  predicate Removed(inv: Inventory, epc: Epc) {
    epc in inv.items && inv.items[epc].removal.Some?
  }

  /** The late check and the removal check come before any evidence is used. */
  function Observe(inv: Inventory, r: Reading, flush: nat): (Inventory, Disposition) {
    if Before(r.observedAt, Watermark(inv, r.epc, r.processedWatermark)) then (inv, Late)
    else if Removed(inv, r.epc) then (inv, RemovedItemObserved)
    else Conclude(inv, r, flush)
  }

  // ----- Authoritative removal -----

  datatype RemovalRequest = RemovalRequest(
    key: ExternalKey, fingerprint: int, store: StoreId, epc: Epc, occurredAt: Time)

  datatype RemovalError =
    | StoreNotFound | TooFarInFuture | IdempotencyConflict | ItemNotFound | AlreadyRemoved
    | LocationUnavailable | StoreMismatch | StaleEvent

  function RemoveItem(inv: Inventory, q: RemovalRequest, eventId: int): Inventory
    requires q.epc in inv.items && inv.items[q.epc].location.Some?
  {
    var s := inv.items[q.epc];
    var t := TransitionId(q.epc, s.version + 1);
    var minus := DeltaFor(t, Bucket(s.location.value, s.sku), -1, s.confidence, q.occurredAt);
    inv.(
    items := inv.items[q.epc := s.(location := None, version := t.version,
        removal := Some(Removal(eventId, q.occurredAt)))],
    outbox := inv.outbox[t := Transition(t, [minus], Pending, 0)],
    events := inv.events[q.key := BusinessEvent(eventId, q.fingerprint, q.store, q.epc, q.occurredAt, t)])
  }

  function AcceptRemoval(
    inv: Inventory, q: RemovalRequest, stores: set<StoreId>, eventId: int,
    processed: Option<Time>, now: Time, maxFutureSkew: nat)
    : Result<(Inventory, BusinessEvent, bool), RemovalError>
  {
    if q.store !in stores then Err(StoreNotFound)
    else if q.occurredAt > now + maxFutureSkew then Err(TooFarInFuture)
    else if q.key in inv.events then
      var existing := inv.events[q.key];
      if existing.fingerprint != q.fingerprint then Err(IdempotencyConflict) else Ok((inv, existing, false))
    else if q.epc !in inv.items then Err(ItemNotFound)
    else
      var s := inv.items[q.epc];
      if s.removal.Some? then Err(AlreadyRemoved)
      else if s.location.None? then Err(LocationUnavailable)
      else if s.location.value.store != q.store then Err(StoreMismatch)
      else if Before(q.occurredAt, Watermark(inv, q.epc, processed)) then Err(StaleEvent)
      else
        var next := RemoveItem(inv, q, eventId);
        Ok((next, next.events[q.key], true))
  }

  datatype EventStatus = PendingProjection | Projected | Failed

  function BusinessEventStatus(inv: Inventory, e: BusinessEvent): EventStatus {
    if e.transition !in inv.outbox then Failed
    else
      match inv.outbox[e.transition].phase
      case Published => Projected
      case Reconciled => Projected
      case Quarantined => Failed
      case Pending => PendingProjection
  }

  // ----- Applying deltas to the projection -----

  datatype DeltaError = NoDeltas | WrongTransition | WrongEpc | DuplicateDeltaIds | NegativeProjection

  function StockAt(inv: Inventory, b: Bucket): nat {
    if b in inv.projection then inv.projection[b] else 0
  }

  /** The last delta of each id wins. */
  function UniqueById(deltas: seq<Delta>): map<DeltaId, Delta> {
    if deltas == [] then map[]
    else UniqueById(deltas[..|deltas| - 1])[deltas[|deltas| - 1].id := deltas[|deltas| - 1]]
  }

  function Unapplied(inv: Inventory, deltas: seq<Delta>): map<DeltaId, Delta> {
    var unique := UniqueById(deltas);
    map id | id in unique && id !in inv.applied :: unique[id]
  }

  ghost function QuantityIn(b: Bucket): (DeltaId, Delta) -> int {
    (id: DeltaId, d: Delta) => if d.bucket == b then d.quantity else 0
  }

  ghost function BucketTotal(deltas: map<DeltaId, Delta>, b: Bucket): int {
    MapSum(deltas, QuantityIn(b))
  }

  function BucketsOf(deltas: map<DeltaId, Delta>): set<Bucket> {
    set id | id in deltas :: deltas[id].bucket
  }

  ghost predicate StaysNonNegative(inv: Inventory, pending: map<DeltaId, Delta>) {
    forall b :: b in BucketsOf(pending) ==> 0 <= StockAt(inv, b) + BucketTotal(pending, b)
  }

  ghost function MovedProjection(inv: Inventory, pending: map<DeltaId, Delta>): (p: map<Bucket, nat>)
    requires StaysNonNegative(inv, pending)
  {
    map b | b in inv.projection.Keys + BucketsOf(pending) ::
      if b in BucketsOf(pending) then StockAt(inv, b) + BucketTotal(pending, b) else inv.projection[b]
  }

  /** Add every delta not applied before to its bucket, all or nothing. */
  ghost function ApplyDeltas(inv: Inventory, deltas: seq<Delta>): Result<(Inventory, nat), DeltaError> {
    var pending := Unapplied(inv, deltas);
    if !StaysNonNegative(inv, pending) then Err(NegativeProjection)
    else Ok((inv.(projection := MovedProjection(inv, pending), applied := inv.applied + pending.Keys), |pending|))
  }

  predicate DistinctIds(deltas: seq<Delta>) {
    forall i, j :: 0 <= i < j < |deltas| ==> deltas[i].id != deltas[j].id
  }

  function ValidatedDeltas(t: Transition): Result<seq<Delta>, DeltaError> {
    if t.deltas == [] then Err(NoDeltas)
    else if exists i :: 0 <= i < |t.deltas| && t.deltas[i].transition != t.id then Err(WrongTransition)
    else if exists i :: 0 <= i < |t.deltas| && t.deltas[i].epc != t.id.epc then Err(WrongEpc)
    else if !DistinctIds(t.deltas) then Err(DuplicateDeltaIds)
    else Ok(t.deltas)
  }

  predicate IsPending(inv: Inventory, t: TransitionId) {
    t in inv.outbox && inv.outbox[t].phase == Pending
  }

  /** The worker takes only the lowest pending version of each EPC. */
  ghost predicate EarliestPending(inv: Inventory, t: TransitionId) {
    IsPending(inv, t) && forall u :: IsPending(inv, u) && u.epc == t.epc ==> t.version <= u.version
  }

  function FailTransition(inv: Inventory, t: TransitionId, maxAttempts: nat): Inventory
    requires t in inv.outbox
  {
    var row := inv.outbox[t].(attempts := inv.outbox[t].attempts + 1);
    var row := if row.attempts >= maxAttempts then row.(phase := Quarantined) else row;
    inv.(outbox := inv.outbox[t := row])
  }

  ghost function PublishTransition(inv: Inventory, t: TransitionId): Result<Inventory, DeltaError>
    requires t in inv.outbox
  {
    match ValidatedDeltas(inv.outbox[t])
    case Err(e) => Err(e)
    case Ok(deltas) =>
      match ApplyDeltas(inv, deltas)
      case Err(e) => Err(e)
      case Ok((next, n)) =>
        var row := inv.outbox[t].(phase := Published, attempts := inv.outbox[t].attempts + 1);
        Ok(next.(outbox := next.outbox[t := row]))
  }

  // ----- Rebuilding the projection -----

  ghost predicate HasPending(inv: Inventory) {
    exists t :: IsPending(inv, t)
  }

  ghost function CountIn(b: Bucket): (Epc, ItemState) -> int {
    (epc: Epc, s: ItemState) => if BucketOf(s) == Some(b) then 1 else 0
  }

  /** The number of items whose current state is in a bucket. */
  ghost function LocatedAt(inv: Inventory, b: Bucket): nat {
    MapSumNonNegative(inv.items, CountIn(b));
    MapSum(inv.items, CountIn(b))
  }

  function OccupiedBuckets(items: map<Epc, ItemState>): set<Bucket> {
    set epc | epc in items && items[epc].location.Some? :: Bucket(items[epc].location.value, items[epc].sku)
  }

  lemma OccupiedIsPositive(inv: Inventory, b: Bucket)
    ensures b in OccupiedBuckets(inv.items) <==> LocatedAt(inv, b) > 0
  {
    if b in OccupiedBuckets(inv.items) {
      MapSumNonNegative(inv.items, CountIn(b));
      var epc :| epc in inv.items && BucketOf(inv.items[epc]) == Some(b);
      assert CountIn(b)(epc, inv.items[epc]) == 1;
    } else {
      forall epc | epc in inv.items
        ensures CountIn(b)(epc, inv.items[epc]) == 0
      {
        assert BucketOf(inv.items[epc]) != Some(b);
      }
      MapSumZero(inv.items, CountIn(b));
    }
  }

  /** One projection row per occupied bucket, with its item count. */
  ghost function CountedProjection(inv: Inventory): map<Bucket, nat> {
    map b | b in OccupiedBuckets(inv.items) :: LocatedAt(inv, b)
  }

  function Reconcile(inv: Inventory): Inventory {
    inv.(outbox := map t | t in inv.outbox ::
        if inv.outbox[t].phase == Quarantined then inv.outbox[t].(phase := Reconciled) else inv.outbox[t])
  }

  // ----- Steps -----

  /** Transactions that do not take the projection lock. */
  datatype ItemStep =
    | ObserveStep(reading: Reading, flush: nat)
    | RemoveStep(request: RemovalRequest, stores: set<StoreId>, eventId: int, processed: Option<Time>, now: Time,
        skew: nat)
    | FailStep(transition: TransitionId, maxAttempts: nat)

  /** Transactions of the whole component. A rebuild names what commits between its statements. */
  datatype Step =
    | Item(step: ItemStep)
    | Publish(transition: TransitionId, maxAttempts: nat)
    | Rebuild(beforeCount: seq<ItemStep>, beforeCheck: seq<ItemStep>, beforeReconcile: seq<ItemStep>,
        beforeCommit: seq<ItemStep>)

  /** A location that violates the zone foreign key makes the transaction fail. */
  predicate Storable(inv: Inventory, r: Reading) {
    r.decision.Some? ==> KnownLocation(inv, r.decision.value.location)
  }

  ghost function RunItem(inv: Inventory, step: ItemStep): Inventory {
    match step
    case ObserveStep(r, flush) =>
      if Storable(inv, r) then Observe(inv, r, flush).0 else inv
    case RemoveStep(q, stores, eventId, processed, now, skew) =>
      (match AcceptRemoval(inv, q, stores, eventId, processed, now, skew)
       case Ok((next, event, created)) => next
       case Err(_) => inv)
    case FailStep(t, maxAttempts) =>
      if EarliestPending(inv, t) then FailTransition(inv, t, maxAttempts) else inv
  }

  ghost function RunItems(inv: Inventory, steps: seq<ItemStep>): Inventory
    decreases |steps|
  {
    if steps == [] then inv else RunItems(RunItem(inv, steps[0]), steps[1..])
  }

  /**
   The rebuild statement by statement: it counts the items, checks again that nothing is
   pending, marks the quarantined rows reconciled and commits; item transactions may commit
   before each of the later statements, delta application is shut out by the shared lock.
   */
  ghost function RunRebuild(
    inv: Inventory, beforeCount: seq<ItemStep>, beforeCheck: seq<ItemStep>,
    beforeReconcile: seq<ItemStep>, beforeCommit: seq<ItemStep>)
    : (r: (Inventory, bool))
  {
    if HasPending(inv) then (inv, false)
    else
      var counted := RunItems(inv, beforeCount);
      var checked := RunItems(counted, beforeCheck);
      if HasPending(checked) then (checked, false)
      else
        var reconciled := Reconcile(RunItems(checked, beforeReconcile));
        (RunItems(reconciled, beforeCommit).(projection := CountedProjection(counted)), true)
  }

  ghost function RunStep(inv: Inventory, step: Step): Inventory {
    match step
    case Item(s) => RunItem(inv, s)
    case Publish(t, maxAttempts) =>
      if EarliestPending(inv, t) then
        match PublishTransition(inv, t)
        case Ok(next) => next
        case Err(_) => FailTransition(inv, t, maxAttempts)
      else inv
    case Rebuild(a, b, c, d) => RunRebuild(inv, a, b, c, d).0
  }

  ghost function Run(inv: Inventory, steps: seq<Step>): Inventory
    decreases |steps|
  {
    if steps == [] then inv else Run(RunStep(inv, steps[0]), steps[1..])
  }

  function Initial(zones: map<ZoneId, StoreId>): Inventory {
    Inventory(zones, map[], map[], map[], {}, map[])
  }
}
