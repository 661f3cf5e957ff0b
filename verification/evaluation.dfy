/**
 What an evaluation reads: the projection rows of a store by kind of zone, whether the
 current items confirm them, and the rule that applies to each SKU. Aging of confidence by
 half-life is an arbitrary function of the item.
 */
module Evaluations {
  import opened Basics
  import opened Observations
  import opened FiniteSums
  import opened Inventories
  import opened StableZones
  import Connectivity
  import Policies
  import Sorting
  import Tasks

  type Zones = map<ZoneId, Tasks.Zone>

  type Aging = (Epc, ItemState) -> real

  /** What an evaluation is given besides the tables: aged confidence, its minimum, rules and active SKUs. */
  datatype Criteria = Criteria(
    aged: Aging, minimum: real, rules: seq<Policies.Rule>, items: map<SkuId, Policies.Item>, fold: Policies.Fold)

  // ----- Stock by kind of zone -----

  predicate Feeds(zones: Zones, b: Bucket, store: StoreId, sku: SkuId, kind: Tasks.ZoneKind) {
    b.location.store == store && b.sku == sku && Tasks.IsKind(zones, store, b.location.zone, kind)
  }

  /** Rows of other zones are not looked at. */
  predicate Counts(zones: Zones, b: Bucket, store: StoreId, sku: SkuId) {
    Feeds(zones, b, store, sku, Tasks.SalesFloor) || Feeds(zones, b, store, sku, Tasks.Backroom)
  }

  ghost function QuantityIn(zones: Zones, store: StoreId, sku: SkuId, kind: Tasks.ZoneKind): (Bucket, nat) -> int {
    (b: Bucket, q: nat) => if Feeds(zones, b, store, sku, kind) then q else 0
  }

  /** The projected quantity of a SKU in the zones of one kind. */
  ghost function Projected(
    zones: Zones, rows: map<Bucket, nat>, store: StoreId, sku: SkuId, kind: Tasks.ZoneKind): nat
  {
    MapSumNonNegative(rows, QuantityIn(zones, store, sku, kind));
    MapSum(rows, QuantityIn(zones, store, sku, kind))
  }

  /** An item whose place is one of the zones of this kind and, if `listed`, has a projection row. */
  ghost function ItemIn(
    zones: Zones, rows: map<Bucket, nat>, store: StoreId, sku: SkuId, kind: Tasks.ZoneKind, listed: bool)
    : (Epc, ItemState) -> int
  {
    (epc: Epc, s: ItemState) =>
      if BucketOf(s).Some? && Feeds(zones, BucketOf(s).value, store, sku, kind)
         && (BucketOf(s).value in rows <==> listed)
      then 1 else 0
  }

  ghost function ItemsOf(
    zones: Zones, inv: Inventory, store: StoreId, sku: SkuId, kind: Tasks.ZoneKind, listed: bool): nat
  {
    MapSumNonNegative(inv.items, ItemIn(zones, inv.projection, store, sku, kind, listed));
    MapSum(inv.items, ItemIn(zones, inv.projection, store, sku, kind, listed))
  }

  /** The items of a SKU that are located in the zones of this kind. */
  ghost function Located(zones: Zones, inv: Inventory, store: StoreId, sku: SkuId, kind: Tasks.ZoneKind): nat {
    ItemsOf(zones, inv, store, sku, kind, true) + ItemsOf(zones, inv, store, sku, kind, false)
  }

  /** The item is of this SKU and its place is a zone of this kind in this store. */
  predicate LiesAt(zones: Zones, s: ItemState, store: StoreId, sku: SkuId, kind: Tasks.ZoneKind) {
    && s.sku == sku && s.location.Some? && s.location.value.store == store && s.location.value.zone in zones
    && zones[s.location.value.zone].store == store && zones[s.location.value.zone].kind == kind
  }

  function ItemsIn(
    zones: Zones, items: map<Epc, ItemState>, store: StoreId, sku: SkuId, kind: Tasks.ZoneKind): set<Epc>
  {
    set epc | epc in items && LiesAt(zones, items[epc], store, sku, kind)
  }

  lemma LiesOnce(
    zones: Zones, rows: map<Bucket, nat>, store: StoreId, sku: SkuId, kind: Tasks.ZoneKind, epc: Epc, s: ItemState)
    ensures ItemIn(zones, rows, store, sku, kind, true)(epc, s) + ItemIn(zones, rows, store, sku, kind, false)(epc, s)
         == if LiesAt(zones, s, store, sku, kind) then 1 else 0
  {
  }

  lemma ItemsInTake(
    zones: Zones, items: map<Epc, ItemState>, store: StoreId, sku: SkuId, kind: Tasks.ZoneKind, epc: Epc)
    requires epc in items
    ensures
      |ItemsIn(zones, items, store, sku, kind)| ==
      |ItemsIn(zones, items - {epc}, store, sku, kind)| + if LiesAt(zones, items[epc], store, sku, kind) then 1 else 0
  {
    var all, others := ItemsIn(zones, items, store, sku, kind), ItemsIn(zones, items - {epc}, store, sku, kind);
    var more: set<Epc> := if LiesAt(zones, items[epc], store, sku, kind) then {epc} else {};
    forall e
      ensures e in all <==> e in others || e in more
    {
    }
    SetsEqual(all, others + more);
    assert epc !in others;
  }

  lemma {:induction false} LocatedSum(
    zones: Zones, items: map<Epc, ItemState>, rows: map<Bucket, nat>, store: StoreId, sku: SkuId,
    kind: Tasks.ZoneKind)
    ensures MapSum(items, ItemIn(zones, rows, store, sku, kind, true))
            + MapSum(items, ItemIn(zones, rows, store, sku, kind, false))
         == |ItemsIn(zones, items, store, sku, kind)|
    decreases |items|
  {
    if items == map[] {
      assert ItemsIn(zones, items, store, sku, kind) == {};
    } else {
      var epc := AnyKey(items);
      MapSumTake(items, ItemIn(zones, rows, store, sku, kind, true), epc);
      MapSumTake(items, ItemIn(zones, rows, store, sku, kind, false), epc);
      LocatedSum(zones, items - {epc}, rows, store, sku, kind);
      ItemsInTake(zones, items, store, sku, kind, epc);
      LiesOnce(zones, rows, store, sku, kind, epc, items[epc]);
    }
  }

  /** What counts as located is every such item, once. */
  lemma LocatedCounts(zones: Zones, inv: Inventory, store: StoreId, sku: SkuId, kind: Tasks.ZoneKind)
    ensures Located(zones, inv, store, sku, kind) == |ItemsIn(zones, inv.items, store, sku, kind)|
  {
    LocatedSum(zones, inv.items, inv.projection, store, sku, kind);
  }

  // ----- Trust -----

  predicate InBucket(items: map<Epc, ItemState>, b: Bucket, epc: Epc) {
    epc in items && BucketOf(items[epc]) == Some(b)
  }

  /** The lowest aged confidence of the items in a bucket. */
  ghost predicate IsLowest(items: map<Epc, ItemState>, b: Bucket, aged: Aging, v: Option<real>) {
    && (v.None? ==> forall epc :: !InBucket(items, b, epc))
    && (v.Some? ==>
          && (exists epc :: InBucket(items, b, epc) && aged(epc, items[epc]) == v.value)
          && (forall epc :: InBucket(items, b, epc) ==> v.value <= aged(epc, items[epc])))
  }

  ghost function Lowest(items: map<Epc, ItemState>, b: Bucket, aged: Aging): (v: Option<real>)
    ensures IsLowest(items, b, aged, v)
  {
    if items == map[] then None
    else
      var epc := AnyKey(items);
      var others := items - {epc};
      var rest := Lowest(others, b, aged);
      assert forall e :: InBucket(items, b, e) <==> (e == epc && InBucket(items, b, epc)) || InBucket(others, b, e);
      if InBucket(items, b, epc) && (rest.None? || aged(epc, items[epc]) < rest.value) then
        Some(aged(epc, items[epc]))
      else
        assert rest.Some? ==> exists e :: InBucket(others, b, e) && aged(e, others[e]) == rest.value;
        rest
  }

  /** Current confidence, failing safe when the projection and the items differ. */
  function EffectiveBucketConfidence(projected: nat, count: Option<nat>, confidence: Option<real>): real {
    if count.None? then (if projected == 0 then 1.0 else 0.0)
    else if projected != count.value || confidence.None? then 0.0
    else confidence.value
  }

  ghost function BucketConfidence(inv: Inventory, b: Bucket, aged: Aging): real
    requires b in inv.projection
  {
    EffectiveBucketConfidence(
      inv.projection[b],
      if LocatedAt(inv, b) == 0 then None else Some(LocatedAt(inv, b)),
      Lowest(inv.items, b, aged))
  }

  /** The lowest confidence of the rows of a SKU in floor and backroom, and 1, reach the minimum. */
  ghost predicate Confident(zones: Zones, inv: Inventory, store: StoreId, sku: SkuId, criteria: Criteria) {
    && criteria.minimum <= 1.0
    && forall b :: b in inv.projection && Counts(zones, b, store, sku) ==>
         criteria.minimum <= BucketConfidence(inv, b, criteria.aged)
  }

  /** A row that the items do not confirm passes exactly when no confidence is asked for. */
  lemma MismatchPassesIff(inv: Inventory, b: Bucket, aged: Aging, minimum: real)
    requires b in inv.projection && inv.projection[b] != LocatedAt(inv, b)
    ensures minimum <= BucketConfidence(inv, b, aged) <==> minimum <= 0.0
  {
  }

  /** An item in the bucket, by its fields. */
  predicate LiesIn(items: map<Epc, ItemState>, b: Bucket, epc: Epc) {
    epc in items && items[epc].location == Some(b.location) && items[epc].sku == b.sku
  }

  /** A row that the items confirm is trusted as far as its least trusted item, and fully when it is empty. */
  lemma ConfirmedConfidence(inv: Inventory, b: Bucket, aged: Aging)
    requires b in inv.projection && inv.projection[b] == LocatedAt(inv, b)
    ensures
      var c := BucketConfidence(inv, b, aged);
      if forall epc :: !LiesIn(inv.items, b, epc) then c == 1.0
      else
        && (exists epc :: LiesIn(inv.items, b, epc) && aged(epc, inv.items[epc]) == c)
        && (forall epc :: LiesIn(inv.items, b, epc) ==> c <= aged(epc, inv.items[epc]))
  {
    forall epc
      ensures LiesIn(inv.items, b, epc) <==> InBucket(inv.items, b, epc)
    {
    }
    OccupiedIsPositive(inv, b);
    var v := Lowest(inv.items, b, aged);
    assert IsLowest(inv.items, b, aged, v);
    if exists epc :: LiesIn(inv.items, b, epc) {
      var epc :| LiesIn(inv.items, b, epc);
      assert b in OccupiedBuckets(inv.items);
    } else if b in OccupiedBuckets(inv.items) {
      var epc :| epc in inv.items && inv.items[epc].location.Some?
          && Bucket(inv.items[epc].location.value, inv.items[epc].sku) == b;
      assert LiesIn(inv.items, b, epc);
    }
  }

  lemma ListedSplits(
    zones: Zones, items: map<Epc, ItemState>, rows: map<Bucket, nat>, k: Bucket,
    store: StoreId, sku: SkuId, kind: Tasks.ZoneKind)
    requires k in rows
    ensures
      MapSum(items, ItemIn(zones, rows, store, sku, kind, true)) ==
      MapSum(items, ItemIn(zones, rows - {k}, store, sku, kind, true))
      + (if Feeds(zones, k, store, sku, kind) then MapSum(items, CountIn(k)) else 0)
  {
    var whole, rest := ItemIn(zones, rows, store, sku, kind, true), ItemIn(zones, rows - {k}, store, sku, kind, true);
    if Feeds(zones, k, store, sku, kind) {
      MapSumSplit(items, rest, CountIn(k), whole);
    } else {
      MapSumEqual(items, whole, items, rest);
    }
  }

  /** Rows that the items confirm count the items that have a row. */
  lemma {:induction false} ConfirmedCounts(
    zones: Zones, inv: Inventory, rows: map<Bucket, nat>, store: StoreId, sku: SkuId, kind: Tasks.ZoneKind)
    requires forall b :: b in rows && Feeds(zones, b, store, sku, kind) ==> rows[b] == LocatedAt(inv, b)
    ensures Projected(zones, rows, store, sku, kind) == MapSum(inv.items, ItemIn(zones, rows, store, sku, kind, true))
    decreases |rows|
  {
    if rows == map[] {
      MapSumZero(inv.items, ItemIn(zones, rows, store, sku, kind, true));
    } else {
      var k := AnyKey(rows);
      MapSumTake(rows, QuantityIn(zones, store, sku, kind), k);
      ListedSplits(zones, inv.items, rows, k, store, sku, kind);
      ConfirmedCounts(zones, inv, rows - {k}, store, sku, kind);
    }
  }

  ghost predicate Confirmed(zones: Zones, inv: Inventory, store: StoreId, sku: SkuId) {
    forall b :: b in inv.projection && Counts(zones, b, store, sku) ==> StockAt(inv, b) == LocatedAt(inv, b)
  }

  /** What a trusted SKU shows is what is there, but for items in places that have no projection row. */
  lemma ConfidentCounts(
    zones: Zones, inv: Inventory, store: StoreId, sku: SkuId, criteria: Criteria, kind: Tasks.ZoneKind)
    requires 0.0 < criteria.minimum && Confident(zones, inv, store, sku, criteria)
    requires kind == Tasks.SalesFloor || kind == Tasks.Backroom
    ensures Confirmed(zones, inv, store, sku)
    ensures Projected(zones, inv.projection, store, sku, kind) + ItemsOf(zones, inv, store, sku, kind, false) ==
            Located(zones, inv, store, sku, kind)
  {
    forall b | b in inv.projection && Counts(zones, b, store, sku)
      ensures StockAt(inv, b) == LocatedAt(inv, b)
    {
      if inv.projection[b] != LocatedAt(inv, b) {
        MismatchPassesIff(inv, b, criteria.aged, criteria.minimum);
      }
    }
    ConfirmedCounts(zones, inv, inv.projection, store, sku, kind);
  }

  // ----- The evaluation of a store -----

  function RuleFor(
    criteria: Criteria, store: StoreId, sku: SkuId): Result<Option<Policies.Rule>, Policies.SelectionError>
    requires sku in criteria.items
  {
    Policies.SelectRule(criteria.rules, store, criteria.items[sku], criteria.fold)
  }

  ghost function SnapshotOf(
    zones: Zones, inv: Inventory, store: StoreId, sku: SkuId, criteria: Criteria): Tasks.Snapshot
    requires sku in criteria.items
  {
    Tasks.Snapshot(
      sku,
      Projected(zones, inv.projection, store, sku, Tasks.SalesFloor),
      Projected(zones, inv.projection, store, sku, Tasks.Backroom),
      Confident(zones, inv, store, sku, criteria),
      match RuleFor(criteria, store, sku)
      case Ok(Some(r)) => Some((r.minFloor, r.targetFloor))
      case _ => None)
  }

  /** The SKUs of the listed rows, each once and each active. */
  ghost predicate Listing(skus: seq<SkuId>, criteria: Criteria) {
    && (forall i, j :: 0 <= i < j < |skus| ==> skus[i] != skus[j])
    && (forall i :: 0 <= i < |skus| ==> skus[i] in criteria.items)
  }

  ghost function Snapshots(zones: Zones, inv: Inventory, store: StoreId, skus: seq<SkuId>, criteria: Criteria)
    : (r: seq<Tasks.Snapshot>)
    requires Listing(skus, criteria)
    ensures |r| == |skus| && forall i :: 0 <= i < |skus| ==> r[i] == SnapshotOf(zones, inv, store, skus[i], criteria)
  {
    seq(|skus|, i requires 0 <= i < |skus| => SnapshotOf(zones, inv, store, skus[i], criteria))
  }

  /** A trusted SKU for which two rules tie: the whole evaluation is refused. */
  ghost predicate Refuses(zones: Zones, inv: Inventory, store: StoreId, skus: seq<SkuId>, criteria: Criteria)
    requires Listing(skus, criteria)
  {
    exists i :: 0 <= i < |skus| && Confident(zones, inv, store, skus[i], criteria)
        && RuleFor(criteria, store, skus[i]).Err?
  }

  ghost function EvaluateInventory(
    zones: Zones, inv: Inventory, b: Tasks.Board, store: StoreId, link: Tasks.Link, skus: seq<SkuId>,
    criteria: Criteria)
    : Tasks.Board
    requires Listing(skus, criteria)
  {
    if !Tasks.IsLive(link) || criteria.rules == [] || Refuses(zones, inv, store, skus, criteria) then b
    else Tasks.Evaluate(b, store, Snapshots(zones, inv, store, skus, criteria))
  }

  /** A store is evaluated exactly when it is live, rules are active and no trusted SKU has tied rules. */
  lemma EvaluatesIff(
    zones: Zones, inv: Inventory, b: Tasks.Board, store: StoreId, link: Tasks.Link, skus: seq<SkuId>,
    criteria: Criteria)
    requires Listing(skus, criteria)
    ensures
      var snapshots := Snapshots(zones, inv, store, skus, criteria);
      var tied := exists i ::
        && 0 <= i < |skus| && snapshots[i].confident
        && Policies.SelectRule(criteria.rules, store, criteria.items[skus[i]], criteria.fold).Err?;
      EvaluateInventory(zones, inv, b, store, link, skus, criteria) ==
      if Tasks.IsLive(link) && criteria.rules != [] && !tied then Tasks.Evaluate(b, store, snapshots) else b
  {
  }

  // ----- Reading the rows one by one -----

  /** What an evaluation has gathered about one SKU. */
  datatype Shown = Shown(floor: nat, backroom: nat, confidence: real)

  const NOTHING_SHOWN: Shown := Shown(0, 0, 1.0)

  /** Item count and lowest aged confidence of each occupied bucket. */
  type Metadata = map<Bucket, (nat, real)>

  ghost predicate IsMetadata(inv: Inventory, aged: Aging, metadata: Metadata) {
    forall b {:trigger b in metadata} {:trigger LocatedAt(inv, b)} ::
      && (b in metadata <==> LocatedAt(inv, b) > 0)
      && (b in metadata ==> metadata[b].0 == LocatedAt(inv, b) && Lowest(inv.items, b, aged) == Some(metadata[b].1))
  }

  function RowConfidence(metadata: Metadata, b: Bucket, quantity: nat): real {
    if b in metadata then EffectiveBucketConfidence(quantity, Some(metadata[b].0), Some(metadata[b].1))
    else EffectiveBucketConfidence(quantity, None, None)
  }

  /** The sums and the lowest confidence of a SKU over these rows. */
  ghost predicate Reads(
    zones: Zones, rows: map<Bucket, nat>, metadata: Metadata, store: StoreId, sku: SkuId, shown: Shown)
  {
    && shown.floor == Projected(zones, rows, store, sku, Tasks.SalesFloor)
    && shown.backroom == Projected(zones, rows, store, sku, Tasks.Backroom)
    && shown.confidence <= 1.0
    && (forall b :: b in rows && Counts(zones, b, store, sku) ==>
          shown.confidence <= RowConfidence(metadata, b, rows[b]))
    && (shown.confidence == 1.0
        || exists b :: b in rows && Counts(zones, b, store, sku)
             && shown.confidence == RowConfidence(metadata, b, rows[b]))
  }

  function ShownOf(gathered: map<SkuId, Shown>, sku: SkuId): Shown {
    if sku in gathered then gathered[sku] else NOTHING_SHOWN
  }

  function WithRow(shown: Shown, onFloor: bool, quantity: nat, confidence: real): Shown {
    Shown(
      if onFloor then shown.floor + quantity else shown.floor,
      if onFloor then shown.backroom else shown.backroom + quantity,
      MinReal(shown.confidence, confidence))
  }

  /** A row counts exactly when it is of this SKU and of a zone of this kind in this store. */
  lemma ProjectedMore(
    zones: Zones, rows: map<Bucket, nat>, store: StoreId, sku: SkuId, kind: Tasks.ZoneKind, b: Bucket, q: nat)
    requires b !in rows
    ensures Projected(zones, map[], store, sku, kind) == 0
    ensures
      var counts :=
        b.location.store == store && b.sku == sku && b.location.zone in zones
        && zones[b.location.zone].store == store && zones[b.location.zone].kind == kind;
      Projected(zones, rows[b := q], store, sku, kind) ==
      Projected(zones, rows, store, sku, kind) + if counts then q else 0
  {
    var f := QuantityIn(zones, store, sku, kind);
    MapSumTake(rows[b := q], f, b);
    assert rows[b := q] - {b} == rows;
  }

  lemma ReadsMore(
    zones: Zones, rows: map<Bucket, nat>, metadata: Metadata, store: StoreId, sku: SkuId, shown: Shown, b: Bucket,
    q: nat)
    requires b !in rows && Reads(zones, rows, metadata, store, sku, shown)
    ensures
      Reads(
        zones, rows[b := q], metadata, store, sku,
        if !Counts(zones, b, store, sku) then shown
        else WithRow(shown, Feeds(zones, b, store, sku, Tasks.SalesFloor), q, RowConfidence(metadata, b, q)))
  {
    var next := rows[b := q];
    ProjectedMore(zones, rows, store, sku, Tasks.SalesFloor, b, q);
    ProjectedMore(zones, rows, store, sku, Tasks.Backroom, b, q);
    if shown.confidence != 1.0 {
      var c :| c in rows && Counts(zones, c, store, sku) && shown.confidence == RowConfidence(metadata, c, rows[c]);
      assert c in next && next[c] == rows[c];
    }
    assert b in next && next[b] == q;
  }

  /** The rows of a store, gathered by SKU: quantities by kind of zone and the lowest confidence. */
  method ReadSnapshots(zones: Zones, rows: map<Bucket, nat>, metadata: Metadata, store: StoreId)
    returns (gathered: map<SkuId, Shown>)
    ensures forall sku :: Reads(zones, rows, metadata, store, sku, ShownOf(gathered, sku))
  {
    gathered := map[];
    var seen: map<Bucket, nat> := map[];
    while seen.Keys != rows.Keys
      invariant seen.Keys <= rows.Keys && forall b :: b in seen ==> seen[b] == rows[b]
      invariant forall sku :: Reads(zones, seen, metadata, store, sku, ShownOf(gathered, sku))
      decreases rows.Keys - seen.Keys
    {
      SomeRemain(rows.Keys, seen.Keys);
      var b := Pick(rows.Keys - seen.Keys);
      ghost var before := gathered;
      if b.location.store == store && b.location.zone in zones && zones[b.location.zone].store == store {
        var kind := zones[b.location.zone].kind;
        if kind == Tasks.SalesFloor || kind == Tasks.Backroom {
          var shown := if b.sku in gathered then gathered[b.sku] else NOTHING_SHOWN;
          var confidence := RowConfidence(metadata, b, rows[b]);
          gathered := gathered[b.sku := WithRow(shown, kind == Tasks.SalesFloor, rows[b], confidence)];
        }
      }
      forall sku
        ensures Reads(zones, seen[b := rows[b]], metadata, store, sku, ShownOf(gathered, sku))
      {
        ReadsMore(zones, seen, metadata, store, sku, ShownOf(before, sku), b, rows[b]);
      }
      seen := seen[b := rows[b]];
    }
    MapsEqual(seen, rows);
  }

  /** Rows read with the items' metadata give the snapshot that an evaluation goes by. */
  lemma ReadsSnapshot(
    zones: Zones, inv: Inventory, metadata: Metadata, store: StoreId, sku: SkuId, criteria: Criteria, shown: Shown)
    requires IsMetadata(inv, criteria.aged, metadata) && sku in criteria.items
    requires Reads(zones, inv.projection, metadata, store, sku, shown)
    ensures
      var s := SnapshotOf(zones, inv, store, sku, criteria);
      s.floor == shown.floor && s.backroom == shown.backroom && (s.confident <==> criteria.minimum <= shown.confidence)
  {
    forall b | b in inv.projection
      ensures BucketConfidence(inv, b, criteria.aged) == RowConfidence(metadata, b, inv.projection[b])
    {
      assert b in metadata <==> LocatedAt(inv, b) > 0;
    }
  }

  // ----- What an evaluation asks for -----

  /** The SKU's snapshot bears the growth of what is asked for. */
  ghost predicate Bears(s: Tasks.Snapshot, before: nat, after: nat) {
    && s.confident && s.rule.Some?
    && after == before + Tasks.RequiredQuantity(s.floor, s.backroom, before, s.rule.value.0, s.rule.value.1)
  }

  /** How a task grows, said by the items in the zones instead of the projection. */
  ghost predicate GrowsBy(
    zones: Zones, inv: Inventory, store: StoreId, sku: SkuId, r: Policies.Rule, before: nat, after: nat)
  {
    var shown, unshown :=
      ItemsOf(zones, inv, store, sku, Tasks.SalesFloor, true), ItemsOf(zones, inv, store, sku, Tasks.SalesFloor, false);
    var back := ItemsOf(zones, inv, store, sku, Tasks.Backroom, true);
    var lacking := r.targetFloor - shown - before;
    && shown < r.minFloor
    && before < after == before + Min(back, lacking)
    && after - before <= Located(zones, inv, store, sku, Tasks.Backroom)
    && (Located(zones, inv, store, sku, Tasks.SalesFloor) + after <= r.targetFloor <==>
         unshown <= Max(0, lacking - back))
  }

  lemma OtherSkuKeeps(b: Tasks.Board, store: StoreId, s: Tasks.Snapshot, sku: SkuId)
    requires Tasks.BoardOk(b) && s.sku != sku
    ensures Tasks.Asked(Tasks.EvaluateSku(b, store, s), store, sku) == Tasks.Asked(b, store, sku)
  {
    Tasks.EvaluateSkuKeeps(b, store, s);
    var next := Tasks.EvaluateSku(b, store, s);
    assert forall id :: Tasks.ActiveFor(next, id, store, sku) <==> Tasks.ActiveFor(b, id, store, sku);
    if Tasks.HasActive(b, store, sku) {
      var id := Tasks.ActiveTask(b, store, sku);
      assert Tasks.ActiveFor(next, id, store, sku);
      assert Tasks.ActiveTask(next, store, sku) == id;
    }
  }

  lemma SkuBears(b: Tasks.Board, store: StoreId, s: Tasks.Snapshot)
    requires Tasks.BoardOk(b)
    ensures
      var before, after := Tasks.Asked(b, store, s.sku), Tasks.Asked(Tasks.EvaluateSku(b, store, s), store, s.sku);
      after == before || Bears(s, before, after)
  {
    if s.confident && s.rule.Some? {
      Tasks.ShortageAccounted(b, store, s);
    }
  }

  /** One SKU's task grows only by its own snapshot. */
  lemma {:induction false} EvaluationBears(b: Tasks.Board, store: StoreId, snapshots: seq<Tasks.Snapshot>, sku: SkuId)
    requires Tasks.BoardOk(b)
    requires forall i, j :: 0 <= i < j < |snapshots| ==> snapshots[i].sku != snapshots[j].sku
    ensures
      var before, after := Tasks.Asked(b, store, sku), Tasks.Asked(Tasks.Evaluate(b, store, snapshots), store, sku);
      after == before || exists i ::
          0 <= i < |snapshots| && snapshots[i].sku == sku && Bears(snapshots[i], before, after)
    ensures (forall i :: 0 <= i < |snapshots| ==> snapshots[i].sku != sku) ==>
              Tasks.Asked(Tasks.Evaluate(b, store, snapshots), store, sku) == Tasks.Asked(b, store, sku)
    decreases |snapshots|
  {
    if snapshots != [] {
      var front, last := snapshots[..|snapshots| - 1], snapshots[|snapshots| - 1];
      var middle := Tasks.Evaluate(b, store, front);
      Tasks.EvaluateKeeps(b, store, front);
      EvaluationBears(b, store, front, sku);
      if last.sku == sku {
        assert forall i :: 0 <= i < |front| ==> front[i].sku == snapshots[i].sku;
        SkuBears(middle, store, last);
      } else {
        OtherSkuKeeps(middle, store, last, sku);
      }
    }
  }

  lemma SnapshotsDistinct(zones: Zones, inv: Inventory, store: StoreId, skus: seq<SkuId>, criteria: Criteria)
    requires Listing(skus, criteria)
    ensures
      var snapshots := Snapshots(zones, inv, store, skus, criteria);
      forall i, j :: 0 <= i < j < |snapshots| ==> snapshots[i].sku != snapshots[j].sku
  {
  }

  lemma GrowthIsThere(
    zones: Zones, inv: Inventory, store: StoreId, sku: SkuId, criteria: Criteria, before: nat, after: nat)
    requires sku in criteria.items && 0.0 < criteria.minimum && after != before
    requires Bears(SnapshotOf(zones, inv, store, sku, criteria), before, after)
    ensures Confirmed(zones, inv, store, sku)
    ensures RuleFor(criteria, store, sku).Ok? && RuleFor(criteria, store, sku).value.Some?
    ensures GrowsBy(zones, inv, store, sku, RuleFor(criteria, store, sku).value.value, before, after)
  {
    ConfidentCounts(zones, inv, store, sku, criteria, Tasks.SalesFloor);
    ConfidentCounts(zones, inv, store, sku, criteria, Tasks.Backroom);
  }

  /**
   Whatever an evaluation adds to the task of a SKU rests on items that are there. With a
   positive minimum, the projection rows of the SKU in floor and backroom equal the items
   located there, and the addition is what the rule's target lacks, but no more than the
   items in the backroom that have a row. Floor and task then stay within the target exactly
   when the items on the floor that have no row fit into what the backroom cannot supply.
   */
  lemma AskedRestsOnItems(
    zones: Zones, inv: Inventory, b: Tasks.Board, store: StoreId, link: Tasks.Link, skus: seq<SkuId>,
    criteria: Criteria, sku: SkuId)
    requires Tasks.BoardOk(b) && Listing(skus, criteria) && 0.0 < criteria.minimum
    requires
      var next := EvaluateInventory(zones, inv, b, store, link, skus, criteria);
      Tasks.Asked(next, store, sku) != Tasks.Asked(b, store, sku)
    ensures Tasks.IsLive(link) && sku in criteria.items && Confirmed(zones, inv, store, sku)
    ensures RuleFor(criteria, store, sku).Ok? && RuleFor(criteria, store, sku).value.Some?
    ensures
      var before := Tasks.Asked(b, store, sku);
      var after := Tasks.Asked(EvaluateInventory(zones, inv, b, store, link, skus, criteria), store, sku);
      GrowsBy(zones, inv, store, sku, RuleFor(criteria, store, sku).value.value, before, after)
  {
    var snapshots := Snapshots(zones, inv, store, skus, criteria);
    var before, after := Tasks.Asked(b, store, sku), Tasks.Asked(Tasks.Evaluate(b, store, snapshots), store, sku);
    SnapshotsDistinct(zones, inv, store, skus, criteria);
    EvaluationBears(b, store, snapshots, sku);
    var i :| 0 <= i < |snapshots| && snapshots[i].sku == sku && Bears(snapshots[i], before, after);
    assert snapshots[i] == SnapshotOf(zones, inv, store, sku, criteria);
    GrowthIsThere(zones, inv, store, sku, criteria, before, after);
  }

  // ----- Items that no projection row shows -----

  const TWO_ZONES: Zones := map[1 := Tasks.Zone(1, Tasks.SalesFloor), 2 := Tasks.Zone(1, Tasks.Backroom)]

  function FirstRead(epc: Epc, zone: ZoneId): Reading {
    Reading(epc, 10, 10, None, 5, Some(Decision(Location(1, zone), 1.0, 10, 10)), {Location(1, zone)})
  }

  /** One item in the backroom whose row was applied, then one on the floor whose row is pending. */
  const UNSHOWN_FLOOR: seq<Step> := [
    Item(ObserveStep(FirstRead(7, 2), 30)), Publish(TransitionId(7, 1), 5), Item(ObserveStep(FirstRead(8, 1), 30))]

  lemma UnshownFloor()
    ensures
      var inv := Run(Initial(map[1 := 1, 2 := 1]), UNSHOWN_FLOOR);
      && inv.projection == map[Bucket(Location(1, 2), 5) := 1]
      && inv.items.Keys == {7, 8}
      && BucketOf(inv.items[7]) == Some(Bucket(Location(1, 2), 5))
      && BucketOf(inv.items[8]) == Some(Bucket(Location(1, 1), 5))
  {
    var start := Initial(map[1 := 1, 2 := 1]);
    var t := TransitionId(7, 1);
    var first := RunStep(start, UNSHOWN_FLOOR[0]);
    assert first == MoveItem(start, FirstRead(7, 2), FirstRead(7, 2).decision.value);
    assert first.outbox.Keys == {t} && EarliestPending(first, t);
    var second := RunStep(first, UNSHOWN_FLOOR[1]);
    FirstUnitApplies(first, t);
    var third := RunStep(second, UNSHOWN_FLOOR[2]);
    assert third == MoveItem(second, FirstRead(8, 1), FirstRead(8, 1).decision.value);
    assert UNSHOWN_FLOOR[1..][1..] == [UNSHOWN_FLOOR[2]] && UNSHOWN_FLOOR[1..][0] == UNSHOWN_FLOOR[1];
    assert [UNSHOWN_FLOOR[2]][1..] == [];
    assert Run(start, UNSHOWN_FLOOR) == Run(first, UNSHOWN_FLOOR[1..]);
    assert Run(first, UNSHOWN_FLOOR[1..]) == Run(second, [UNSHOWN_FLOOR[2]]);
    assert Run(second, [UNSHOWN_FLOOR[2]]) == Run(third, []);
  }

  lemma FirstUnitApplies(inv: Inventory, t: TransitionId)
    requires t in inv.outbox && EarliestPending(inv, t) && inv.projection == map[] && inv.applied == {}
    requires |inv.outbox[t].deltas| == 1
    requires
      var d := inv.outbox[t].deltas[0];
      inv.outbox[t].id == t && d.transition == t && d.epc == t.epc && d.quantity == 1
    ensures
      var next := RunStep(inv, Publish(t, 5));
      next.items == inv.items && next.projection == map[inv.outbox[t].deltas[0].bucket := 1]
  {
    var deltas := inv.outbox[t].deltas;
    var d := deltas[0];
    assert deltas == [d] && deltas[..0] == [];
    assert UniqueById(deltas) == map[d.id := d] by {
      assert UniqueById([]) == map[];
    }
    var pending := Unapplied(inv, deltas);
    assert pending == map[d.id := d];
    MapSumInsert(map[], Inventories.QuantityIn(d.bucket), d.id, d);
    assert map[][d.id := d] == pending;
    assert BucketsOf(pending) == {d.bucket};
    assert MovedProjection(inv, pending) == map[d.bucket := 1];
  }

  const ONE_ON_FLOOR: Policies.Rule := Policies.Rule(None, None, None, None, None, 1, 1, 0)

  const TRUSTING: Criteria := Criteria(
    (epc: Epc, s: ItemState) => 1.0, 0.7, [ONE_ON_FLOOR], map[5 := Policies.Item(5, "", "", "")], (x: string) => x)

  const LIVE_LINK: Tasks.Link := Tasks.Link(
    Some(Connectivity.ConnectivityRow(Some(10), 10, true, true, None, Some(10), Some(10), None, Connectivity.Live)),
    Connectivity.Windows(120, 60, 30), 12)

  lemma OneRuleSelected()
    ensures RuleFor(TRUSTING, 1, 5) == Ok(Some(ONE_ON_FLOOR))
  {
    var item := TRUSTING.items[5];
    assert Policies.Precedence(ONE_ON_FLOOR, 1, item, TRUSTING.fold) == Some(1);
    assert [ONE_ON_FLOOR][1..] == [];
    assert Policies.Candidates([ONE_ON_FLOOR], 1, item, TRUSTING.fold) == [ONE_ON_FLOOR];
    var le := Policies.Descending(1, item, TRUSTING.fold);
    assert Sorting.SortBy([ONE_ON_FLOOR], le) ==
        Sorting.Insert(ONE_ON_FLOOR, Sorting.SortBy([ONE_ON_FLOOR][1..], le), le);
  }

  lemma UnshownStock(inv: Inventory)
    requires inv.projection == map[Bucket(Location(1, 2), 5) := 1] && inv.items.Keys == {7, 8}
    requires BucketOf(inv.items[7]) == Some(Bucket(Location(1, 2), 5))
    requires BucketOf(inv.items[8]) == Some(Bucket(Location(1, 1), 5))
    ensures Confident(TWO_ZONES, inv, 1, 5, TRUSTING)
    ensures Projected(TWO_ZONES, inv.projection, 1, 5, Tasks.SalesFloor) == 0
    ensures Projected(TWO_ZONES, inv.projection, 1, 5, Tasks.Backroom) == 1
    ensures Located(TWO_ZONES, inv, 1, 5, Tasks.SalesFloor) >= 1
  {
    var back, floor := Bucket(Location(1, 2), 5), Bucket(Location(1, 1), 5);
    MapSumZero(inv.projection, QuantityIn(TWO_ZONES, 1, 5, Tasks.SalesFloor));
    MapSumTake(inv.projection, QuantityIn(TWO_ZONES, 1, 5, Tasks.Backroom), back);
    MapSumZero(inv.projection - {back}, QuantityIn(TWO_ZONES, 1, 5, Tasks.Backroom));
    assert InBucket(inv.items, back, 7);
    MapSumTake(inv.items, CountIn(back), 7);
    MapSumZero(inv.items - {7}, CountIn(back));
    assert LocatedAt(inv, back) == 1;
    assert BucketConfidence(inv, back, TRUSTING.aged) == 1.0;
    assert ItemIn(TWO_ZONES, inv.projection, 1, 5, Tasks.SalesFloor, false)(8, inv.items[8]) == 1;
    MapSumNonNegative(inv.items, ItemIn(TWO_ZONES, inv.projection, 1, 5, Tasks.SalesFloor, false));
  }

  lemma OneAsked(s: Tasks.Snapshot)
    requires s == Tasks.Snapshot(5, 0, 1, true, Some((1, 1)))
    ensures Tasks.Asked(Tasks.Evaluate(Tasks.EMPTY, 1, [s]), 1, 5) == 1
  {
    assert [s][..0] == [];
    assert Tasks.Evaluate(Tasks.EMPTY, 1, []) == Tasks.EMPTY;
    var next := Tasks.EvaluateSku(Tasks.EMPTY, 1, s);
    assert !Tasks.HasActive(Tasks.EMPTY, 1, 5);
    assert next == Tasks.WithNewTask(Tasks.EMPTY, 1, 5, 1);
    assert Tasks.ActiveFor(next, 0, 1, 5);
  }

  lemma UnshownEvaluation(inv: Inventory)
    requires SnapshotOf(TWO_ZONES, inv, 1, 5, TRUSTING) == Tasks.Snapshot(5, 0, 1, true, Some((1, 1)))
    requires RuleFor(TRUSTING, 1, 5) == Ok(Some(ONE_ON_FLOOR))
    ensures Tasks.Asked(EvaluateInventory(TWO_ZONES, inv, Tasks.EMPTY, 1, LIVE_LINK, [5], TRUSTING), 1, 5) == 1
  {
    var s := Tasks.Snapshot(5, 0, 1, true, Some((1, 1)));
    assert [5][0] == 5;
    assert Snapshots(TWO_ZONES, inv, 1, [5], TRUSTING) == [s];
    assert Tasks.IsLive(LIVE_LINK);
    OneAsked(s);
  }

  /**
   The projection's mismatch test sees only places that have a row: an item on the floor whose
   first row is still pending is not seen, and the task passes the target by it.
   */
  lemma EvaluationCanOvershoot()
    ensures
      var inv := Run(Initial(map[1 := 1, 2 := 1]), UNSHOWN_FLOOR);
      var next := EvaluateInventory(TWO_ZONES, inv, Tasks.EMPTY, 1, LIVE_LINK, [5], TRUSTING);
      && RuleFor(TRUSTING, 1, 5) == Ok(Some(ONE_ON_FLOOR))
      && Located(TWO_ZONES, inv, 1, 5, Tasks.SalesFloor) + Tasks.Asked(next, 1, 5) > ONE_ON_FLOOR.targetFloor
  {
    var inv := Run(Initial(map[1 := 1, 2 := 1]), UNSHOWN_FLOOR);
    UnshownFloor();
    UnshownStock(inv);
    OneRuleSelected();
    UnshownEvaluation(inv);
  }
}
