/**
 The product catalog: staged rows of one import file, the checks they must pass, the
 preview that predicts a promotion, and the promotion itself, which closes and opens
 effective-dated EPC bindings at one moment. Rows are already normalized; codes, names and
 attribute documents are opaque values.
 */
module Catalogs {
  import opened Basics
  import opened Observations
  import opened Bindings

  type StyleCode = int
  type Upc = int
  type Color = int

  /** An attribute document: its category entry, if it has one that is not empty, and everything else. */
  datatype StyleAttributes = StyleAttributes(category: Option<int>, rest: int)

  datatype CatalogRow = CatalogRow(
    style: StyleCode, styleName: int, styleAttributes: StyleAttributes,
    sku: SkuId, upc: Upc, color: Color, size: int, attributes: int,
    epc: Epc)

  datatype StyleRow = StyleRow(name: int, attributes: StyleAttributes, active: bool)

  datatype SkuRow = SkuRow(style: StyleCode, upc: Upc, color: Color, size: int, attributes: int, active: bool)

  datatype Catalog = Catalog(
    styles: map<StyleCode, StyleRow>,
    skus: map<SkuId, SkuRow>,
    bindings: map<Epc, seq<Binding>>)

  datatype ImportMode = DeltaImport | FullImport

  // ----- Rows by key -----

  const StyleKey: CatalogRow -> int := (r: CatalogRow) => r.style
  const SkuKey: CatalogRow -> int := (r: CatalogRow) => r.sku
  const UpcKey: CatalogRow -> int := (r: CatalogRow) => r.upc
  const EpcKey: CatalogRow -> int := (r: CatalogRow) => r.epc

  function KeysOf(rows: seq<CatalogRow>, key: CatalogRow -> int): set<int> {
    set r | r in rows :: key(r)
  }

  /** The first row of each key. */
  function FirstBy(rows: seq<CatalogRow>, key: CatalogRow -> int): map<int, CatalogRow> {
    if rows == [] then map[]
    else
      var front := FirstBy(rows[..|rows| - 1], key);
      var last := rows[|rows| - 1];
      if key(last) in front then front else front[key(last) := last]
  }

  /** The last row of each key. */
  function LastBy(rows: seq<CatalogRow>, key: CatalogRow -> int): map<int, CatalogRow> {
    if rows == [] then map[]
    else
      var last := rows[|rows| - 1];
      LastBy(rows[..|rows| - 1], key)[key(last) := last]
  }

  // ----- Consistency within one file -----

  datatype EpcIssue = NoEpcIssue | DuplicateEpc | EpcConflict

  /** The conflicts reported for one row. */
  datatype RowIssues = RowIssues(style: bool, sku: bool, upc: bool, epc: EpcIssue)

  const CLEAN: RowIssues := RowIssues(false, false, false, NoEpcIssue)

  predicate SameStyle(a: CatalogRow, b: CatalogRow) {
    a.styleName == b.styleName && a.styleAttributes == b.styleAttributes
  }

  predicate SameSku(a: CatalogRow, b: CatalogRow) {
    a.style == b.style && a.upc == b.upc && a.color == b.color && a.size == b.size && a.attributes == b.attributes
  }

  function EpcIssueOf(first: map<Epc, CatalogRow>, r: CatalogRow): EpcIssue {
    if r.epc !in first then NoEpcIssue else if first[r.epc].sku == r.sku then DuplicateEpc else EpcConflict
  }

  /** What is wrong with a row, judged against the first row of each of its keys. */
  function IssuesOf(before: seq<CatalogRow>, r: CatalogRow): RowIssues {
    var styles, skus, upcs := FirstBy(before, StyleKey), FirstBy(before, SkuKey), FirstBy(before, UpcKey);
    RowIssues(
      r.style in styles && !SameStyle(styles[r.style], r),
      r.sku in skus && !SameSku(skus[r.sku], r),
      r.upc in upcs && upcs[r.upc].sku != r.sku,
      EpcIssueOf(FirstBy(before, EpcKey), r))
  }

  /** Two rows of one file do not contradict each other. */
  predicate Compatible(a: CatalogRow, b: CatalogRow) {
    && (a.style == b.style ==> SameStyle(a, b))
    && (a.sku == b.sku ==> SameSku(a, b))
    && (a.upc == b.upc ==> a.sku == b.sku)
    && a.epc != b.epc
  }

  ghost predicate Consistent(rows: seq<CatalogRow>) {
    forall i, j :: 0 <= i < j < |rows| ==> Compatible(rows[i], rows[j])
  }

  ghost predicate NoIssues(rows: seq<CatalogRow>) {
    forall i :: 0 <= i < |rows| ==> IssuesOf(rows[..i], rows[i]) == CLEAN
  }

  // ----- Conflicts with the stored catalog -----

  predicate UpcTaken(cat: Catalog, upc: Upc, sku: SkuId) {
    exists other :: other in cat.skus && other != sku && cat.skus[other].upc == upc
  }

  predicate RowConflicts(cat: Catalog, r: CatalogRow) {
    UpcTaken(cat, r.upc, r.sku)
    || (r.sku in cat.skus && cat.skus[r.sku].style in cat.styles && cat.skus[r.sku].style != r.style)
  }

  predicate Conflicting(cat: Catalog, data: map<SkuId, CatalogRow>) {
    exists c :: c in data && RowConflicts(cat, data[c])
  }

  // ----- Promotion -----

  predicate StyleChanged(s: StyleRow, r: CatalogRow) {
    s.name != r.styleName || s.attributes != r.styleAttributes || !s.active
  }

  predicate SkuChanged(s: SkuRow, r: CatalogRow) {
    s.style != r.style || s.upc != r.upc || s.color != r.color || s.size != r.size || s.attributes != r.attributes
        || !s.active
  }

  function StyleOf(r: CatalogRow): StyleRow { StyleRow(r.styleName, r.styleAttributes, true) }

  function SkuOf(r: CatalogRow): SkuRow { SkuRow(r.style, r.upc, r.color, r.size, r.attributes, true) }

  function PromotedStyles(styles: map<StyleCode, StyleRow>, data: map<StyleCode, CatalogRow>, mode: ImportMode)
    : map<StyleCode, StyleRow>
  {
    map c | c in styles.Keys + data.Keys ::
      if c in data then StyleOf(data[c])
      else if mode == FullImport then styles[c].(active := false)
      else styles[c]
  }

  function PromotedSkus(skus: map<SkuId, SkuRow>, data: map<SkuId, CatalogRow>, mode: ImportMode): map<SkuId, SkuRow> {
    map c | c in skus.Keys + data.Keys ::
      if c in data then SkuOf(data[c])
      else if mode == FullImport then skus[c].(active := false)
      else skus[c]
  }

  function OpenOf(bs: seq<Binding>): Option<Binding> {
    Latest(bs, (b: Binding) => b.to.None?)
  }

  function ClosedAt(b: Binding, t: Time): Binding {
    if b.to.None? then b.(to := Some(t)) else b
  }

  function CloseOpen(bs: seq<Binding>, t: Time): seq<Binding> {
    seq(|bs|, i requires 0 <= i < |bs| => ClosedAt(bs[i], t))
  }

  /** The bindings of one EPC after a promotion that binds it to a SKU, or does not list it. */
  function Rebound(bs: seq<Binding>, supplied: Option<SkuId>, mode: ImportMode, t: Time): seq<Binding> {
    var open := OpenOf(bs);
    match supplied
    case Some(sku) =>
      if open.None? then bs + [Binding(sku, t, None)]
      else if open.value.sku != sku then CloseOpen(bs, t) + [Binding(sku, t, None)]
      else bs
    case None =>
      if mode == FullImport && open.Some? then CloseOpen(bs, t) else bs
  }

  function SuppliedSku(data: map<Epc, CatalogRow>, epc: Epc): Option<SkuId> {
    if epc in data then Some(data[epc].sku) else None
  }

  function BindingsOf(cat: Catalog, epc: Epc): seq<Binding> {
    if epc in cat.bindings then cat.bindings[epc] else []
  }

  function PromotedBindings(
    cat: Catalog, data: map<Epc, CatalogRow>, mode: ImportMode, t: Time): map<Epc, seq<Binding>>
  {
    map epc | epc in cat.bindings.Keys + data.Keys :: Rebound(BindingsOf(cat, epc), SuppliedSku(data, epc), mode, t)
  }

  /** The state that a promotion writes if nothing stops it. */
  function Promoted(cat: Catalog, mode: ImportMode, rows: seq<CatalogRow>, t: Time): Catalog {
    Catalog(
      PromotedStyles(cat.styles, FirstBy(rows, StyleKey), mode),
      PromotedSkus(cat.skus, FirstBy(rows, SkuKey), mode),
      PromotedBindings(cat, LastBy(rows, EpcKey), mode, t))
  }

  predicate UniqueUpcs(skus: map<SkuId, SkuRow>) {
    forall a, b :: a in skus && b in skus && skus[a].upc == skus[b].upc ==> a == b
  }

  predicate ValidInterval(b: Binding) { b.to.None? || b.from < b.to.value }

  predicate ValidIntervals(bindings: map<Epc, seq<Binding>>) {
    forall epc :: epc in bindings ==> forall b :: b in bindings[epc] ==> ValidInterval(b)
  }

  datatype PromotionError = PromotionConflict | IntegrityError

  function Promote(cat: Catalog, mode: ImportMode, rows: seq<CatalogRow>, t: Time): Result<Catalog, PromotionError> {
    var next := Promoted(cat, mode, rows, t);
    if Conflicting(cat, FirstBy(rows, SkuKey)) then Err(PromotionConflict)
    else if !UniqueUpcs(next.skus) || !ValidIntervals(next.bindings) then Err(IntegrityError)
    else Ok(next)
  }

  // ----- Counting -----

  datatype Counts = Counts(inserted: nat, updated: nat, same: nat, deactivated: nat)

  datatype Outcome = Outcome(styles: Counts, skus: Counts, bindings: Counts)

  function ActiveStyles(styles: map<StyleCode, StyleRow>): set<StyleCode> {
    set c | c in styles && styles[c].active
  }

  function ActiveSkus(skus: map<SkuId, SkuRow>): set<SkuId> {
    set c | c in skus && skus[c].active
  }

  function OpenIn(cat: Catalog, epc: Epc): Option<Binding> { OpenOf(BindingsOf(cat, epc)) }

  /** The open binding of each EPC that has one. */
  function OpenBindings(cat: Catalog): map<Epc, Binding> {
    map epc | epc in cat.bindings && OpenIn(cat, epc).Some? :: OpenIn(cat, epc).value
  }

  function Restyled(styles: map<StyleCode, StyleRow>, data: map<StyleCode, CatalogRow>): set<StyleCode> {
    set c | c in data && c in styles && StyleChanged(styles[c], data[c])
  }

  /** The preview also counts a SKU as updated when the style it names is not stored yet. */
  predicate SkuUpdated(cat: Catalog, s: SkuRow, r: CatalogRow) {
    r.style !in cat.styles || SkuChanged(s, r)
  }

  function Respecified(cat: Catalog, data: map<SkuId, CatalogRow>): set<SkuId> {
    set c | c in data && c in cat.skus && SkuUpdated(cat, cat.skus[c], data[c])
  }

  /** The bound SKU is missing or another one than the file says. */
  predicate BoundElsewhere(cat: Catalog, b: Binding, r: CatalogRow) {
    b.sku !in cat.skus || b.sku != r.sku
  }

  function Rebinding(cat: Catalog, open: map<Epc, Binding>, data: map<Epc, CatalogRow>): set<Epc> {
    set epc | epc in data && epc in open && BoundElsewhere(cat, open[epc], data[epc])
  }

  /** Counts for supplied keys, of which `known` are stored, `updated` differ and `live` are active. */
  function PreviewCounts(
    supplied: set<int>, known: set<int>, updated: set<int>, live: set<int>, mode: ImportMode): Counts
  {
    Counts(
      |supplied - known|,
      |updated|,
      |(supplied * known) - updated|,
      if mode == FullImport then |live - supplied| else 0)
  }

  /** What the preview shows before anything is written. */
  function Preview(cat: Catalog, mode: ImportMode, rows: seq<CatalogRow>): Outcome {
    var styles, skus, epcs := FirstBy(rows, StyleKey), FirstBy(rows, SkuKey), LastBy(rows, EpcKey);
    var open := OpenBindings(cat);
    Outcome(
      PreviewCounts(styles.Keys, cat.styles.Keys, Restyled(cat.styles, styles), ActiveStyles(cat.styles), mode),
      PreviewCounts(skus.Keys, cat.skus.Keys, Respecified(cat, skus), ActiveSkus(cat.skus), mode),
      PreviewCounts(epcs.Keys, open.Keys, Rebinding(cat, open, epcs), open.Keys, mode))
  }

  function Differing<T(==)>(before: map<int, T>, after: map<int, T>, supplied: set<int>): set<int> {
    set c | c in supplied && c in before && (c !in after || after[c] != before[c])
  }

  /** What changed in one table, seen from the keys the file supplied. */
  function TableChanges<T(==)>(
    before: map<int, T>, after: map<int, T>, supplied: set<int>, live: set<int>, stillLive: set<int>): Counts
  {
    Counts(
      |supplied * (after.Keys - before.Keys)|,
      |Differing(before, after, supplied)|,
      |(supplied * before.Keys) - Differing(before, after, supplied)|,
      |live - stillLive|)
  }

  /** The counts of a promotion: a comparison of the catalog before and after. */
  function Changes(cat: Catalog, next: Catalog, rows: seq<CatalogRow>): Outcome {
    Outcome(
      TableChanges(cat.styles, next.styles, KeysOf(rows, StyleKey), ActiveStyles(cat.styles),
          ActiveStyles(next.styles)),
      TableChanges(cat.skus, next.skus, KeysOf(rows, SkuKey), ActiveSkus(cat.skus), ActiveSkus(next.skus)),
      TableChanges(
        OpenBindings(cat), OpenBindings(next), KeysOf(rows, EpcKey), OpenBindings(cat).Keys, OpenBindings(next).Keys))
  }

  // ----- The current-state projection kept beside the catalog -----

  const UNCATEGORIZED: int := 0

  function CategoryOf(a: StyleAttributes): int {
    if a.category.None? then UNCATEGORIZED else a.category.value
  }

  datatype ProductRow = ProductRow(name: int, category: int, attributes: StyleAttributes, active: bool)

  function ProductOf(r: CatalogRow): ProductRow {
    ProductRow(r.styleName, CategoryOf(r.styleAttributes), r.styleAttributes, true)
  }

  datatype TagRow = TagRow(sku: SkuId, active: bool)

  datatype VariantKey = VariantKey(style: StyleCode, color: Color)

  /** Products, variants with their active flag, the variant each SKU refers to, and current tags. */
  datatype Hierarchy = Hierarchy(
    products: map<StyleCode, ProductRow>,
    variants: map<VariantKey, bool>,
    references: map<SkuId, VariantKey>,
    tags: map<Epc, TagRow>)

  const NO_HIERARCHY: Hierarchy := Hierarchy(map[], map[], map[], map[])

  function VariantOf(r: CatalogRow): VariantKey { VariantKey(r.style, r.color) }

  function VariantsOf(rows: seq<CatalogRow>): set<VariantKey> {
    set r | r in rows :: VariantOf(r)
  }

  function SyncedProducts(products: map<StyleCode, ProductRow>, data: map<StyleCode, CatalogRow>, mode: ImportMode)
    : map<StyleCode, ProductRow>
  {
    map c | c in products.Keys + data.Keys ::
      if c in data then ProductOf(data[c])
      else if mode == FullImport then products[c].(active := false)
      else products[c]
  }

  function SyncedVariants(variants: map<VariantKey, bool>, supplied: set<VariantKey>, mode: ImportMode)
    : map<VariantKey, bool>
  {
    map v | v in variants.Keys + supplied ::
      if v in supplied then true
      else if mode == FullImport then false
      else variants[v]
  }

  function SyncedReferences(references: map<SkuId, VariantKey>, data: map<SkuId, CatalogRow>): map<SkuId, VariantKey> {
    map c | c in references.Keys + data.Keys :: if c in data then VariantOf(data[c]) else references[c]
  }

  function SyncedTags(tags: map<Epc, TagRow>, data: map<Epc, CatalogRow>, mode: ImportMode): map<Epc, TagRow> {
    map epc | epc in tags.Keys + data.Keys ::
      if epc in data then TagRow(data[epc].sku, true)
      else if mode == FullImport then tags[epc].(active := false)
      else tags[epc]
  }

  /** Here the last row of a style wins, and the last row of a SKU says which variant it refers to. */
  function Synced(h: Hierarchy, mode: ImportMode, rows: seq<CatalogRow>): Hierarchy {
    Hierarchy(
      SyncedProducts(h.products, LastBy(rows, StyleKey), mode),
      SyncedVariants(h.variants, VariantsOf(rows), mode),
      SyncedReferences(h.references, LastBy(rows, SkuKey)),
      SyncedTags(h.tags, LastBy(rows, EpcKey), mode))
  }
}
