/**
 The preview against the promotion, repeated promotion, the current-state hierarchy, and
 runs of imports.
 */
module CatalogRuns {
  import opened Basics
  import opened Observations
  import opened Bindings
  import opened Catalogs
  import opened CatalogProofs

  // ----- The preview predicts the promotion -----

  lemma PreviewsStyles(styles: map<StyleCode, StyleRow>, data: map<StyleCode, CatalogRow>, mode: ImportMode)
    ensures
      var next := PromotedStyles(styles, data, mode);
      PreviewCounts(data.Keys, styles.Keys, Restyled(styles, data), ActiveStyles(styles), mode)
      == TableChanges(styles, next, data.Keys, ActiveStyles(styles), ActiveStyles(next))
  {
    var next := PromotedStyles(styles, data, mode);
    SetsEqual(data.Keys * (next.Keys - styles.Keys), data.Keys - styles.Keys);
    forall c
      ensures c in Differing(styles, next, data.Keys) <==> c in Restyled(styles, data)
    {
      assert c in data && c in styles ==> c in next && next[c] == StyleOf(data[c]);
    }
    SetsEqual(Differing(styles, next, data.Keys), Restyled(styles, data));
    if mode == FullImport {
      forall c
        ensures c in ActiveStyles(styles) - ActiveStyles(next) <==> c in ActiveStyles(styles) - data.Keys
      {
        assert c in styles ==> c in next;
      }
      SetsEqual(ActiveStyles(styles) - ActiveStyles(next), ActiveStyles(styles) - data.Keys);
    } else {
      forall c
        ensures c !in ActiveStyles(styles) - ActiveStyles(next)
      {
        assert c in styles ==> c in next;
      }
      assert ActiveStyles(styles) - ActiveStyles(next) == {};
    }
  }

  lemma PreviewsSkus(cat: Catalog, data: map<SkuId, CatalogRow>, mode: ImportMode)
    requires forall c :: c in cat.skus ==> cat.skus[c].style in cat.styles
    ensures
      var next := PromotedSkus(cat.skus, data, mode);
      PreviewCounts(data.Keys, cat.skus.Keys, Respecified(cat, data), ActiveSkus(cat.skus), mode)
      == TableChanges(cat.skus, next, data.Keys, ActiveSkus(cat.skus), ActiveSkus(next))
  {
    var next := PromotedSkus(cat.skus, data, mode);
    SetsEqual(data.Keys * (next.Keys - cat.skus.Keys), data.Keys - cat.skus.Keys);
    forall c
      ensures c in Differing(cat.skus, next, data.Keys) <==> c in Respecified(cat, data)
    {
      assert c in data && c in cat.skus ==> c in next && next[c] == SkuOf(data[c]);
    }
    SetsEqual(Differing(cat.skus, next, data.Keys), Respecified(cat, data));
    if mode == FullImport {
      forall c
        ensures c in ActiveSkus(cat.skus) - ActiveSkus(next) <==> c in ActiveSkus(cat.skus) - data.Keys
      {
        assert c in cat.skus ==> c in next;
      }
      SetsEqual(ActiveSkus(cat.skus) - ActiveSkus(next), ActiveSkus(cat.skus) - data.Keys);
    } else {
      forall c
        ensures c !in ActiveSkus(cat.skus) - ActiveSkus(next)
      {
        assert c in cat.skus ==> c in next;
      }
      assert ActiveSkus(cat.skus) - ActiveSkus(next) == {};
    }
  }

  /** The open binding of an EPC after a promotion. */
  function OpenNext(open: Option<Binding>, supplied: Option<SkuId>, mode: ImportMode, t: Time): Option<Binding> {
    match supplied
    case Some(sku) => if open.Some? && open.value.sku == sku then open else Some(Binding(sku, t, None))
    case None => if mode == FullImport then None else open
  }

  lemma OpenAfter(cat: Catalog, mode: ImportMode, rows: seq<CatalogRow>, t: Time, latest: Time, epc: Epc)
    requires Timelines(cat, latest) && latest < t
    ensures OpenIn(Promoted(cat, mode, rows, t), epc) == OpenNext(OpenIn(cat, epc), SuppliedBy(rows, epc), mode, t)
  {
    BindingsAfter(cat, mode, rows, t, epc);
    TimelineOf(cat, latest, epc);
    ReboundOpen(BindingsOf(cat, epc), SuppliedBy(rows, epc), mode, t, latest);
  }

  function Lookup<T>(m: map<int, T>, k: int): Option<T> { if k in m then Some(m[k]) else None }

  lemma OpenBindingsAre(cat: Catalog)
    ensures forall epc {:trigger Lookup(OpenBindings(cat), epc)} :: Lookup(OpenBindings(cat), epc) == OpenIn(cat, epc)
  {
  }

  lemma PreviewsOpen(
    cat: Catalog, open: map<Epc, Binding>, next: map<Epc, Binding>, data: map<Epc, CatalogRow>, mode: ImportMode,
    t: Time)
    requires forall epc :: epc in open ==> open[epc].sku in cat.skus
    requires forall epc {:trigger Lookup(next, epc)} ::
            Lookup(next, epc) == OpenNext(Lookup(open, epc), SuppliedSku(data, epc), mode, t)
    ensures PreviewCounts(data.Keys, open.Keys, Rebinding(cat, open, data), open.Keys, mode)
         == TableChanges(open, next, data.Keys, open.Keys, next.Keys)
  {
    forall epc
      ensures epc in data.Keys * (next.Keys - open.Keys) <==> epc in data.Keys - open.Keys
    {
      assert Lookup(next, epc) == OpenNext(Lookup(open, epc), SuppliedSku(data, epc), mode, t);
    }
    SetsEqual(data.Keys * (next.Keys - open.Keys), data.Keys - open.Keys);
    forall epc
      ensures epc in Differing(open, next, data.Keys) <==> epc in Rebinding(cat, open, data)
    {
      assert Lookup(next, epc) == OpenNext(Lookup(open, epc), SuppliedSku(data, epc), mode, t);
    }
    SetsEqual(Differing(open, next, data.Keys), Rebinding(cat, open, data));
    if mode == FullImport {
      forall epc
        ensures epc in open.Keys - next.Keys <==> epc in open.Keys - data.Keys
      {
        assert Lookup(next, epc) == OpenNext(Lookup(open, epc), SuppliedSku(data, epc), mode, t);
      }
      SetsEqual(open.Keys - next.Keys, open.Keys - data.Keys);
    } else {
      forall epc
        ensures epc !in open.Keys - next.Keys
      {
        assert Lookup(next, epc) == OpenNext(Lookup(open, epc), SuppliedSku(data, epc), mode, t);
      }
      assert open.Keys - next.Keys == {};
    }
  }

  lemma OpenSku(cat: Catalog, epc: Epc)
    requires ForeignKeys(cat) && OpenIn(cat, epc).Some?
    ensures OpenIn(cat, epc).value.sku in cat.skus
  {
  }

  lemma PreviewsBindings(cat: Catalog, mode: ImportMode, rows: seq<CatalogRow>, t: Time, latest: Time)
    requires ForeignKeys(cat) && Timelines(cat, latest) && latest < t
    ensures
      var data, open, next := LastBy(rows, EpcKey), OpenBindings(cat), OpenBindings(Promoted(cat, mode, rows, t));
      PreviewCounts(data.Keys, open.Keys, Rebinding(cat, open, data), open.Keys, mode)
      == TableChanges(open, next, data.Keys, open.Keys, next.Keys)
  {
    var data, open, next := LastBy(rows, EpcKey), OpenBindings(cat), OpenBindings(Promoted(cat, mode, rows, t));
    OpenBindingsAre(cat);
    OpenBindingsAre(Promoted(cat, mode, rows, t));
    forall epc
      ensures Lookup(next, epc) == OpenNext(Lookup(open, epc), SuppliedSku(data, epc), mode, t)
      ensures epc in open ==> open[epc].sku in cat.skus
    {
      OpenAfter(cat, mode, rows, t, latest, epc);
      if epc in open {
        OpenSku(cat, epc);
      }
    }
    PreviewsOpen(cat, open, next, data, mode, t);
  }

  lemma PreviewPredictsPromoted(cat: Catalog, mode: ImportMode, rows: seq<CatalogRow>, t: Time, latest: Time)
    requires CatalogOk(cat, latest) && latest < t
    ensures
      var seen, made := Preview(cat, mode, rows), Changes(cat, Promoted(cat, mode, rows, t), rows);
      seen.styles == made.styles && seen.skus == made.skus && seen.bindings == made.bindings
  {
    FirstByRows(rows, StyleKey);
    FirstByRows(rows, SkuKey);
    LastByRows(rows, EpcKey);
    PreviewsStyles(cat.styles, FirstBy(rows, StyleKey), mode);
    PreviewsSkus(cat, FirstBy(rows, SkuKey), mode);
    PreviewsBindings(cat, mode, rows, t, latest);
  }

  lemma PromoteWrites(cat: Catalog, mode: ImportMode, rows: seq<CatalogRow>, t: Time)
    ensures Promote(cat, mode, rows, t).Ok? ==> Promote(cat, mode, rows, t).value == Promoted(cat, mode, rows, t)
  {
  }

  lemma SameOutcome(a: Outcome, b: Outcome)
    requires a.styles == b.styles && a.skus == b.skus && a.bindings == b.bindings
    ensures a == b
  {
  }

  /** The counts shown before a promotion are the changes the promotion makes. */
  lemma PreviewPredicts(cat: Catalog, mode: ImportMode, rows: seq<CatalogRow>, t: Time, latest: Time, next: Catalog)
    requires CatalogOk(cat, latest) && latest < t && Promote(cat, mode, rows, t) == Ok(next)
    ensures Preview(cat, mode, rows) == Changes(cat, next, rows)
  {
    PromoteWrites(cat, mode, rows, t);
    PreviewPredictsPromoted(cat, mode, rows, t, latest);
    SameOutcome(Preview(cat, mode, rows), Changes(cat, Promoted(cat, mode, rows, t), rows));
  }

  // ----- Promoting the same rows again -----

  lemma StylesSettle(styles: map<StyleCode, StyleRow>, data: map<StyleCode, CatalogRow>, mode: ImportMode)
    ensures PromotedStyles(PromotedStyles(styles, data, mode), data, mode) == PromotedStyles(styles, data, mode)
  {
  }

  lemma SkusSettle(skus: map<SkuId, SkuRow>, data: map<SkuId, CatalogRow>, mode: ImportMode)
    ensures PromotedSkus(PromotedSkus(skus, data, mode), data, mode) == PromotedSkus(skus, data, mode)
  {
  }

  lemma ReboundSettles(bs: seq<Binding>, supplied: Option<SkuId>, mode: ImportMode, t: Time, again: Time, latest: Time)
    requires Timeline(bs, latest) && latest < t
    ensures Rebound(Rebound(bs, supplied, mode, t), supplied, mode, again) == Rebound(bs, supplied, mode, t)
  {
    ReboundOpen(bs, supplied, mode, t, latest);
  }

  lemma BindingsSettle(cat: Catalog, mode: ImportMode, rows: seq<CatalogRow>, t: Time, again: Time, latest: Time)
    requires Timelines(cat, latest) && latest < t
    ensures
      var next := Promoted(cat, mode, rows, t);
      PromotedBindings(next, LastBy(rows, EpcKey), mode, again) == next.bindings
  {
    var next := Promoted(cat, mode, rows, t);
    var last := PromotedBindings(next, LastBy(rows, EpcKey), mode, again);
    assert last.Keys == next.bindings.Keys;
    forall epc | epc in next.bindings
      ensures last[epc] == next.bindings[epc]
    {
      TimelineOf(cat, latest, epc);
      ReboundSettles(BindingsOf(cat, epc), SuppliedBy(rows, epc), mode, t, again, latest);
    }
    MapsEqual(last, next.bindings);
  }

  lemma PromotedHasNoConflicts(cat: Catalog, mode: ImportMode, rows: seq<CatalogRow>, t: Time)
    requires Consistent(rows) && UniqueUpcs(Promoted(cat, mode, rows, t).skus)
    ensures NoConflicts(Promoted(cat, mode, rows, t), rows)
  {
    var next := Promoted(cat, mode, rows, t);
    FirstByRows(rows, SkuKey);
    forall r | r in rows
      ensures !RowConflicts(next, r)
    {
      KeyOfRow(rows, SkuKey, r);
      ConsistentRows(rows, FirstBy(rows, SkuKey)[r.sku], r);
      assert next.skus[r.sku].upc == r.upc && next.skus[r.sku].style == r.style;
    }
  }

  /** The second promotion of a file is accepted and writes nothing. */
  lemma PromotingAgainChangesNothing(
    cat: Catalog, mode: ImportMode, rows: seq<CatalogRow>, t: Time, again: Time, latest: Time)
    requires CatalogOk(cat, latest) && latest < t < again && Consistent(rows) && Promote(cat, mode, rows, t).Ok?
    ensures
      var next := Promote(cat, mode, rows, t).value;
      Promote(next, mode, rows, again) == Ok(next)
  {
    var next := Promote(cat, mode, rows, t).value;
    StylesSettle(cat.styles, FirstBy(rows, StyleKey), mode);
    SkusSettle(cat.skus, FirstBy(rows, SkuKey), mode);
    BindingsSettle(cat, mode, rows, t, again, latest);
    PromotionKeepsOk(cat, mode, rows, t, latest);
    PromotedHasNoConflicts(cat, mode, rows, t);
    PromotableIffNoConflicts(next, mode, rows, again, t);
  }

  lemma NoTableChanges<T>(m: map<int, T>, supplied: set<int>, live: set<int>)
    requires supplied <= m.Keys
    ensures TableChanges(m, m, supplied, live, live) == Counts(0, 0, |supplied|, 0)
  {
    assert supplied * (m.Keys - m.Keys) == {};
    assert Differing(m, m, supplied) == {};
    assert (supplied * m.Keys) - {} == supplied;
    assert live - live == {};
  }

  /** So it reports every supplied style, SKU and EPC as unchanged, and nothing else. */
  lemma SecondPreviewIsUnchanged(
    cat: Catalog, mode: ImportMode, rows: seq<CatalogRow>, t: Time, latest: Time)
    requires CatalogOk(cat, latest) && latest < t && Consistent(rows) && Promote(cat, mode, rows, t).Ok?
    ensures
      Preview(Promote(cat, mode, rows, t).value, mode, rows) ==
      Outcome(
        Counts(0, 0, |KeysOf(rows, StyleKey)|, 0),
        Counts(0, 0, |KeysOf(rows, SkuKey)|, 0),
        Counts(0, 0, |KeysOf(rows, EpcKey)|, 0))
  {
    var next := Promote(cat, mode, rows, t).value;
    PromotingAgainChangesNothing(cat, mode, rows, t, t + 1, latest);
    PromotionKeepsOk(cat, mode, rows, t, latest);
    PreviewPredicts(next, mode, rows, t + 1, t, next);
    SuppliedAreStored(cat, mode, rows, t, latest);
    NoTableChanges(next.styles, KeysOf(rows, StyleKey), ActiveStyles(next.styles));
    NoTableChanges(next.skus, KeysOf(rows, SkuKey), ActiveSkus(next.skus));
    NoTableChanges(OpenBindings(next), KeysOf(rows, EpcKey), OpenBindings(next).Keys);
  }

  lemma SuppliedAreStored(cat: Catalog, mode: ImportMode, rows: seq<CatalogRow>, t: Time, latest: Time)
    requires Timelines(cat, latest) && latest < t
    ensures
      var next := Promoted(cat, mode, rows, t);
      && KeysOf(rows, StyleKey) <= next.styles.Keys && KeysOf(rows, SkuKey) <= next.skus.Keys
      && KeysOf(rows, EpcKey) <= OpenBindings(next).Keys
  {
    var next := Promoted(cat, mode, rows, t);
    FirstByRows(rows, StyleKey);
    FirstByRows(rows, SkuKey);
    LastByRows(rows, EpcKey);
    OpenBindingsAre(next);
    forall epc | epc in KeysOf(rows, EpcKey)
      ensures epc in OpenBindings(next)
    {
      OpenAfter(cat, mode, rows, t, latest, epc);
      assert Lookup(OpenBindings(next), epc).Some?;
    }
  }

  // ----- The current-state hierarchy -----

  /** Active tags are the open bindings. */
  ghost predicate TagsAgree(cat: Catalog, h: Hierarchy) {
    forall epc :: ActiveTag(h, epc) == OpenSkuIn(cat, epc)
  }

  function ActiveTag(h: Hierarchy, epc: Epc): Option<SkuId> {
    if epc in h.tags && h.tags[epc].active then Some(h.tags[epc].sku) else None
  }

  function OpenSkuIn(cat: Catalog, epc: Epc): Option<SkuId> {
    if OpenIn(cat, epc).Some? then Some(OpenIn(cat, epc).value.sku) else None
  }

  /** Products are the styles. */
  ghost predicate ProductsAgree(cat: Catalog, h: Hierarchy) {
    && h.products.Keys == cat.styles.Keys
    && forall c :: c in cat.styles ==>
         h.products[c] ==
         ProductRow(cat.styles[c].name, CategoryOf(cat.styles[c].attributes), cat.styles[c].attributes,
             cat.styles[c].active)
  }

  /** Every active SKU refers to the variant of its style and color, and that variant is active. */
  ghost predicate VariantsAgree(cat: Catalog, h: Hierarchy) {
    forall c :: c in cat.skus && cat.skus[c].active ==>
      var v := VariantKey(cat.skus[c].style, cat.skus[c].color);
      c in h.references && h.references[c] == v && v in h.variants && h.variants[v]
  }

  lemma TagStaysInStep(
    cat: Catalog, h: Hierarchy, mode: ImportMode, rows: seq<CatalogRow>, t: Time, latest: Time, epc: Epc)
    requires Timelines(cat, latest) && latest < t && ActiveTag(h, epc) == OpenSkuIn(cat, epc)
    ensures ActiveTag(Synced(h, mode, rows), epc) == OpenSkuIn(Promoted(cat, mode, rows, t), epc)
  {
    OpenAfter(cat, mode, rows, t, latest, epc);
  }

  /** Tags stay in step whatever the rows are. */
  lemma TagsStayInStep(cat: Catalog, h: Hierarchy, mode: ImportMode, rows: seq<CatalogRow>, t: Time, latest: Time)
    requires Timelines(cat, latest) && latest < t && TagsAgree(cat, h)
    ensures TagsAgree(Promoted(cat, mode, rows, t), Synced(h, mode, rows))
  {
    forall epc
      ensures ActiveTag(Synced(h, mode, rows), epc) == OpenSkuIn(Promoted(cat, mode, rows, t), epc)
    {
      assert ActiveTag(h, epc) == OpenSkuIn(cat, epc);
      TagStaysInStep(cat, h, mode, rows, t, latest, epc);
    }
  }

  /** The first and the last row of each style say the same about it. */
  ghost predicate StyleEndsAgree(rows: seq<CatalogRow>) {
    var first, last := FirstBy(rows, StyleKey), LastBy(rows, StyleKey);
    forall c :: c in first && c in last ==> SameStyle(first[c], last[c])
  }

  /** One side keeps the first row of a style, the other the last: that is all that can part them. */
  lemma ProductsAgreeIff(cat: Catalog, h: Hierarchy, mode: ImportMode, rows: seq<CatalogRow>, t: Time)
    requires ProductsAgree(cat, h)
    ensures ProductsAgree(Promoted(cat, mode, rows, t), Synced(h, mode, rows)) <==> StyleEndsAgree(rows)
  {
    var next, h' := Promoted(cat, mode, rows, t), Synced(h, mode, rows);
    var first, last := FirstBy(rows, StyleKey), LastBy(rows, StyleKey);
    FirstByRows(rows, StyleKey);
    LastByRows(rows, StyleKey);
    forall c | c in next.styles
      ensures c in h'.products
      ensures h'.products[c] == ProductRow(
                next.styles[c].name, CategoryOf(next.styles[c].attributes), next.styles[c].attributes,
                next.styles[c].active)
              <==> (c in first && c in last ==> SameStyle(first[c], last[c]))
    {
    }
  }

  /** Consistency makes the two rows say the same. */
  lemma ProductsStayInStep(cat: Catalog, h: Hierarchy, mode: ImportMode, rows: seq<CatalogRow>, t: Time)
    requires Consistent(rows) && ProductsAgree(cat, h)
    ensures ProductsAgree(Promoted(cat, mode, rows, t), Synced(h, mode, rows))
  {
    var first, last := FirstBy(rows, StyleKey), LastBy(rows, StyleKey);
    FirstByRows(rows, StyleKey);
    LastByRows(rows, StyleKey);
    forall c | c in first
      ensures SameStyle(first[c], last[c])
    {
      ConsistentRows(rows, first[c], last[c]);
    }
    ProductsAgreeIff(cat, h, mode, rows, t);
  }

  /** The first and the last row of each SKU name the same style and color. */
  ghost predicate SkuEndsAgree(rows: seq<CatalogRow>) {
    var first, last := FirstBy(rows, SkuKey), LastBy(rows, SkuKey);
    forall c :: c in first && c in last ==> VariantOf(first[c]) == VariantOf(last[c])
  }

  lemma VariantsAgreeIff(cat: Catalog, h: Hierarchy, mode: ImportMode, rows: seq<CatalogRow>, t: Time)
    requires VariantsAgree(cat, h)
    ensures VariantsAgree(Promoted(cat, mode, rows, t), Synced(h, mode, rows)) <==> SkuEndsAgree(rows)
  {
    var next, h' := Promoted(cat, mode, rows, t), Synced(h, mode, rows);
    var first, last := FirstBy(rows, SkuKey), LastBy(rows, SkuKey);
    FirstByRows(rows, SkuKey);
    LastByRows(rows, SkuKey);
    forall c | c in next.skus && next.skus[c].active
      ensures
        var v := VariantKey(next.skus[c].style, next.skus[c].color);
        c in h'.references && h'.references[c] == v && v in h'.variants && h'.variants[v]
        <==> (c in first && c in last ==> VariantOf(first[c]) == VariantOf(last[c]))
    {
      if c in first {
        assert VariantOf(first[c]) in VariantsOf(rows);
      }
    }
    forall c | c in first
      ensures c in next.skus && next.skus[c].active
    {
    }
  }

  lemma VariantsStayInStep(cat: Catalog, h: Hierarchy, mode: ImportMode, rows: seq<CatalogRow>, t: Time)
    requires Consistent(rows) && VariantsAgree(cat, h)
    ensures VariantsAgree(Promoted(cat, mode, rows, t), Synced(h, mode, rows))
  {
    var first, last := FirstBy(rows, SkuKey), LastBy(rows, SkuKey);
    FirstByRows(rows, SkuKey);
    LastByRows(rows, SkuKey);
    forall c | c in first
      ensures VariantOf(first[c]) == VariantOf(last[c])
    {
      ConsistentRows(rows, first[c], last[c]);
    }
    VariantsAgreeIff(cat, h, mode, rows, t);
  }

  lemma TwoRows(a: CatalogRow, b: CatalogRow, key: CatalogRow -> int)
    ensures FirstBy([a, b], key) == if key(a) == key(b) then map[key(a) := a] else map[key(a) := a, key(b) := b]
    ensures LastBy([a, b], key)[key(b)] == b
  {
    assert [a, b][..1] == [a] && [a][..0] == [];
    assert FirstBy([a], key) == map[key(a) := a];
  }

  /** A promotion after which product and style disagree. */
  ghost predicate Disagreement(cat: Catalog, h: Hierarchy, rows: seq<CatalogRow>, t: Time, latest: Time) {
    && CatalogOk(cat, latest) && ProductsAgree(cat, h) && latest < t
    && Promote(cat, DeltaImport, rows, t).Ok?
    && !ProductsAgree(Promote(cat, DeltaImport, rows, t).value, Synced(h, DeltaImport, rows))
  }

  /** Without the consistency check one promotion can leave product and style in disagreement. */
  lemma ProductsCanDisagree()
    ensures exists cat, h, rows, t, latest :: Disagreement(cat, h, rows, t, latest)
  {
    var a := CatalogRow(1, 10, StyleAttributes(None, 0), 1, 1, 1, 1, 0, 1);
    var b := CatalogRow(1, 20, StyleAttributes(None, 0), 2, 2, 1, 1, 0, 2);
    TwoStylesDisagree(a, b);
    assert Disagreement(Catalog(map[], map[], map[]), NO_HIERARCHY, [a, b], 1, 0);
  }

  lemma TwoStylesPromote(a: CatalogRow, b: CatalogRow)
    requires a.style == b.style && a.sku != b.sku && a.upc != b.upc
    ensures
      var cat := Catalog(map[], map[], map[]);
      Promote(cat, DeltaImport, [a, b], 1) == Ok(Promoted(cat, DeltaImport, [a, b], 1))
  {
    var cat := Catalog(map[], map[], map[]);
    TwoRows(a, b, SkuKey);
    PromotionKeepsTimelines(cat, DeltaImport, [a, b], 1, 0);
    assert UniqueUpcs(Promoted(cat, DeltaImport, [a, b], 1).skus);
  }

  lemma TwoStylesDisagree(a: CatalogRow, b: CatalogRow)
    requires a.style == b.style && a.sku != b.sku && a.upc != b.upc && a.styleName != b.styleName
    ensures Disagreement(Catalog(map[], map[], map[]), NO_HIERARCHY, [a, b], 1, 0)
  {
    var cat := Catalog(map[], map[], map[]);
    TwoRows(a, b, StyleKey);
    TwoStylesPromote(a, b);
    DisagreeOn(Promoted(cat, DeltaImport, [a, b], 1), Synced(NO_HIERARCHY, DeltaImport, [a, b]), a.style);
  }

  lemma DisagreeOn(cat: Catalog, h: Hierarchy, c: StyleCode)
    requires c in cat.styles && c in h.products && h.products[c].name != cat.styles[c].name
    ensures !ProductsAgree(cat, h)
  {
  }

  // ----- Runs of imports -----

  datatype Import = Import(mode: ImportMode, rows: seq<CatalogRow>, at: Time)

  /** Imports are validated before they are promoted, and the database clock moves on. */
  ghost predicate InOrder(imports: seq<Import>, latest: Time)
    decreases |imports|
  {
    imports == []
    || (latest < imports[0].at && Consistent(imports[0].rows) && InOrder(imports[1..], imports[0].at))
  }

  ghost function PromoteOne(cat: Catalog, h: Hierarchy, i: Import): (Catalog, Hierarchy) {
    match Promote(cat, i.mode, i.rows, i.at)
    case Ok(next) => (next, Synced(h, i.mode, i.rows))
    case Err(_) => (cat, h)
  }

  ghost function PromoteAll(cat: Catalog, h: Hierarchy, imports: seq<Import>): (Catalog, Hierarchy)
    decreases |imports|
  {
    if imports == [] then (cat, h)
    else
      var (next, h') := PromoteOne(cat, h, imports[0]);
      PromoteAll(next, h', imports[1..])
  }

  ghost predicate InStep(cat: Catalog, h: Hierarchy, latest: Time) {
    CatalogOk(cat, latest) && TagsAgree(cat, h) && ProductsAgree(cat, h) && VariantsAgree(cat, h)
  }

  lemma TimelinesGrow(cat: Catalog, latest: Time, t: Time)
    requires CatalogOk(cat, latest) && latest <= t
    ensures CatalogOk(cat, t)
  {
    forall epc | epc in cat.bindings
      ensures Timeline(cat.bindings[epc], t)
    {
      TimelineGrows(cat.bindings[epc], latest, t);
    }
  }

  lemma ImportKeeps(cat: Catalog, h: Hierarchy, i: Import, latest: Time)
    requires InStep(cat, h, latest) && latest < i.at && Consistent(i.rows)
    ensures InStep(PromoteOne(cat, h, i).0, PromoteOne(cat, h, i).1, i.at)
  {
    TimelinesGrow(cat, latest, i.at);
    PromoteWrites(cat, i.mode, i.rows, i.at);
    if Promote(cat, i.mode, i.rows, i.at).Ok? {
      PromotionKeepsOk(cat, i.mode, i.rows, i.at, latest);
      TagsStayInStep(cat, h, i.mode, i.rows, i.at, latest);
      ProductsStayInStep(cat, h, i.mode, i.rows, i.at);
      VariantsStayInStep(cat, h, i.mode, i.rows, i.at);
    }
  }

  function LastTime(imports: seq<Import>, latest: Time): Time {
    if imports == [] then latest else imports[|imports| - 1].at
  }

  lemma {:induction false} ImportsStayInStep(cat: Catalog, h: Hierarchy, imports: seq<Import>, latest: Time)
    requires InStep(cat, h, latest) && InOrder(imports, latest)
    ensures InStep(PromoteAll(cat, h, imports).0, PromoteAll(cat, h, imports).1, LastTime(imports, latest))
    decreases |imports|
  {
    if imports != [] {
      var (next, h') := PromoteOne(cat, h, imports[0]);
      ImportKeeps(cat, h, imports[0], latest);
      ImportsStayInStep(next, h', imports[1..], imports[0].at);
    }
  }

  lemma StartInStep(latest: Time)
    ensures InStep(Catalog(map[], map[], map[]), NO_HIERARCHY, latest)
  {
  }

  /**
   After any sequence of validated imports the tables are well formed, tags agree with open
   bindings, products with styles and active SKUs with the variants they refer to.
   */
  lemma ReachableInStep(imports: seq<Import>, latest: Time)
    requires InOrder(imports, latest)
    ensures
      var (cat, h) := PromoteAll(Catalog(map[], map[], map[]), NO_HIERARCHY, imports);
      InStep(cat, h, LastTime(imports, latest))
  {
    StartInStep(latest);
    ImportsStayInStep(Catalog(map[], map[], map[]), NO_HIERARCHY, imports, latest);
  }

  lemma ImportKeepsPast(cat: Catalog, h: Hierarchy, i: Import, latest: Time, epc: Epc, u: Time)
    requires CatalogOk(cat, latest) && u <= latest < i.at
    ensures ResolvedTo(BindingsOf(PromoteOne(cat, h, i).0, epc), u) == ResolvedTo(BindingsOf(cat, epc), u)
  {
    if Promote(cat, i.mode, i.rows, i.at).Ok? {
      PromotionResolves(cat, i.mode, i.rows, i.at, latest, epc, u);
    }
  }

  /** What an EPC resolved to at any moment up to now is never changed by a later import. */
  lemma {:induction false} ImportsKeepHistory(
    cat: Catalog, h: Hierarchy, imports: seq<Import>, latest: Time, epc: Epc, u: Time)
    requires InStep(cat, h, latest) && InOrder(imports, latest) && u <= latest
    ensures ResolvedTo(BindingsOf(PromoteAll(cat, h, imports).0, epc), u) == ResolvedTo(BindingsOf(cat, epc), u)
    decreases |imports|
  {
    if imports != [] {
      var (next, h') := PromoteOne(cat, h, imports[0]);
      ImportKeeps(cat, h, imports[0], latest);
      ImportKeepsPast(cat, h, imports[0], latest, epc, u);
      ImportsKeepHistory(next, h', imports[1..], imports[0].at, epc, u);
    }
  }
}
