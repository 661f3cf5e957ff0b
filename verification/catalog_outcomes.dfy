/**
 What the row checks report and what a promotion writes for each style, SKU, product,
 variant and tag, said by the rows of the file and their order.
 */
module CatalogOutcomes {
  import opened Basics
  import opened Observations
  import opened Catalogs

  // ----- Rows by their place in the file -----

  /** Row i is the first of its key. */
  ghost predicate FirstAt(rows: seq<CatalogRow>, key: CatalogRow -> int, k: int, i: nat) {
    i < |rows| && key(rows[i]) == k && forall j :: 0 <= j < i ==> key(rows[j]) != k
  }

  /** Row i is the last of its key. */
  ghost predicate LastAt(rows: seq<CatalogRow>, key: CatalogRow -> int, k: int, i: nat) {
    i < |rows| && key(rows[i]) == k && forall j :: i < j < |rows| ==> key(rows[j]) != k
  }

  ghost predicate NoRow(rows: seq<CatalogRow>, key: CatalogRow -> int, k: int) {
    forall i :: 0 <= i < |rows| ==> key(rows[i]) != k
  }

  lemma {:induction false} FirstByPlace(rows: seq<CatalogRow>, key: CatalogRow -> int, k: int)
    ensures k !in FirstBy(rows, key) <==> NoRow(rows, key, k)
    ensures forall i: nat :: FirstAt(rows, key, k, i) ==> k in FirstBy(rows, key) && FirstBy(rows, key)[k] == rows[i]
    ensures k in FirstBy(rows, key) ==> exists i: nat :: FirstAt(rows, key, k, i)
  {
    if rows != [] {
      var front, last := rows[..|rows| - 1], rows[|rows| - 1];
      FirstByPlace(front, key, k);
      forall i: nat | i < |front|
        ensures FirstAt(rows, key, k, i) <==> FirstAt(front, key, k, i)
      {
        assert forall j :: 0 <= j < |front| ==> front[j] == rows[j];
      }
      if NoRow(front, key, k) && key(last) == k {
        assert FirstAt(rows, key, k, |front|);
      }
    }
  }

  lemma {:induction false} NoRowNoKey(rows: seq<CatalogRow>, key: CatalogRow -> int, k: int)
    ensures k !in LastBy(rows, key) <==> NoRow(rows, key, k)
  {
    if rows != [] {
      var front, last := rows[..|rows| - 1], rows[|rows| - 1];
      NoRowNoKey(front, key, k);
      assert NoRow(rows, key, k) <==> NoRow(front, key, k) && key(last) != k;
    }
  }

  lemma {:induction false} LastByPlace(rows: seq<CatalogRow>, key: CatalogRow -> int, k: int, i: nat)
    requires LastAt(rows, key, k, i)
    ensures k in LastBy(rows, key) && LastBy(rows, key)[k] == rows[i]
  {
    var n := |rows| - 1;
    if i < n {
      assert key(rows[n]) != k;
      assert LastAt(rows[..n], key, k, i);
      LastByPlace(rows[..n], key, k, i);
    }
  }

  lemma LastByPlaces(rows: seq<CatalogRow>, key: CatalogRow -> int, k: int)
    ensures k !in LastBy(rows, key) <==> NoRow(rows, key, k)
    ensures forall i: nat :: LastAt(rows, key, k, i) ==> k in LastBy(rows, key) && LastBy(rows, key)[k] == rows[i]
  {
    NoRowNoKey(rows, key, k);
    forall i: nat | LastAt(rows, key, k, i)
      ensures k in LastBy(rows, key) && LastBy(rows, key)[k] == rows[i]
    {
      LastByPlace(rows, key, k, i);
    }
  }

  // ----- What the checks report -----

  predicate StyleDiffers(a: CatalogRow, r: CatalogRow) {
    a.styleName != r.styleName || a.styleAttributes != r.styleAttributes
  }

  predicate SkuDiffers(a: CatalogRow, r: CatalogRow) {
    a.style != r.style || a.upc != r.upc || a.color != r.color || a.size != r.size || a.attributes != r.attributes
  }

  /** What is reported of a row against the first rows of its style, SKU, UPC and EPC before it. */
  ghost predicate ReportedAs(before: seq<CatalogRow>, r: CatalogRow, issues: RowIssues) {
    && (issues.style <==> exists i: nat :: FirstAt(before, StyleKey, r.style, i) && StyleDiffers(before[i], r))
    && (issues.sku <==> exists i: nat :: FirstAt(before, SkuKey, r.sku, i) && SkuDiffers(before[i], r))
    && (issues.upc <==> exists i: nat :: FirstAt(before, UpcKey, r.upc, i) && before[i].sku != r.sku)
    && (issues.epc == NoEpcIssue <==> NoRow(before, EpcKey, r.epc))
    && (issues.epc == DuplicateEpc <==>
          exists i: nat :: FirstAt(before, EpcKey, r.epc, i) && before[i].sku == r.sku)
    && (issues.epc == EpcConflict <==>
          exists i: nat :: FirstAt(before, EpcKey, r.epc, i) && before[i].sku != r.sku)
  }

  lemma IssuesReported(before: seq<CatalogRow>, r: CatalogRow)
    ensures ReportedAs(before, r, IssuesOf(before, r))
  {
    FirstByPlace(before, StyleKey, r.style);
    FirstByPlace(before, SkuKey, r.sku);
    FirstByPlace(before, UpcKey, r.upc);
    FirstByPlace(before, EpcKey, r.epc);
  }

  // ----- What a promotion writes -----

  /** A listed style is what its first row says; an unlisted one is switched off by a full import only. */
  lemma StyleWritten(cat: Catalog, mode: ImportMode, rows: seq<CatalogRow>, t: Time, c: StyleCode)
    ensures
      var next := Promoted(cat, mode, rows, t).styles;
      && (forall i: nat :: FirstAt(rows, StyleKey, c, i) ==>
            c in next && next[c] == StyleRow(rows[i].styleName, rows[i].styleAttributes, true))
      && (NoRow(rows, StyleKey, c) ==> (c in next <==> c in cat.styles))
      && (NoRow(rows, StyleKey, c) && c in next ==>
            && next[c].name == cat.styles[c].name && next[c].attributes == cat.styles[c].attributes
            && (next[c].active <==> cat.styles[c].active && mode == DeltaImport))
  {
    FirstByPlace(rows, StyleKey, c);
  }

  lemma SkuWritten(cat: Catalog, mode: ImportMode, rows: seq<CatalogRow>, t: Time, c: SkuId)
    ensures
      var next := Promoted(cat, mode, rows, t).skus;
      && (forall i: nat :: FirstAt(rows, SkuKey, c, i) ==>
            c in next && next[c] == SkuRow(
              rows[i].style, rows[i].upc, rows[i].color, rows[i].size, rows[i].attributes, true))
      && (NoRow(rows, SkuKey, c) ==> (c in next <==> c in cat.skus))
      && (NoRow(rows, SkuKey, c) && c in next ==>
            && next[c] == cat.skus[c].(active := next[c].active)
            && (next[c].active <==> cat.skus[c].active && mode == DeltaImport))
  {
    FirstByPlace(rows, SkuKey, c);
  }

  /** Products follow the last row of their style; without a category they are uncategorized. */
  lemma ProductWritten(h: Hierarchy, mode: ImportMode, rows: seq<CatalogRow>, c: StyleCode)
    ensures
      var next := Synced(h, mode, rows).products;
      && (forall i: nat :: LastAt(rows, StyleKey, c, i) ==>
            && c in next && next[c].name == rows[i].styleName && next[c].attributes == rows[i].styleAttributes
            && next[c].active
            && next[c].category == (if rows[i].styleAttributes.category.Some?
                then rows[i].styleAttributes.category.value else UNCATEGORIZED))
      && (NoRow(rows, StyleKey, c) ==> (c in next <==> c in h.products))
      && (NoRow(rows, StyleKey, c) && c in next ==>
            && next[c] == h.products[c].(active := next[c].active)
            && (next[c].active <==> h.products[c].active && mode == DeltaImport))
  {
    LastByPlaces(rows, StyleKey, c);
  }

  /**
   A variant is active when some row is of its style and color, or when a delta import does not
   list it and it was.
   */
  lemma VariantWritten(h: Hierarchy, mode: ImportMode, rows: seq<CatalogRow>, v: VariantKey)
    ensures
      var next := Synced(h, mode, rows).variants;
      var listed := exists r :: r in rows && r.style == v.style && r.color == v.color;
      && (v in next <==> listed || v in h.variants)
      && (v in next ==> (next[v] <==> listed || (mode == DeltaImport && h.variants[v])))
  {
    if exists r :: r in rows && r.style == v.style && r.color == v.color {
      var r :| r in rows && r.style == v.style && r.color == v.color;
      assert VariantOf(r) == v;
    }
  }

  /** A SKU refers to the variant of its last row, and a tag to the SKU of its EPC's last row. */
  lemma ReferenceWritten(h: Hierarchy, mode: ImportMode, rows: seq<CatalogRow>, c: SkuId, epc: Epc)
    ensures
      var next := Synced(h, mode, rows);
      && (forall i: nat :: LastAt(rows, SkuKey, c, i) ==>
            c in next.references && next.references[c] == VariantKey(rows[i].style, rows[i].color))
      && (NoRow(rows, SkuKey, c) ==>
            && (c in next.references <==> c in h.references)
            && (c in next.references ==> next.references[c] == h.references[c]))
      && (forall i: nat :: LastAt(rows, EpcKey, epc, i) ==>
            epc in next.tags && next.tags[epc] == TagRow(rows[i].sku, true))
      && (NoRow(rows, EpcKey, epc) ==>
            && (epc in next.tags <==> epc in h.tags)
            && (epc in next.tags ==>
                  && next.tags[epc].sku == h.tags[epc].sku
                  && (next.tags[epc].active <==> h.tags[epc].active && mode == DeltaImport)))
  {
    LastByPlaces(rows, SkuKey, c);
    LastByPlaces(rows, EpcKey, epc);
  }

  // ----- When a promotion is refused -----

  /** Another stored SKU has the UPC, or the SKU is stored under another stored style. */
  predicate Contradicts(cat: Catalog, r: CatalogRow) {
    || (exists other :: other in cat.skus && other != r.sku && cat.skus[other].upc == r.upc)
    || (r.sku in cat.skus && cat.skus[r.sku].style != r.style && cat.skus[r.sku].style in cat.styles)
  }

  /** The first row of some SKU contradicts the stored catalog. */
  ghost predicate FileContradicts(cat: Catalog, rows: seq<CatalogRow>) {
    exists i: nat :: i < |rows| && FirstAt(rows, SkuKey, rows[i].sku, i) && Contradicts(cat, rows[i])
  }

  lemma PromotionRefused(cat: Catalog, mode: ImportMode, rows: seq<CatalogRow>, t: Time)
    ensures Promote(cat, mode, rows, t) == Err(PromotionConflict) <==> FileContradicts(cat, rows)
  {
    var data := FirstBy(rows, SkuKey);
    forall c
      ensures c in data && RowConflicts(cat, data[c]) ==> FileContradicts(cat, rows)
    {
      FirstByPlace(rows, SkuKey, c);
      if c in data && RowConflicts(cat, data[c]) {
        var i: nat :| FirstAt(rows, SkuKey, c, i);
        assert FirstAt(rows, SkuKey, rows[i].sku, i) && Contradicts(cat, rows[i]);
      }
    }
    if FileContradicts(cat, rows) {
      var i: nat :| i < |rows| && FirstAt(rows, SkuKey, rows[i].sku, i) && Contradicts(cat, rows[i]);
      FirstByPlace(rows, SkuKey, rows[i].sku);
      assert rows[i].sku in data && RowConflicts(cat, data[rows[i].sku]);
    }
  }
}
