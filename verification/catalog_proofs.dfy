/**
 What an import may rely on: the row checks accept exactly the files that do not contradict
 themselves, the preview predicts the promotion, and a second promotion changes nothing.
 */
module CatalogProofs {
  import opened Basics
  import opened Observations
  import opened Bindings
  import opened Catalogs

  // ----- Rows by key -----

  lemma {:induction false} FirstByRows(rows: seq<CatalogRow>, key: CatalogRow -> int)
    ensures FirstBy(rows, key).Keys == KeysOf(rows, key)
    ensures forall k :: k in FirstBy(rows, key) ==> FirstBy(rows, key)[k] in rows && key(FirstBy(rows, key)[k]) == k
  {
    if rows != [] {
      var front, last := rows[..|rows| - 1], rows[|rows| - 1];
      FirstByRows(front, key);
      assert KeysOf(rows, key) == KeysOf(front, key) + {key(last)} by {
        assert forall r :: r in rows <==> r in front || r == last;
      }
    }
  }

  lemma {:induction false} LastByRows(rows: seq<CatalogRow>, key: CatalogRow -> int)
    ensures LastBy(rows, key).Keys == KeysOf(rows, key)
    ensures forall k :: k in LastBy(rows, key) ==> LastBy(rows, key)[k] in rows && key(LastBy(rows, key)[k]) == k
  {
    if rows != [] {
      var front, last := rows[..|rows| - 1], rows[|rows| - 1];
      LastByRows(front, key);
      assert KeysOf(rows, key) == KeysOf(front, key) + {key(last)} by {
        assert forall r :: r in rows <==> r in front || r == last;
      }
    }
  }

  lemma KeyOfRow(rows: seq<CatalogRow>, key: CatalogRow -> int, r: CatalogRow)
    requires r in rows
    ensures key(r) in KeysOf(rows, key)
  {
  }

  // ----- The row checks accept exactly the consistent files -----

  /** A row agrees with the first row of each of its keys. */
  ghost predicate AgreesWithFirst(rows: seq<CatalogRow>, r: CatalogRow) {
    && r.style in FirstBy(rows, StyleKey) && SameStyle(FirstBy(rows, StyleKey)[r.style], r)
    && r.sku in FirstBy(rows, SkuKey) && SameSku(FirstBy(rows, SkuKey)[r.sku], r)
    && r.upc in FirstBy(rows, UpcKey) && FirstBy(rows, UpcKey)[r.upc].sku == r.sku
  }

  lemma AgreesLater(rows: seq<CatalogRow>, last: CatalogRow, r: CatalogRow)
    requires AgreesWithFirst(rows, r)
    ensures AgreesWithFirst(rows + [last], r)
  {
  }

  lemma CleanAgrees(rows: seq<CatalogRow>, last: CatalogRow)
    requires IssuesOf(rows, last) == CLEAN
    ensures AgreesWithFirst(rows + [last], last)
    ensures forall r :: r in rows ==> r.epc != last.epc
  {
    assert (rows + [last])[..|rows|] == rows;
    FirstByRows(rows, EpcKey);
    forall r | r in rows
      ensures r.epc != last.epc
    {
      KeyOfRow(rows, EpcKey, r);
    }
  }

  lemma LastEpcIsNew(front: seq<CatalogRow>, last: CatalogRow)
    requires forall i, j :: 0 <= i < j < |front| ==> front[i].epc != front[j].epc
    requires forall r :: r in front ==> r.epc != last.epc
    ensures
      var rows := front + [last];
      forall i, j :: 0 <= i < j < |rows| ==> rows[i].epc != rows[j].epc
  {
  }

  lemma {:induction false} NoIssuesAgree(rows: seq<CatalogRow>)
    requires NoIssues(rows)
    ensures forall r :: r in rows ==> AgreesWithFirst(rows, r)
    ensures forall i, j :: 0 <= i < j < |rows| ==> rows[i].epc != rows[j].epc
  {
    if rows != [] {
      var front, last := rows[..|rows| - 1], rows[|rows| - 1];
      assert rows == front + [last];
      assert NoIssues(front) by {
        forall i | 0 <= i < |front|
          ensures IssuesOf(front[..i], front[i]) == CLEAN
        {
          assert front[..i] == rows[..i] && front[i] == rows[i];
        }
      }
      NoIssuesAgree(front);
      CleanAgrees(front, last);
      forall r | r in rows
        ensures AgreesWithFirst(rows, r)
      {
        if r in front {
          AgreesLater(front, last, r);
        }
      }
      LastEpcIsNew(front, last);
    }
  }

  lemma ConsistentIsClean(rows: seq<CatalogRow>, i: nat)
    requires Consistent(rows) && i < |rows|
    ensures IssuesOf(rows[..i], rows[i]) == CLEAN
  {
    FirstByRows(rows[..i], StyleKey);
    FirstByRows(rows[..i], SkuKey);
    FirstByRows(rows[..i], UpcKey);
    FirstByRows(rows[..i], EpcKey);
    forall r | r in rows[..i]
      ensures Compatible(r, rows[i])
    {
      var j :| 0 <= j < i && rows[..i][j] == r;
      assert Compatible(rows[j], rows[i]);
    }
  }

  /** No row is reported exactly when no two rows of the file contradict each other. */
  lemma NoIssuesIffConsistent(rows: seq<CatalogRow>)
    ensures NoIssues(rows) <==> Consistent(rows)
  {
    if NoIssues(rows) {
      NoIssuesAgree(rows);
      forall i, j | 0 <= i < j < |rows|
        ensures Compatible(rows[i], rows[j])
      {
        assert rows[i] in rows && rows[j] in rows;
        assert AgreesWithFirst(rows, rows[i]) && AgreesWithFirst(rows, rows[j]);
      }
    }
    if Consistent(rows) {
      forall i | 0 <= i < |rows|
        ensures IssuesOf(rows[..i], rows[i]) == CLEAN
      {
        ConsistentIsClean(rows, i);
      }
    }
  }

  lemma ConsistentRows(rows: seq<CatalogRow>, a: CatalogRow, b: CatalogRow)
    requires Consistent(rows) && a in rows && b in rows
    ensures a == b || (Compatible(a, b) && Compatible(b, a))
  {
  }

  // ----- Well-formed tables -----

  /** One binding ends no later than the other begins. */
  predicate Precedes(a: Binding, b: Binding) {
    a.to.Some? && a.to.value <= b.from
  }

  predicate Within(b: Binding, latest: Time) {
    ValidInterval(b) && b.from <= latest && (b.to.Some? ==> b.to.value <= latest)
  }

  /** The bindings of one EPC in order: disjoint intervals, only the last one may be open. */
  ghost predicate Timeline(bs: seq<Binding>, latest: Time) {
    && (forall i {:trigger Within(bs[i], latest)} :: 0 <= i < |bs| ==> Within(bs[i], latest))
    && (forall i, j {:trigger Precedes(bs[i], bs[j])} :: 0 <= i < j < |bs| ==> Precedes(bs[i], bs[j]))
  }

  ghost predicate ForeignKeys(cat: Catalog) {
    && (forall c :: c in cat.skus ==> cat.skus[c].style in cat.styles)
    && (forall epc {:trigger cat.bindings[epc]} :: epc in cat.bindings ==>
          forall b :: b in cat.bindings[epc] ==> b.sku in cat.skus)
  }

  ghost predicate Timelines(cat: Catalog, latest: Time) {
    forall epc {:trigger cat.bindings[epc]} :: epc in cat.bindings ==> Timeline(cat.bindings[epc], latest)
  }

  ghost predicate CatalogOk(cat: Catalog, latest: Time) {
    UniqueUpcs(cat.skus) && ForeignKeys(cat) && Timelines(cat, latest)
  }

  lemma TimelineOf(cat: Catalog, latest: Time, epc: Epc)
    requires Timelines(cat, latest)
    ensures Timeline(BindingsOf(cat, epc), latest)
  {
  }

  lemma OpenIsLast(bs: seq<Binding>, latest: Time)
    requires Timeline(bs, latest)
    ensures OpenOf(bs) == if bs != [] && bs[|bs| - 1].to.None? then Some(bs[|bs| - 1]) else None
  {
    forall k | 0 <= k < |bs| - 1
      ensures bs[k].to.Some?
    {
      assert Precedes(bs[k], bs[|bs| - 1]);
    }
    if OpenOf(bs).Some? {
      var i :| 0 <= i < |bs| && bs[i] == OpenOf(bs).value;
      assert i == |bs| - 1;
    }
    if bs != [] && bs[|bs| - 1].to.None? {
      assert bs[|bs| - 1] in bs;
    }
  }

  // ----- The bindings of one EPC under a promotion -----

  lemma TimelineGrows(bs: seq<Binding>, latest: Time, t: Time)
    requires Timeline(bs, latest) && latest <= t
    ensures Timeline(bs, t)
  {
    forall i | 0 <= i < |bs|
      ensures Within(bs[i], t)
    {
      assert Within(bs[i], latest);
    }
  }

  lemma TimelineCloses(bs: seq<Binding>, latest: Time, t: Time)
    requires Timeline(bs, latest) && latest < t
    ensures Timeline(CloseOpen(bs, t), t) && OpenOf(CloseOpen(bs, t)) == None
  {
    var closed := CloseOpen(bs, t);
    forall i | 0 <= i < |closed|
      ensures Within(closed[i], t)
    {
      assert Within(bs[i], latest);
    }
    forall i, j | 0 <= i < j < |closed|
      ensures Precedes(closed[i], closed[j])
    {
      assert Precedes(bs[i], bs[j]);
    }
  }

  lemma TimelineOpens(bs: seq<Binding>, sku: SkuId, t: Time)
    requires Timeline(bs, t) && OpenOf(bs).None?
    ensures Timeline(bs + [Binding(sku, t, None)], t)
    ensures OpenOf(bs + [Binding(sku, t, None)]) == Some(Binding(sku, t, None))
  {
    var next := bs + [Binding(sku, t, None)];
    forall i | 0 <= i < |next|
      ensures Within(next[i], t)
    {
      assert i < |bs| ==> Within(bs[i], t);
    }
    forall i, j | 0 <= i < j < |next|
      ensures Precedes(next[i], next[j])
    {
      if j < |bs| {
        assert Precedes(bs[i], bs[j]);
      } else {
        assert Within(bs[i], t) && bs[i] in bs;
      }
    }
    OpenIsLast(next, t);
  }

  /** A promotion keeps the timeline of an EPC and leaves it open for the file's SKU, if listed. */
  lemma ReboundOpen(bs: seq<Binding>, supplied: Option<SkuId>, mode: ImportMode, t: Time, latest: Time)
    requires Timeline(bs, latest) && latest < t
    ensures
      var next := Rebound(bs, supplied, mode, t);
      && Timeline(next, t)
      && match supplied
         case Some(sku) =>
           OpenOf(next) == if OpenOf(bs).Some? && OpenOf(bs).value.sku == sku then OpenOf(bs)
               else Some(Binding(sku, t, None))
         case None => OpenOf(next) == if mode == FullImport then None else OpenOf(bs)
  {
    TimelineGrows(bs, latest, t);
    TimelineCloses(bs, latest, t);
    if supplied.Some? {
      if OpenOf(bs).None? {
        TimelineOpens(bs, supplied.value, t);
      } else {
        TimelineOpens(CloseOpen(bs, t), supplied.value, t);
      }
    }
  }

  /** What a time resolves to: the SKU and when its binding began. */
  function ResolvedTo(bs: seq<Binding>, u: Time): Option<(SkuId, Time)> {
    match Resolve(bs, u)
    case None => None
    case Some(b) => Some((b.sku, b.from))
  }

  lemma {:induction false} ClosingKeepsThePast(bs: seq<Binding>, t: Time, u: Time)
    requires u < t
    ensures Resolve(bs, u).Some? <==> Resolve(CloseOpen(bs, t), u).Some?
    ensures Resolve(bs, u).Some? ==> Resolve(CloseOpen(bs, t), u).value == ClosedAt(Resolve(bs, u).value, t)
  {
    if bs != [] {
      assert CloseOpen(bs, t)[1..] == CloseOpen(bs[1..], t);
      ClosingKeepsThePast(bs[1..], t, u);
    }
  }

  lemma {:induction false} LaterBindingHidden(bs: seq<Binding>, b: Binding, u: Time)
    requires u < b.from
    ensures Resolve(bs + [b], u) == Resolve(bs, u)
  {
    if bs == [] {
      assert [b][1..] == [];
      assert bs + [b] == [b];
    } else {
      assert (bs + [b])[1..] == bs[1..] + [b];
      LaterBindingHidden(bs[1..], b, u);
    }
  }

  /** Before the promotion nothing resolves differently. */
  lemma PastIsFixed(bs: seq<Binding>, supplied: Option<SkuId>, mode: ImportMode, t: Time, u: Time)
    requires u < t
    ensures ResolvedTo(Rebound(bs, supplied, mode, t), u) == ResolvedTo(bs, u)
  {
    ClosingKeepsThePast(bs, t, u);
    if supplied.Some? {
      LaterBindingHidden(bs, Binding(supplied.value, t, None), u);
      LaterBindingHidden(CloseOpen(bs, t), Binding(supplied.value, t, None), u);
    }
  }

  lemma ResolvesFromThen(bs: seq<Binding>, t: Time, u: Time)
    requires Timeline(bs, t) && t <= u
    ensures Resolve(bs, u) == OpenOf(bs)
  {
    OpenIsLast(bs, t);
    forall k | 0 <= k < |bs| && ActiveAt(bs[k], u)
      ensures k == |bs| - 1 && bs[k].to.None?
    {
      assert Within(bs[k], t);
      assert k < |bs| - 1 ==> Precedes(bs[k], bs[|bs| - 1]);
    }
    if Resolve(bs, u).Some? {
      var i :| 0 <= i < |bs| && bs[i] == Resolve(bs, u).value;
    }
    if OpenOf(bs).Some? {
      assert Within(bs[|bs| - 1], t) && bs[|bs| - 1] in bs;
      assert ActiveAt(OpenOf(bs).value, u);
    }
  }

  /** From the promotion on, supplied EPCs resolve to the file's SKU; the others follow the mode. */
  lemma FutureFollowsFile(bs: seq<Binding>, supplied: Option<SkuId>, mode: ImportMode, t: Time, latest: Time, u: Time)
    requires Timeline(bs, latest) && latest < t <= u
    ensures
      var next := ResolvedTo(Rebound(bs, supplied, mode, t), u);
      match supplied
      case Some(sku) => next.Some? && next.value.0 == sku
      case None => next == if mode == FullImport then None else ResolvedTo(bs, u)
  {
    ReboundOpen(bs, supplied, mode, t, latest);
    TimelineGrows(bs, latest, t);
    ResolvesFromThen(Rebound(bs, supplied, mode, t), t, u);
    ResolvesFromThen(bs, t, u);
  }

  // ----- The promotion as a whole -----

  function SuppliedBy(rows: seq<CatalogRow>, epc: Epc): Option<SkuId> {
    SuppliedSku(LastBy(rows, EpcKey), epc)
  }

  lemma BindingsAfter(cat: Catalog, mode: ImportMode, rows: seq<CatalogRow>, t: Time, epc: Epc)
    ensures BindingsOf(Promoted(cat, mode, rows, t), epc) ==
            Rebound(BindingsOf(cat, epc), SuppliedBy(rows, epc), mode, t)
  {
  }

  /**
   A promotion never rewrites history: reads from before it resolve as they did. From then
   on every EPC of the file resolves to the file's SKU; an EPC the file does not list keeps
   its binding under a delta import and resolves to nothing under a full import.
   */
  lemma PromotionResolves(
    cat: Catalog, mode: ImportMode, rows: seq<CatalogRow>, t: Time, latest: Time, epc: Epc, u: Time)
    requires CatalogOk(cat, latest) && latest < t && Promote(cat, mode, rows, t).Ok?
    ensures
      var next := Promote(cat, mode, rows, t).value;
      var was, now := ResolvedTo(BindingsOf(cat, epc), u), ResolvedTo(BindingsOf(next, epc), u);
      if u < t then now == was
      else
        match SuppliedBy(rows, epc)
        case Some(sku) => now.Some? && now.value.0 == sku
        case None => now == if mode == FullImport then None else was
  {
    BindingsAfter(cat, mode, rows, t, epc);
    TimelineOf(cat, latest, epc);
    if u < t {
      PastIsFixed(BindingsOf(cat, epc), SuppliedBy(rows, epc), mode, t, u);
    } else {
      FutureFollowsFile(BindingsOf(cat, epc), SuppliedBy(rows, epc), mode, t, latest, u);
    }
  }

  lemma ReboundSkus(bs: seq<Binding>, supplied: Option<SkuId>, mode: ImportMode, t: Time, known: set<SkuId>)
    requires (forall b :: b in bs ==> b.sku in known) && (supplied.Some? ==> supplied.value in known)
    ensures forall b :: b in Rebound(bs, supplied, mode, t) ==> b.sku in known
  {
  }

  lemma PromotionKeepsKeys(cat: Catalog, mode: ImportMode, rows: seq<CatalogRow>, t: Time)
    requires ForeignKeys(cat)
    ensures ForeignKeys(Promoted(cat, mode, rows, t))
  {
    var next := Promoted(cat, mode, rows, t);
    FirstByRows(rows, StyleKey);
    FirstByRows(rows, SkuKey);
    LastByRows(rows, EpcKey);
    forall c | c in next.skus
      ensures next.skus[c].style in next.styles
    {
      if c in FirstBy(rows, SkuKey) {
        KeyOfRow(rows, StyleKey, FirstBy(rows, SkuKey)[c]);
      }
    }
    forall epc | epc in next.bindings
      ensures forall b :: b in next.bindings[epc] ==> b.sku in next.skus
    {
      if epc in LastBy(rows, EpcKey) {
        KeyOfRow(rows, SkuKey, LastBy(rows, EpcKey)[epc]);
      }
      ReboundSkus(BindingsOf(cat, epc), SuppliedBy(rows, epc), mode, t, next.skus.Keys);
    }
  }

  lemma PromotionKeepsTimelines(cat: Catalog, mode: ImportMode, rows: seq<CatalogRow>, t: Time, latest: Time)
    requires Timelines(cat, latest) && latest < t
    ensures Timelines(Promoted(cat, mode, rows, t), t)
    ensures ValidIntervals(Promoted(cat, mode, rows, t).bindings)
  {
    var next := Promoted(cat, mode, rows, t);
    forall epc | epc in next.bindings
      ensures Timeline(next.bindings[epc], t) && forall b :: b in next.bindings[epc] ==> ValidInterval(b)
    {
      BindingsAfter(cat, mode, rows, t, epc);
      TimelineOf(cat, latest, epc);
      ReboundOpen(BindingsOf(cat, epc), SuppliedBy(rows, epc), mode, t, latest);
      forall b | b in next.bindings[epc]
        ensures ValidInterval(b)
      {
        var i :| 0 <= i < |next.bindings[epc]| && next.bindings[epc][i] == b;
        assert Within(next.bindings[epc][i], t);
      }
    }
  }

  /** After a promotion every EPC has disjoint intervals with at most one open, at its end. */
  lemma PromotionKeepsOk(cat: Catalog, mode: ImportMode, rows: seq<CatalogRow>, t: Time, latest: Time)
    requires CatalogOk(cat, latest) && latest < t
    ensures Promote(cat, mode, rows, t).Ok? ==> CatalogOk(Promote(cat, mode, rows, t).value, t)
    ensures Promote(cat, mode, rows, t).Err? && Promote(cat, mode, rows, t).error == IntegrityError ==>
              !UniqueUpcs(Promoted(cat, mode, rows, t).skus)
  {
    PromotionKeepsKeys(cat, mode, rows, t);
    PromotionKeepsTimelines(cat, mode, rows, t, latest);
  }

  // ----- Files that pass the checks can be promoted -----

  ghost predicate NoConflicts(cat: Catalog, rows: seq<CatalogRow>) {
    forall r :: r in rows ==> !RowConflicts(cat, r)
  }

  /** The row checks against the stored catalog accept a consistent file exactly when promotion does. */
  lemma PromotableIffNoConflicts(cat: Catalog, mode: ImportMode, rows: seq<CatalogRow>, t: Time, latest: Time)
    requires CatalogOk(cat, latest) && latest < t && Consistent(rows)
    ensures Promote(cat, mode, rows, t).Ok? <==> NoConflicts(cat, rows)
  {
    var data := FirstBy(rows, SkuKey);
    FirstByRows(rows, SkuKey);
    PromotionKeepsTimelines(cat, mode, rows, t, latest);
    if NoConflicts(cat, rows) {
      UpcsStayUnique(cat, mode, rows, t);
    } else {
      var r :| r in rows && RowConflicts(cat, r);
      KeyOfRow(rows, SkuKey, r);
      ConsistentRows(rows, data[r.sku], r);
      assert RowConflicts(cat, data[r.sku]);
    }
  }

  lemma UpcsStayUnique(cat: Catalog, mode: ImportMode, rows: seq<CatalogRow>, t: Time)
    requires UniqueUpcs(cat.skus) && Consistent(rows) && NoConflicts(cat, rows)
    ensures UniqueUpcs(Promoted(cat, mode, rows, t).skus)
  {
    var data := FirstBy(rows, SkuKey);
    var next := Promoted(cat, mode, rows, t).skus;
    FirstByRows(rows, SkuKey);
    forall r, other | r in rows && other in cat.skus && cat.skus[other].upc == r.upc
      ensures other == r.sku
    {
      assert !RowConflicts(cat, r);
    }
    forall a, b | a in next && b in next && next[a].upc == next[b].upc
      ensures a == b
    {
      if a in data && b in data {
        ConsistentRows(rows, data[a], data[b]);
      }
    }
  }
}
