/**
 The import job's loops over rows and tables: the row checks, the promotion with its
 counters, and the synchronized hierarchy. A rejected promotion is rolled back whole.
 */
module CatalogStores {
  import opened Basics
  import opened Observations
  import opened Bindings
  import opened Catalogs
  import opened CatalogProofs
  import opened CatalogRuns

  // ----- Row checks -----

  function Seen(first: map<int, CatalogRow>, k: int, r: CatalogRow): map<int, CatalogRow> {
    if k in first then first else first[k := r]
  }

  lemma FirstByNext(rows: seq<CatalogRow>, i: nat, key: CatalogRow -> int)
    requires i < |rows|
    ensures FirstBy(rows[..i + 1], key) == Seen(FirstBy(rows[..i], key), key(rows[i]), rows[i])
    ensures LastBy(rows[..i + 1], key) == LastBy(rows[..i], key)[key(rows[i]) := rows[i]]
  {
    assert rows[..i + 1][..i] == rows[..i];
  }

  /** Judge one row against the first rows seen, and remember it where it is the first. */
  method JudgeRow(
    r: CatalogRow, styles: map<int, CatalogRow>, skus: map<int, CatalogRow>, upcs: map<int, CatalogRow>,
    epcs: map<int, CatalogRow>)
    returns (
      found: RowIssues,
      styles': map<int, CatalogRow>, skus': map<int, CatalogRow>, upcs': map<int, CatalogRow>,
      epcs': map<int, CatalogRow>)
    ensures found == RowIssues(
              r.style in styles && !SameStyle(styles[r.style], r), r.sku in skus && !SameSku(skus[r.sku], r),
              r.upc in upcs && upcs[r.upc].sku != r.sku, EpcIssueOf(epcs, r))
    ensures styles' == Seen(styles, r.style, r) && skus' == Seen(skus, r.sku, r)
    ensures upcs' == Seen(upcs, r.upc, r) && epcs' == Seen(epcs, r.epc, r)
  {
    found, styles', skus', upcs', epcs' := CLEAN, styles, skus, upcs, epcs;
    if r.style in styles && !SameStyle(styles[r.style], r) {
      found := found.(style := true);
    } else if r.style !in styles {
      styles' := styles[r.style := r];
    }
    if r.sku in skus && !SameSku(skus[r.sku], r) {
      found := found.(sku := true);
    } else if r.sku !in skus {
      skus' := skus[r.sku := r];
    }
    if r.upc in upcs && upcs[r.upc].sku != r.sku {
      found := found.(upc := true);
    } else if r.upc !in upcs {
      upcs' := upcs[r.upc := r];
    }
    if r.epc in epcs {
      found := found.(epc := if epcs[r.epc].sku == r.sku then DuplicateEpc else EpcConflict);
    } else {
      epcs' := epcs[r.epc := r];
    }
  }

  ghost predicate JudgedAt(rows: seq<CatalogRow>, issues: seq<RowIssues>, i: nat)
    requires i < |rows| && i < |issues|
  {
    issues[i] == IssuesOf(rows[..i], rows[i])
  }

  /** The first rows have been judged. */
  ghost predicate Judged(rows: seq<CatalogRow>, issues: seq<RowIssues>) {
    |issues| <= |rows| && forall i {:trigger JudgedAt(rows, issues, i)} :: 0 <= i < |issues| ==>
        JudgedAt(rows, issues, i)
  }

  lemma JudgedMore(rows: seq<CatalogRow>, issues: seq<RowIssues>, found: RowIssues)
    requires Judged(rows, issues) && |issues| < |rows| && found == IssuesOf(rows[..|issues|], rows[|issues|])
    ensures Judged(rows, issues + [found])
  {
    forall i | 0 <= i < |issues + [found]|
      ensures JudgedAt(rows, issues + [found], i)
    {
      assert i < |issues| ==> JudgedAt(rows, issues, i);
    }
  }

  method ValidateBatchConsistency(rows: seq<CatalogRow>) returns (issues: seq<RowIssues>)
    ensures |issues| == |rows| && Judged(rows, issues)
  {
    issues := [];
    var styles, skus, upcs, epcs := map[], map[], map[], map[];
    for i := 0 to |rows|
      invariant |issues| == i && Judged(rows, issues)
      invariant styles == FirstBy(rows[..i], StyleKey) && skus == FirstBy(rows[..i], SkuKey)
      invariant upcs == FirstBy(rows[..i], UpcKey) && epcs == FirstBy(rows[..i], EpcKey)
    {
      FirstByNext(rows, i, StyleKey);
      FirstByNext(rows, i, SkuKey);
      FirstByNext(rows, i, UpcKey);
      FirstByNext(rows, i, EpcKey);
      var found;
      found, styles, skus, upcs, epcs := JudgeRow(rows[i], styles, skus, upcs, epcs);
      JudgedMore(rows, issues, found);
      issues := issues + [found];
    }
  }

  /** The rows that define each style, SKU and EPC of a file. */
  method EntityData(rows: seq<CatalogRow>)
    returns (styles: map<int, CatalogRow>, skus: map<int, CatalogRow>, epcs: map<int, CatalogRow>)
    ensures styles == FirstBy(rows, StyleKey) && skus == FirstBy(rows, SkuKey) && epcs == LastBy(rows, EpcKey)
  {
    styles, skus, epcs := map[], map[], map[];
    for i := 0 to |rows|
      invariant styles == FirstBy(rows[..i], StyleKey) && skus == FirstBy(rows[..i], SkuKey)
      invariant epcs == LastBy(rows[..i], EpcKey)
    {
      var r := rows[i];
      FirstByNext(rows, i, StyleKey);
      FirstByNext(rows, i, SkuKey);
      FirstByNext(rows, i, EpcKey);
      if r.style !in styles {
        styles := styles[r.style := r];
      }
      if r.sku !in skus {
        skus := skus[r.sku := r];
      }
      epcs := epcs[r.epc := r];
    }
    assert rows[..|rows|] == rows;
  }

  // ----- Counters -----

  datatype Action = Inserted | Updated | Kept

  datatype Tally = Tally(inserted: nat, updated: nat, same: nat)

  function Bump(n: Tally, a: Action): Tally {
    match a
    case Inserted => n.(inserted := n.inserted + 1)
    case Updated => n.(updated := n.updated + 1)
    case Kept => n.(same := n.same + 1)
  }

  ghost function With(actions: map<int, Action>, a: Action): set<int> {
    set k | k in actions && actions[k] == a
  }

  /** The counters are the sizes of the groups they count. */
  ghost predicate Tallies(n: Tally, actions: map<int, Action>) {
    n == Tally(|With(actions, Inserted)|, |With(actions, Updated)|, |With(actions, Kept)|)
  }

  lemma WithOne(actions: map<int, Action>, k: int, a: Action, b: Action)
    requires k !in actions
    ensures |With(actions[k := a], b)| == |With(actions, b)| + if a == b then 1 else 0
  {
    var next := actions[k := a];
    forall x
      ensures x in With(next, b) <==> x in With(actions, b) || (x == k && a == b)
    {
      assert x in next <==> x in actions || x == k;
    }
    if a == b {
      SetsEqual(With(next, b), With(actions, b) + {k});
    } else {
      SetsEqual(With(next, b), With(actions, b));
    }
  }

  lemma TallyOne(n: Tally, actions: map<int, Action>, k: int, a: Action)
    requires Tallies(n, actions) && k !in actions
    ensures Tallies(Bump(n, a), actions[k := a])
  {
    WithOne(actions, k, a, Inserted);
    WithOne(actions, k, a, Updated);
    WithOne(actions, k, a, Kept);
  }

  function ActionOn(k: int, known: set<int>, changed: set<int>): Action {
    if k !in known then Inserted else if k in changed then Updated else Kept
  }

  ghost predicate ActedOn(actions: map<int, Action>, known: set<int>, changed: set<int>) {
    forall k :: k in actions ==> actions[k] == ActionOn(k, known, changed)
  }

  lemma ActedOnMore(actions: map<int, Action>, known: set<int>, changed: set<int>, k: int)
    requires ActedOn(actions, known, changed)
    ensures ActedOn(actions[k := ActionOn(k, known, changed)], known, changed)
  {
  }

  lemma TallyIsCounts(n: Tally, actions: map<int, Action>, supplied: set<int>, known: set<int>, changed: set<int>)
    requires Tallies(n, actions) && actions.Keys == supplied && changed <= known && changed <= supplied
    requires ActedOn(actions, known, changed)
    ensures n == Tally(|supplied - known|, |changed|, |(supplied * known) - changed|)
  {
    forall k
      ensures k in With(actions, Inserted) <==> k in supplied - known
      ensures k in With(actions, Updated) <==> k in changed
      ensures k in With(actions, Kept) <==> k in (supplied * known) - changed
    {
      assert k in actions <==> k in supplied;
    }
    SetsEqual(With(actions, Inserted), supplied - known);
    SetsEqual(With(actions, Updated), changed);
    SetsEqual(With(actions, Kept), (supplied * known) - changed);
  }

  // ----- Tables of styles and SKUs -----

  /** The table after some of the file's rows have been written. */
  ghost predicate WrittenUpTo<T(!new)>(table: map<int, T>, targets: map<int, T>, done: set<int>, next: map<int, T>)
    requires done <= targets.Keys
  {
    && next.Keys == table.Keys + done
    && (forall c :: c in done ==> next[c] == targets[c])
    && (forall c :: c in table && c !in done ==> next[c] == table[c])
  }

  function RowAction<T(==)>(table: map<int, T>, c: int, target: T): Action {
    if c !in table then Inserted else if table[c] != target then Updated else Kept
  }

  function Different<T(==)>(table: map<int, T>, targets: map<int, T>): set<int> {
    set c | c in targets && c in table && table[c] != targets[c]
  }

  /** Some rows are written, and the counters count the actions taken on them. */
  ghost predicate Progress<T(!new)>(
    table: map<int, T>, targets: map<int, T>, done: set<int>, next: map<int, T>, n: Tally, actions: map<int, Action>)
  {
    && done <= targets.Keys && actions.Keys == done && WrittenUpTo(table, targets, done, next)
    && Tallies(n, actions) && ActedOn(actions, table.Keys, Different(table, targets))
  }

  lemma WrittenMore<T(!new)>(table: map<int, T>, targets: map<int, T>, done: set<int>, next: map<int, T>, c: int)
    requires done <= targets.Keys && c in targets && c !in done && WrittenUpTo(table, targets, done, next)
    ensures WrittenUpTo(table, targets, done + {c}, next[c := targets[c]])
    ensures RowAction(next, c, targets[c]) == ActionOn(c, table.Keys, Different(table, targets))
  {
  }

  lemma ProgressMore<T(!new)>(
    table: map<int, T>, targets: map<int, T>, done: set<int>, next: map<int, T>, n: Tally, actions: map<int, Action>,
    c: int)
    requires Progress(table, targets, done, next, n, actions) && c in targets && c !in done
    ensures
      var action := RowAction(next, c, targets[c]);
      Progress(table, targets, done + {c}, next[c := targets[c]], Bump(n, action), actions[c := action])
  {
    var action := RowAction(next, c, targets[c]);
    WrittenMore(table, targets, done, next, c);
    TallyOne(n, actions, c, action);
    ActedOnMore(actions, table.Keys, Different(table, targets), c);
  }

  method UpsertRow<T(==)>(table: map<int, T>, c: int, target: T) returns (next: map<int, T>, action: Action)
    ensures next == table[c := target] && action == RowAction(table, c, target)
  {
    if c !in table {
      return table[c := target], Inserted;
    }
    if table[c] != target {
      return table[c := target], Updated;
    }
    return table, Kept;
  }

  /** Insert or overwrite every row of the file, counting what was needed. */
  method UpsertRows<T(==, !new)>(table: map<int, T>, targets: map<int, T>) returns (next: map<int, T>, n: Tally)
    ensures WrittenUpTo(table, targets, targets.Keys, next)
    ensures n == Tally(
              |targets.Keys - table.Keys|, |Different(table, targets)|,
              |(targets.Keys * table.Keys) - Different(table, targets)|)
  {
    next, n := table, Tally(0, 0, 0);
    ghost var actions: map<int, Action> := map[];
    var done: set<int> := {};
    while done != targets.Keys
      invariant Progress(table, targets, done, next, n, actions)
      decreases targets.Keys - done
    {
      SomeRemain(targets.Keys, done);
      var c := Pick(targets.Keys - done);
      ProgressMore(table, targets, done, next, n, actions, c);
      var action;
      next, action := UpsertRow(next, c, targets[c]);
      n, actions := Bump(n, action), actions[c := action];
      done := done + {c};
    }
    TallyIsCounts(n, actions, targets.Keys, table.Keys, Different(table, targets));
  }

  function LiveKeys<T>(table: map<int, T>, live: T -> bool): set<int> {
    set c | c in table && live(table[c])
  }

  ghost predicate RetiredUpTo<T(!new)>(table: map<int, T>, gone: set<int>, retire: T -> T, next: map<int, T>)
    requires gone <= table.Keys
  {
    && next.Keys == table.Keys
    && (forall c :: c in gone ==> next[c] == retire(table[c]))
    && (forall c :: c in table && c !in gone ==> next[c] == table[c])
  }

  /** Retire every live row that the file does not list. */
  method RetireRows<T(!new)>(table: map<int, T>, supplied: set<int>, live: T -> bool, retire: T -> T)
    returns (next: map<int, T>, count: nat)
    ensures RetiredUpTo(table, LiveKeys(table, live) - supplied, retire, next)
    ensures count == |LiveKeys(table, live) - supplied|
  {
    next, count := table, 0;
    ghost var leaving := LiveKeys(table, live) - supplied;
    var done: set<int> := {};
    while done != table.Keys
      invariant done <= table.Keys && RetiredUpTo(table, leaving * done, retire, next)
      invariant count == |leaving * done|
      decreases table.Keys - done
    {
      SomeRemain(table.Keys, done);
      var c := Pick(table.Keys - done);
      assert next[c] == table[c];
      if c !in supplied && live(next[c]) {
        SetsEqual(leaving * (done + {c}), leaving * done + {c});
        next := next[c := retire(next[c])];
        count := count + 1;
      } else {
        SetsEqual(leaving * (done + {c}), leaving * done);
      }
      done := done + {c};
    }
    SetsEqual(leaving * table.Keys, leaving);
  }

  const LiveStyle: StyleRow -> bool := (s: StyleRow) => s.active
  const RetiredStyle: StyleRow -> StyleRow := (s: StyleRow) => s.(active := false)
  const LiveSku: SkuRow -> bool := (s: SkuRow) => s.active
  const RetiredSku: SkuRow -> SkuRow := (s: SkuRow) => s.(active := false)

  function StyleTargets(data: map<StyleCode, CatalogRow>): map<StyleCode, StyleRow> {
    map c | c in data :: StyleOf(data[c])
  }

  lemma StyleTargetsDiffer(styles: map<StyleCode, StyleRow>, data: map<StyleCode, CatalogRow>)
    ensures StyleTargets(data).Keys == data.Keys
    ensures Different(styles, StyleTargets(data)) == Restyled(styles, data)
  {
    var targets := StyleTargets(data);
    SetsEqual(targets.Keys, data.Keys);
    forall c
      ensures c in Different(styles, targets) <==> c in Restyled(styles, data)
    {
      assert c in data && c in styles ==> (StyleChanged(styles[c], data[c]) <==> styles[c] != StyleOf(data[c]));
    }
    SetsEqual(Different(styles, targets), Restyled(styles, data));
  }

  lemma StylesWritten(
    rows: map<StyleCode, StyleRow>, data: map<StyleCode, CatalogRow>, written: map<StyleCode, StyleRow>)
    requires WrittenUpTo(rows, StyleTargets(data), StyleTargets(data).Keys, written)
    ensures written == PromotedStyles(rows, data, DeltaImport)
  {
    var full := PromotedStyles(rows, data, DeltaImport);
    forall c
      ensures c in written <==> c in full
      ensures c in written ==> written[c] == full[c]
    {
      assert c in StyleTargets(data) <==> c in data;
    }
    SetsEqual(written.Keys, full.Keys);
    MapsEqual(written, full);
  }

  lemma StylesLeaving(rows: map<StyleCode, StyleRow>, data: map<StyleCode, CatalogRow>)
    ensures LiveKeys(PromotedStyles(rows, data, DeltaImport), LiveStyle) - data.Keys == ActiveStyles(rows) - data.Keys
  {
  }

  lemma StylesRetired(rows: map<StyleCode, StyleRow>, data: map<StyleCode, CatalogRow>, next: map<StyleCode, StyleRow>)
    requires
      var written := PromotedStyles(rows, data, DeltaImport);
      RetiredUpTo(written, LiveKeys(written, LiveStyle) - data.Keys, RetiredStyle, next)
    ensures next == PromotedStyles(rows, data, FullImport)
  {
    var written, full := PromotedStyles(rows, data, DeltaImport), PromotedStyles(rows, data, FullImport);
    forall c | c in next
      ensures c in full && next[c] == full[c]
    {
      assert c in written;
      assert c !in LiveKeys(written, LiveStyle) - data.Keys ==> c in data || !written[c].active;
    }
    SetsEqual(next.Keys, full.Keys);
    MapsEqual(next, full);
  }

  method PromoteStyles(styles: map<StyleCode, StyleRow>, data: map<StyleCode, CatalogRow>, mode: ImportMode)
    returns (next: map<StyleCode, StyleRow>, counts: Counts)
    ensures next == PromotedStyles(styles, data, mode)
    ensures counts == PreviewCounts(data.Keys, styles.Keys, Restyled(styles, data), ActiveStyles(styles), mode)
  {
    var written, n := UpsertRows(styles, StyleTargets(data));
    StyleTargetsDiffer(styles, data);
    StylesWritten(styles, data, written);
    if mode == DeltaImport {
      return written, Counts(n.inserted, n.updated, n.same, 0);
    }
    var count;
    next, count := RetireRows(written, data.Keys, LiveStyle, RetiredStyle);
    StylesLeaving(styles, data);
    StylesRetired(styles, data, next);
    return next, Counts(n.inserted, n.updated, n.same, count);
  }

  function SkuTargets(data: map<SkuId, CatalogRow>): map<SkuId, SkuRow> {
    map c | c in data :: SkuOf(data[c])
  }

  lemma SkuTargetsDiffer(cat: Catalog, data: map<SkuId, CatalogRow>)
    requires ForeignKeys(cat)
    ensures SkuTargets(data).Keys == data.Keys
    ensures Different(cat.skus, SkuTargets(data)) == Respecified(cat, data)
  {
    var targets := SkuTargets(data);
    SetsEqual(targets.Keys, data.Keys);
    forall c
      ensures c in Different(cat.skus, targets) <==> c in Respecified(cat, data)
    {
      assert c in data && c in cat.skus ==> (SkuUpdated(cat, cat.skus[c], data[c]) <==> cat.skus[c] != SkuOf(data[c]));
    }
    SetsEqual(Different(cat.skus, targets), Respecified(cat, data));
  }

  lemma SkusWritten(rows: map<SkuId, SkuRow>, data: map<SkuId, CatalogRow>, written: map<SkuId, SkuRow>)
    requires WrittenUpTo(rows, SkuTargets(data), SkuTargets(data).Keys, written)
    ensures written == PromotedSkus(rows, data, DeltaImport)
  {
    var full := PromotedSkus(rows, data, DeltaImport);
    forall c
      ensures c in written <==> c in full
      ensures c in written ==> written[c] == full[c]
    {
      assert c in SkuTargets(data) <==> c in data;
    }
    SetsEqual(written.Keys, full.Keys);
    MapsEqual(written, full);
  }

  lemma SkusLeaving(rows: map<SkuId, SkuRow>, data: map<SkuId, CatalogRow>)
    ensures LiveKeys(PromotedSkus(rows, data, DeltaImport), LiveSku) - data.Keys == ActiveSkus(rows) - data.Keys
  {
  }

  lemma SkusRetired(rows: map<SkuId, SkuRow>, data: map<SkuId, CatalogRow>, next: map<SkuId, SkuRow>)
    requires
      var written := PromotedSkus(rows, data, DeltaImport);
      RetiredUpTo(written, LiveKeys(written, LiveSku) - data.Keys, RetiredSku, next)
    ensures next == PromotedSkus(rows, data, FullImport)
  {
    var written, full := PromotedSkus(rows, data, DeltaImport), PromotedSkus(rows, data, FullImport);
    forall c | c in next
      ensures c in full && next[c] == full[c]
    {
      assert c in written;
      assert c !in LiveKeys(written, LiveSku) - data.Keys ==> c in data || !written[c].active;
    }
    SetsEqual(next.Keys, full.Keys);
    MapsEqual(next, full);
  }

  method PromoteSkus(cat: Catalog, data: map<SkuId, CatalogRow>, mode: ImportMode)
    returns (next: map<SkuId, SkuRow>, counts: Counts)
    requires ForeignKeys(cat)
    ensures next == PromotedSkus(cat.skus, data, mode)
    ensures counts == PreviewCounts(data.Keys, cat.skus.Keys, Respecified(cat, data), ActiveSkus(cat.skus), mode)
  {
    var written, n := UpsertRows(cat.skus, SkuTargets(data));
    SkuTargetsDiffer(cat, data);
    SkusWritten(cat.skus, data, written);
    if mode == DeltaImport {
      return written, Counts(n.inserted, n.updated, n.same, 0);
    }
    var count;
    next, count := RetireRows(written, data.Keys, LiveSku, RetiredSku);
    SkusLeaving(cat.skus, data);
    SkusRetired(cat.skus, data, next);
    return next, Counts(n.inserted, n.updated, n.same, count);
  }

  // ----- Bindings -----

  function BindingAction(cat: Catalog, data: map<Epc, CatalogRow>, epc: Epc): Action
    requires epc in data
  {
    var open := OpenIn(cat, epc);
    if open.None? then Inserted else if open.value.sku != data[epc].sku then Updated else Kept
  }

  function Moving(open: map<Epc, Binding>, data: map<Epc, CatalogRow>): set<Epc> {
    set epc | epc in data && epc in open && open[epc].sku != data[epc].sku
  }

  /** The bindings after some EPCs of the file have been bound. */
  ghost predicate BoundUpTo(
    cat: Catalog, data: map<Epc, CatalogRow>, t: Time, done: set<int>, next: map<Epc, seq<Binding>>)
    requires done <= data.Keys
  {
    && next.Keys == cat.bindings.Keys + done
    && (forall epc :: epc in done ==> next[epc] == Rebound(BindingsOf(cat, epc), Some(data[epc].sku), DeltaImport, t))
    && (forall epc :: epc in cat.bindings && epc !in done ==> next[epc] == cat.bindings[epc])
  }

  ghost predicate BindingProgress(
    cat: Catalog, data: map<Epc, CatalogRow>, t: Time, done: set<int>, next: map<Epc, seq<Binding>>, n: Tally,
    actions: map<int, Action>)
  {
    && done <= data.Keys && actions.Keys == done && BoundUpTo(cat, data, t, done, next)
    && Tallies(n, actions) && ActedOn(actions, OpenBindings(cat).Keys, Moving(OpenBindings(cat), data))
  }

  lemma ActionOnBinding(cat: Catalog, data: map<Epc, CatalogRow>, epc: Epc)
    requires epc in data
    ensures BindingAction(cat, data, epc) == ActionOn(epc, OpenBindings(cat).Keys, Moving(OpenBindings(cat), data))
  {
  }

  lemma BindingMore(
    cat: Catalog, data: map<Epc, CatalogRow>, t: Time, done: set<int>, next: map<Epc, seq<Binding>>, n: Tally,
    actions: map<int, Action>, epc: Epc)
    requires BindingProgress(cat, data, t, done, next, n, actions) && epc in data && epc !in done
    ensures
      var action := BindingAction(cat, data, epc);
      var bound := Rebound(BindingsOf(cat, epc), Some(data[epc].sku), DeltaImport, t);
      && BindingProgress(cat, data, t, done + {epc}, next[epc := bound], Bump(n, action), actions[epc := action])
      && (if epc in next then next[epc] else []) == BindingsOf(cat, epc)
  {
    ActionOnBinding(cat, data, epc);
    TallyOne(n, actions, epc, BindingAction(cat, data, epc));
    ActedOnMore(actions, OpenBindings(cat).Keys, Moving(OpenBindings(cat), data), epc);
    assert epc in next <==> epc in cat.bindings;
  }

  /** Bind one EPC: insert, end and insert, or leave. */
  method BindEpc(bs: seq<Binding>, sku: SkuId, t: Time) returns (next: seq<Binding>, action: Action)
    ensures next == Rebound(bs, Some(sku), DeltaImport, t)
    ensures action == if OpenOf(bs).None? then Inserted else if OpenOf(bs).value.sku != sku then Updated else Kept
  {
    var open := OpenOf(bs);
    if open.None? {
      return bs + [Binding(sku, t, None)], Inserted;
    }
    if open.value.sku != sku {
      next := CloseOpen(bs, t);
      return next + [Binding(sku, t, None)], Updated;
    }
    return bs, Kept;
  }

  method BindEpcs(cat: Catalog, data: map<Epc, CatalogRow>, t: Time) returns (next: map<Epc, seq<Binding>>, n: Tally)
    ensures BoundUpTo(cat, data, t, data.Keys, next)
    ensures
      var open := OpenBindings(cat);
      n == Tally(|data.Keys - open.Keys|, |Moving(open, data)|, |(data.Keys * open.Keys) - Moving(open, data)|)
  {
    next, n := cat.bindings, Tally(0, 0, 0);
    ghost var actions: map<int, Action> := map[];
    var done: set<int> := {};
    while done != data.Keys
      invariant BindingProgress(cat, data, t, done, next, n, actions)
      decreases data.Keys - done
    {
      SomeRemain(data.Keys, done);
      var epc := Pick(data.Keys - done);
      BindingMore(cat, data, t, done, next, n, actions, epc);
      var bound, action := BindEpc(if epc in next then next[epc] else [], data[epc].sku, t);
      next := next[epc := bound];
      n, actions := Bump(n, action), actions[epc := action];
      done := done + {epc};
    }
    TallyIsCounts(n, actions, data.Keys, OpenBindings(cat).Keys, Moving(OpenBindings(cat), data));
  }

  const IsOpen: seq<Binding> -> bool := (bs: seq<Binding>) => OpenOf(bs).Some?

  lemma MovingIsRebinding(cat: Catalog, data: map<Epc, CatalogRow>)
    requires ForeignKeys(cat)
    ensures Moving(OpenBindings(cat), data) == Rebinding(cat, OpenBindings(cat), data)
  {
  }

  lemma BindingsLeaving(cat: Catalog, data: map<Epc, CatalogRow>, t: Time, written: map<Epc, seq<Binding>>)
    requires BoundUpTo(cat, data, t, data.Keys, written)
    ensures LiveKeys(written, IsOpen) - data.Keys == OpenBindings(cat).Keys - data.Keys
  {
  }

  function Ended(t: Time): seq<Binding> -> seq<Binding> {
    (bs: seq<Binding>) => CloseOpen(bs, t)
  }

  lemma BindingsPromoted(
    cat: Catalog, data: map<Epc, CatalogRow>, mode: ImportMode, t: Time, written: map<Epc, seq<Binding>>,
    next: map<Epc, seq<Binding>>)
    requires BoundUpTo(cat, data, t, data.Keys, written)
    requires mode == DeltaImport ==> next == written
    requires mode == FullImport ==> RetiredUpTo(written, LiveKeys(written, IsOpen) - data.Keys, Ended(t), next)
    ensures next == PromotedBindings(cat, data, mode, t)
  {
  }

  method PromoteBindings(cat: Catalog, data: map<Epc, CatalogRow>, mode: ImportMode, t: Time)
    returns (next: map<Epc, seq<Binding>>, counts: Counts)
    requires ForeignKeys(cat)
    ensures next == PromotedBindings(cat, data, mode, t)
    ensures
      var open := OpenBindings(cat);
      counts == PreviewCounts(data.Keys, open.Keys, Rebinding(cat, open, data), open.Keys, mode)
  {
    var written, n := BindEpcs(cat, data, t);
    MovingIsRebinding(cat, data);
    if mode == DeltaImport {
      BindingsPromoted(cat, data, mode, t, written, written);
      return written, Counts(n.inserted, n.updated, n.same, 0);
    }
    var count;
    next, count := RetireRows(written, data.Keys, IsOpen, Ended(t));
    BindingsLeaving(cat, data, t, written);
    BindingsPromoted(cat, data, mode, t, written, next);
    return next, Counts(n.inserted, n.updated, n.same, count);
  }

  // ----- The hierarchy -----

  function ProductTargets(rows: seq<CatalogRow>): map<StyleCode, ProductRow> {
    var data := LastBy(rows, StyleKey);
    map c | c in data :: ProductOf(data[c])
  }

  const LiveProduct: ProductRow -> bool := (p: ProductRow) => p.active
  const RetiredProduct: ProductRow -> ProductRow := (p: ProductRow) => p.(active := false)
  const LiveTag: TagRow -> bool := (g: TagRow) => g.active
  const RetiredTag: TagRow -> TagRow := (g: TagRow) => g.(active := false)

  /** What some rows have made of variants, references and tags. */
  ghost predicate VisitedUpTo(
    h: Hierarchy, rows: seq<CatalogRow>, variants: map<VariantKey, bool>, references: map<SkuId, VariantKey>,
    tags: map<Epc, TagRow>)
  {
    && variants == Synced(h, DeltaImport, rows).variants
    && references == Synced(h, DeltaImport, rows).references
    && tags == Synced(h, DeltaImport, rows).tags
  }

  lemma VisitedNone(h: Hierarchy)
    ensures VisitedUpTo(h, [], h.variants, h.references, h.tags)
  {
  }

  lemma OneMoreVariant(variants: map<VariantKey, bool>, supplied: set<VariantKey>, v: VariantKey)
    ensures SyncedVariants(variants, supplied + {v}, DeltaImport) ==
            SyncedVariants(variants, supplied, DeltaImport)[v := true]
  {
  }

  lemma VariantsMore(h: Hierarchy, rows: seq<CatalogRow>, r: CatalogRow)
    ensures Synced(h, DeltaImport, rows + [r]).variants == Synced(h, DeltaImport, rows).variants[VariantOf(r) := true]
  {
    assert VariantsOf(rows + [r]) == VariantsOf(rows) + {VariantOf(r)} by {
      assert forall q :: q in rows + [r] <==> q in rows || q == r;
    }
    OneMoreVariant(h.variants, VariantsOf(rows), VariantOf(r));
  }

  lemma ReferencesMore(h: Hierarchy, rows: seq<CatalogRow>, r: CatalogRow)
    ensures Synced(h, DeltaImport, rows + [r]).references ==
            Synced(h, DeltaImport, rows).references[r.sku := VariantOf(r)]
  {
    assert (rows + [r])[..|rows|] == rows;
  }

  lemma TagsMore(h: Hierarchy, rows: seq<CatalogRow>, r: CatalogRow)
    ensures Synced(h, DeltaImport, rows + [r]).tags == Synced(h, DeltaImport, rows).tags[r.epc := TagRow(r.sku, true)]
  {
    assert (rows + [r])[..|rows|] == rows;
  }

  /** Visit the rows in order: their variants become active, their SKUs refer to them, their tags carry the SKU. */
  method SyncRows(h: Hierarchy, rows: seq<CatalogRow>)
    returns (variants: map<VariantKey, bool>, references: map<SkuId, VariantKey>, tags: map<Epc, TagRow>)
    ensures VisitedUpTo(h, rows, variants, references, tags)
  {
    variants, references, tags := h.variants, h.references, h.tags;
    VisitedNone(h);
    for i := 0 to |rows|
      invariant VisitedUpTo(h, rows[..i], variants, references, tags)
    {
      var r := rows[i];
      assert rows[..i + 1] == rows[..i] + [r];
      VariantsMore(h, rows[..i], r);
      ReferencesMore(h, rows[..i], r);
      TagsMore(h, rows[..i], r);
      variants := variants[VariantKey(r.style, r.color) := true];
      references := references[r.sku := VariantKey(r.style, r.color)];
      tags := tags[r.epc := TagRow(r.sku, true)];
    }
    assert rows[..|rows|] == rows;
  }

  lemma ProductsSynced(h: Hierarchy, rows: seq<CatalogRow>, written: map<StyleCode, ProductRow>)
    requires WrittenUpTo(h.products, ProductTargets(rows), ProductTargets(rows).Keys, written)
    ensures written == Synced(h, DeltaImport, rows).products
  {
    var next := Synced(h, DeltaImport, rows).products;
    forall c
      ensures c in written <==> c in next
      ensures c in written ==> written[c] == next[c]
    {
      assert c in ProductTargets(rows) <==> c in LastBy(rows, StyleKey);
    }
    SetsEqual(written.Keys, next.Keys);
    MapsEqual(written, next);
  }

  lemma ProductsRetired(h: Hierarchy, rows: seq<CatalogRow>, next: map<StyleCode, ProductRow>)
    requires
      var written := Synced(h, DeltaImport, rows).products;
      RetiredUpTo(written, LiveKeys(written, LiveProduct) - LastBy(rows, StyleKey).Keys, RetiredProduct, next)
    ensures next == Synced(h, FullImport, rows).products
  {
    var written, full := Synced(h, DeltaImport, rows).products, Synced(h, FullImport, rows).products;
    var data := LastBy(rows, StyleKey);
    forall c
      ensures c in next <==> c in full
      ensures c in next ==> next[c] == full[c]
    {
      assert c in next <==> c in written;
      assert c in written && c !in data ==> (c in LiveKeys(written, LiveProduct) - data.Keys <==> written[c].active);
    }
    SetsEqual(next.Keys, full.Keys);
    MapsEqual(next, full);
  }

  lemma TagsRetired(h: Hierarchy, rows: seq<CatalogRow>, next: map<Epc, TagRow>)
    requires
      var written := Synced(h, DeltaImport, rows).tags;
      RetiredUpTo(written, LiveKeys(written, LiveTag) - LastBy(rows, EpcKey).Keys, RetiredTag, next)
    ensures next == Synced(h, FullImport, rows).tags
  {
    var written, full := Synced(h, DeltaImport, rows).tags, Synced(h, FullImport, rows).tags;
    var data := LastBy(rows, EpcKey);
    forall c
      ensures c in next <==> c in full
      ensures c in next ==> next[c] == full[c]
    {
      assert c in next <==> c in written;
      assert c in written && c !in data ==> (c in LiveKeys(written, LiveTag) - data.Keys <==> written[c].active);
    }
    SetsEqual(next.Keys, full.Keys);
    MapsEqual(next, full);
  }

  method SyncProducts(h: Hierarchy, mode: ImportMode, rows: seq<CatalogRow>) returns (next: map<StyleCode, ProductRow>)
    ensures next == Synced(h, mode, rows).products
  {
    var n;
    next, n := UpsertRows(h.products, ProductTargets(rows));
    ProductsSynced(h, rows, next);
    if mode == FullImport {
      var count;
      next, count := RetireRows(next, LastBy(rows, StyleKey).Keys, LiveProduct, RetiredProduct);
      ProductsRetired(h, rows, next);
    }
  }

  method RetireTags(h: Hierarchy, rows: seq<CatalogRow>, tags: map<Epc, TagRow>) returns (next: map<Epc, TagRow>)
    requires tags == Synced(h, DeltaImport, rows).tags
    ensures next == Synced(h, FullImport, rows).tags
  {
    var count;
    next, count := RetireRows(tags, LastBy(rows, EpcKey).Keys, LiveTag, RetiredTag);
    TagsRetired(h, rows, next);
  }

  method RetireVariants(
    h: Hierarchy, rows: seq<CatalogRow>, variants: map<VariantKey, bool>)
    returns (next: map<VariantKey, bool>)
    requires variants == Synced(h, DeltaImport, rows).variants
    ensures next == Synced(h, FullImport, rows).variants
  {
    var supplied := VariantsOf(rows);
    next := map v | v in variants :: if v in supplied then variants[v] else false;
    SetsEqual(next.Keys, Synced(h, FullImport, rows).variants.Keys);
    MapsEqual(next, Synced(h, FullImport, rows).variants);
  }

  /** Keep products, variants, references and tags in step with the promoted rows. */
  method SyncHierarchy(h: Hierarchy, mode: ImportMode, rows: seq<CatalogRow>) returns (next: Hierarchy)
    ensures next.products == Synced(h, mode, rows).products && next.variants == Synced(h, mode, rows).variants
    ensures next.references == Synced(h, mode, rows).references && next.tags == Synced(h, mode, rows).tags
  {
    var products := SyncProducts(h, mode, rows);
    var variants, references, tags := SyncRows(h, rows);
    if mode == FullImport {
      variants := RetireVariants(h, rows, variants);
      tags := RetireTags(h, rows, tags);
    }
    next := Hierarchy(products, variants, references, tags);
  }

  // ----- The promotion of one import -----

  method FindConflict(cat: Catalog, data: map<SkuId, CatalogRow>) returns (found: bool)
    ensures found == Conflicting(cat, data)
  {
    found := false;
    var done: set<int> := {};
    while done != data.Keys
      invariant done <= data.Keys
      invariant forall c :: c in done ==> !RowConflicts(cat, data[c])
      decreases data.Keys - done
    {
      SomeRemain(data.Keys, done);
      var c := Pick(data.Keys - done);
      if RowConflicts(cat, data[c]) {
        return true;
      }
      done := done + {c};
    }
    assert forall c :: c in data ==> c in done;
  }

  /** The rows a promotion writes and the counters it keeps on the way. */
  method ApplyPromotion(cat: Catalog, mode: ImportMode, rows: seq<CatalogRow>, t: Time)
    returns (next: Catalog, outcome: Outcome, conflict: bool)
    requires ForeignKeys(cat)
    ensures conflict == Conflicting(cat, FirstBy(rows, SkuKey))
    ensures !conflict ==> next == Promoted(cat, mode, rows, t) && outcome == Preview(cat, mode, rows)
  {
    var styleData, skuData, epcData := EntityData(rows);
    conflict := FindConflict(cat, skuData);
    if conflict {
      return cat, Outcome(Counts(0, 0, 0, 0), Counts(0, 0, 0, 0), Counts(0, 0, 0, 0)), true;
    }
    var styles, styleCounts := PromoteStyles(cat.styles, styleData, mode);
    var skus, skuCounts := PromoteSkus(cat, skuData, mode);
    var bindings, bindingCounts := PromoteBindings(cat, epcData, mode, t);
    return Catalog(styles, skus, bindings), Outcome(styleCounts, skuCounts, bindingCounts), false;
  }

  /** Promote, or say why not. */
  method TryPromotion(cat: Catalog, mode: ImportMode, rows: seq<CatalogRow>, t: Time)
    returns (r: Result<Catalog, PromotionError>, outcome: Outcome)
    requires ForeignKeys(cat)
    ensures r == Promote(cat, mode, rows, t)
    ensures r.Ok? ==> outcome == Preview(cat, mode, rows)
  {
    var next, counted, conflict := ApplyPromotion(cat, mode, rows, t);
    if conflict {
      return Err(PromotionConflict), counted;
    }
    if !UniqueUpcs(next.skus) || !ValidIntervals(next.bindings) {
      return Err(IntegrityError), counted;
    }
    return Ok(next), counted;
  }

  class CatalogStore {
    var catalog: Catalog
    var hierarchy: Hierarchy

    constructor ()
      ensures catalog == Catalog(map[], map[], map[]) && hierarchy == NO_HIERARCHY
    {
      catalog, hierarchy := Catalog(map[], map[], map[]), NO_HIERARCHY;
    }

    /** Promote the rows at one moment, or change nothing; report what was previewed. */
    method PromoteImport(mode: ImportMode, rows: seq<CatalogRow>, t: Time) returns (r: Result<Outcome, PromotionError>)
      requires ForeignKeys(catalog)
      modifies this
      ensures
        match Promote(old(catalog), mode, rows, t)
        case Ok(next) =>
          r == Ok(Preview(old(catalog), mode, rows)) && catalog == next
              && hierarchy == Synced(old(hierarchy), mode, rows)
        case Err(e) => r == Err(e) && catalog == old(catalog) && hierarchy == old(hierarchy)
    {
      var promoted, outcome := TryPromotion(catalog, mode, rows, t);
      if promoted.Err? {
        return Err(promoted.error);
      }
      catalog := promoted.value;
      hierarchy := SyncHierarchy(hierarchy, mode, rows);
      return Ok(outcome);
    }
  }
}
