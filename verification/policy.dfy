/**
 Replenishment policy: which rule applies to an item in a store, when two rules clash, and
 the life of policy versions. Case folding of labels is an arbitrary function on strings.
 */
module Policies {
  import opened Basics
  import opened Observations
  import opened Sorting

  type Fold = string -> string

  datatype Rule = Rule(
    store: Option<StoreId>, category: Option<string>, style: Option<string>, sku: Option<SkuId>, size: Option<string>,
    minFloor: int, targetFloor: int, priority: int)

  datatype Item = Item(sku: SkuId, style: string, category: string, size: string)

  datatype Selector = BySku | ByStyle | ByCategory | ByDefault

  function SelectorOf(r: Rule): Selector {
    if r.sku.Some? then BySku else if r.style.Some? then ByStyle else if r.category.Some? then ByCategory else ByDefault
  }

  /** The check constraints of the rule table and the undefined store-default scope. */
  predicate WellFormed(r: Rule) {
    && !(r.sku.Some? && r.style.Some?) && !(r.sku.Some? && r.category.Some?) && !(r.style.Some? && r.category.Some?)
    && (r.size.Some? ==> r.sku.Some?)
    && (r.store.Some? ==> SelectorOf(r) != ByDefault)
    && 0 <= r.minFloor <= r.targetFloor
  }

  predicate Folded(a: Option<string>, b: string, fold: Fold) {
    a.Some? && fold(a.value) == fold(b)
  }

  /** How specific a rule is for an item in a store; nothing when it does not apply. */
  function Precedence(r: Rule, store: StoreId, item: Item, fold: Fold): Option<int> {
    if r.store.Some? && r.store.value != store then None
    else
      var tenantWide := r.store.None?;
      match SelectorOf(r)
      case BySku =>
        if r.sku != Some(item.sku) || (r.size.Some? && !Folded(r.size, item.size, fold)) then None
        else Some(if tenantWide then 4 else 7)
      case ByStyle => if !Folded(r.style, item.style, fold) then None else Some(if tenantWide then 3 else 6)
      case ByCategory => if !Folded(r.category, item.category, fold) then None else Some(if tenantWide then 2 else 5)
      case ByDefault => if tenantWide then Some(1) else None
  }

  predicate Applies(r: Rule, store: StoreId, item: Item, fold: Fold) {
    Precedence(r, store, item, fold).Some?
  }

  // ----- When two rules clash -----

  predicate SameLabel(a: Option<string>, b: Option<string>, fold: Fold) {
    a.Some? && b.Some? && fold(a.value) == fold(b.value)
  }

  /** The syntactic test: same priority, scope and selector, and selectors that can meet. */
  predicate Overlap(l: Rule, r: Rule, fold: Fold) {
    && l.priority == r.priority && l.store == r.store && SelectorOf(l) == SelectorOf(r)
    && match SelectorOf(l)
       case ByDefault => true
       case ByCategory => SameLabel(l.category, r.category, fold)
       case ByStyle => SameLabel(l.style, r.style, fold)
       case BySku => l.sku == r.sku && (l.size.None? || r.size.None? || fold(l.size.value) == fold(r.size.value))
  }

  /** Neither rule is better for this item: selection would have to refuse. */
  predicate Tie(l: Rule, r: Rule, store: StoreId, item: Item, fold: Fold) {
    Applies(l, store, item, fold) && Precedence(l, store, item, fold) == Precedence(r, store, item, fold)
        && l.priority == r.priority
  }

  function LabelOr(a: Option<string>, other: string): string { if a.Some? then a.value else other }

  /** A store and an item to which both of two overlapping rules apply. */
  function MeetingStore(l: Rule): StoreId { if l.store.Some? then l.store.value else 0 }

  function MeetingItem(l: Rule, r: Rule): Item {
    Item(
      if l.sku.Some? then l.sku.value else 0, LabelOr(l.style, ""), LabelOr(l.category, ""),
      LabelOr(l.size, LabelOr(r.size, "")))
  }

  /** The overlap test finds exactly the pairs that some store and item make ambiguous. */
  lemma OverlapIffAmbiguous(l: Rule, r: Rule, fold: Fold)
    requires WellFormed(l) && WellFormed(r)
    ensures Overlap(l, r, fold) <==> exists store, item :: Tie(l, r, store, item, fold)
  {
    if Overlap(l, r, fold) {
      assert Tie(l, r, MeetingStore(l), MeetingItem(l, r), fold);
    }
    forall store, item | Tie(l, r, store, item, fold)
      ensures Overlap(l, r, fold)
    {
    }
  }

  ghost predicate Disjoint(rules: seq<Rule>, fold: Fold) {
    forall i, j {:trigger rules[i], rules[j]} :: 0 <= i < j < |rules| ==> !Overlap(rules[i], rules[j], fold)
  }

  lemma OverlapSymmetric(l: Rule, r: Rule, fold: Fold)
    ensures Overlap(l, r, fold) <==> Overlap(r, l, fold)
  {
  }

  /** The first overlapping pair in reading order, if there is any. */
  method FirstOverlap(rules: seq<Rule>, fold: Fold) returns (found: Option<(Rule, Rule)>)
    ensures found.None? <==> Disjoint(rules, fold)
    ensures found.Some? ==> exists i, j ::
            0 <= i < j < |rules| && found == Some((rules[i], rules[j])) && Overlap(rules[i], rules[j], fold)
  {
    for i := 0 to |rules|
      invariant forall a, b {:trigger rules[a], rules[b]} :: 0 <= a < i && a < b < |rules| ==>
                !Overlap(rules[a], rules[b], fold)
    {
      for j := i + 1 to |rules|
        invariant forall b {:trigger rules[b]} :: i < b < j ==> !Overlap(rules[i], rules[b], fold)
      {
        if Overlap(rules[i], rules[j], fold) {
          return Some((rules[i], rules[j]));
        }
      }
    }
    return None;
  }

  // ----- Selecting a rule -----

  function Candidates(rules: seq<Rule>, store: StoreId, item: Item, fold: Fold): (c: seq<Rule>)
    ensures forall r :: r in c <==> r in rules && Applies(r, store, item, fold)
  {
    if rules == [] then []
    else
      var rest := Candidates(rules[1..], store, item, fold);
      assert forall r :: r in rules <==> r == rules[0] || r in rules[1..];
      if Applies(rules[0], store, item, fold) then [rules[0]] + rest else rest
  }

  /** Specificity first, then priority. */
  predicate Before(a: Rule, b: Rule, store: StoreId, item: Item, fold: Fold) {
    var p, q := Precedence(a, store, item, fold), Precedence(b, store, item, fold);
    match (p, q)
    case (Some(x), Some(y)) => x > y || (x == y && a.priority >= b.priority)
    case (None, Some(_)) => false
    case (_, None) => p.Some? || a.priority >= b.priority
  }

  function Descending(store: StoreId, item: Item, fold: Fold): (Rule, Rule) -> bool {
    (a: Rule, b: Rule) => Before(a, b, store, item, fold)
  }

  datatype SelectionError = AmbiguousRules

  function Sorted(rules: seq<Rule>, store: StoreId, item: Item, fold: Fold): seq<Rule> {
    SortBy(Candidates(rules, store, item, fold), Descending(store, item, fold))
  }

  function SelectRule(rules: seq<Rule>, store: StoreId, item: Item, fold: Fold): Result<Option<Rule>, SelectionError> {
    var sorted := Sorted(rules, store, item, fold);
    if sorted == [] then Ok(None)
    else if |sorted| > 1 && Tie(sorted[0], sorted[1], store, item, fold) then Err(AmbiguousRules)
    else Ok(Some(sorted[0]))
  }

  /** An applicable rule that stands strictly before every other applicable occurrence. */
  ghost predicate OnlyBest(rules: seq<Rule>, r: Rule, store: StoreId, item: Item, fold: Fold) {
    && r in rules && Applies(r, store, item, fold) && multiset(Candidates(rules, store, item, fold))[r] == 1
    && forall q :: q in rules && Applies(q, store, item, fold) && q != r ==>
         Before(r, q, store, item, fold) && !Tie(r, q, store, item, fold)
  }

  lemma DescendingIsTotal(store: StoreId, item: Item, fold: Fold)
    ensures TotalPreorder(Descending(store, item, fold))
  {
  }

  lemma SortedCandidates(rules: seq<Rule>, store: StoreId, item: Item, fold: Fold)
    ensures
      var sorted := Sorted(rules, store, item, fold);
      && Ordered(sorted, Descending(store, item, fold))
      && multiset(sorted) == multiset(Candidates(rules, store, item, fold))
      && forall r :: r in sorted <==> r in rules && Applies(r, store, item, fold)
  {
    var le := Descending(store, item, fold);
    var c := Candidates(rules, store, item, fold);
    DescendingIsTotal(store, item, fold);
    SortOrders(c, le);
    SortPermutes(c, le);
    forall r
      ensures r in SortBy(c, le) <==> r in c
    {
      assert r in SortBy(c, le) <==> r in multiset(SortBy(c, le));
      assert r in c <==> r in multiset(c);
    }
  }

  lemma OnlyBestIsUnique(rules: seq<Rule>, q: Rule, r: Rule, store: StoreId, item: Item, fold: Fold)
    requires OnlyBest(rules, q, store, item, fold) && OnlyBest(rules, r, store, item, fold)
    ensures q == r
  {
  }

  /** The rule selected is the only best one; otherwise nothing applies or there is no only best one. */
  lemma SelectIsOnlyBest(rules: seq<Rule>, store: StoreId, item: Item, fold: Fold)
    ensures
      var s := SelectRule(rules, store, item, fold);
      && (s == Ok(None) <==> forall r :: r in rules ==> !Applies(r, store, item, fold))
      && (forall r :: s == Ok(Some(r)) <==> OnlyBest(rules, r, store, item, fold))
  {
    var sorted := Sorted(rules, store, item, fold);
    SortedCandidates(rules, store, item, fold);
    if sorted == [] {
      forall r | r in rules
        ensures !Applies(r, store, item, fold)
      {
        assert r !in sorted;
      }
    } else {
      assert sorted[0] in sorted;
      if |sorted| > 1 && Tie(sorted[0], sorted[1], store, item, fold) {
        TiedHasNoBest(rules, store, item, fold, sorted);
      } else {
        BestIsOnly(rules, store, item, fold, sorted);
        forall r | OnlyBest(rules, r, store, item, fold)
          ensures r == sorted[0]
        {
          OnlyBestIsUnique(rules, r, sorted[0], store, item, fold);
        }
      }
    }
  }

  lemma TiedHasNoBest(rules: seq<Rule>, store: StoreId, item: Item, fold: Fold, sorted: seq<Rule>)
    requires |sorted| > 1 && Ordered(sorted, Descending(store, item, fold))
    requires multiset(sorted) == multiset(Candidates(rules, store, item, fold))
    requires Tie(sorted[0], sorted[1], store, item, fold)
    ensures forall r :: !OnlyBest(rules, r, store, item, fold)
  {
    var c := Candidates(rules, store, item, fold);
    var le := Descending(store, item, fold);
    assert sorted[0] in multiset(sorted) && sorted[1] in multiset(sorted);
    assert sorted[0] in c && sorted[1] in c;
    forall r
      ensures !OnlyBest(rules, r, store, item, fold)
    {
      if r in c {
        assert r in multiset(sorted);
        var i :| 0 <= i < |sorted| && sorted[i] == r;
        assert i > 0 ==> le(sorted[0], sorted[i]);
        if r == sorted[0] && r == sorted[1] {
          assert sorted == [r, r] + sorted[2..];
          assert multiset(c)[r] >= 2;
        } else if r == sorted[0] {
          assert Tie(r, sorted[1], store, item, fold);
        } else {
          assert sorted[0] != r && Before(sorted[0], r, store, item, fold);
        }
      }
    }
  }

  lemma SecondDecides(a: Rule, b: Rule, q: Rule, store: StoreId, item: Item, fold: Fold)
    requires Applies(a, store, item, fold) && Applies(b, store, item, fold) && Applies(q, store, item, fold)
    requires Before(a, b, store, item, fold) && !Tie(a, b, store, item, fold) && Before(b, q, store, item, fold)
    ensures Before(a, q, store, item, fold) && !Tie(a, q, store, item, fold) && q != a
  {
  }

  lemma HeadOccursOnce(s: seq<Rule>)
    requires s != [] && forall i :: 1 <= i < |s| ==> s[i] != s[0]
    ensures multiset(s)[s[0]] == 1
  {
    assert s == [s[0]] + s[1..];
    assert s[0] !in s[1..];
  }

  lemma BestIsOnly(rules: seq<Rule>, store: StoreId, item: Item, fold: Fold, sorted: seq<Rule>)
    requires sorted != [] && Ordered(sorted, Descending(store, item, fold))
    requires multiset(sorted) == multiset(Candidates(rules, store, item, fold))
    requires |sorted| > 1 ==> !Tie(sorted[0], sorted[1], store, item, fold)
    ensures OnlyBest(rules, sorted[0], store, item, fold)
  {
    var c := Candidates(rules, store, item, fold);
    var le := Descending(store, item, fold);
    var best := sorted[0];
    forall r
      ensures r in sorted <==> r in c
    {
      assert r in sorted <==> r in multiset(sorted);
      assert r in c <==> r in multiset(c);
    }
    forall i | 1 <= i < |sorted|
      ensures Before(best, sorted[i], store, item, fold) && !Tie(best, sorted[i], store, item, fold)
              && sorted[i] != best
    {
      assert le(sorted[0], sorted[1]) && (i > 1 ==> le(sorted[1], sorted[i]));
      assert best in sorted && sorted[1] in sorted && sorted[i] in sorted;
      if i > 1 {
        SecondDecides(best, sorted[1], sorted[i], store, item, fold);
      }
    }
    HeadOccursOnce(sorted);
    forall q | q in c && q != best
      ensures Before(best, q, store, item, fold) && !Tie(best, q, store, item, fold)
    {
      var i :| 0 <= i < |sorted| && sorted[i] == q;
    }
  }

  lemma {:induction false} CandidatesPermute(rules: seq<Rule>, store: StoreId, item: Item, fold: Fold, r: Rule)
    ensures multiset(Candidates(rules, store, item, fold))[r] ==
            if Applies(r, store, item, fold) then multiset(rules)[r] else 0
  {
    if rules != [] {
      CandidatesPermute(rules[1..], store, item, fold, r);
      assert rules == [rules[0]] + rules[1..];
    }
  }

  lemma SameRules(rules: seq<Rule>, other: seq<Rule>)
    requires multiset(rules) == multiset(other)
    ensures forall r :: r in rules <==> r in other
  {
    forall r
      ensures r in rules <==> r in other
    {
      assert r in rules <==> r in multiset(rules);
      assert r in other <==> r in multiset(other);
    }
  }

  lemma SameOnlyBest(rules: seq<Rule>, other: seq<Rule>, r: Rule, store: StoreId, item: Item, fold: Fold)
    requires multiset(rules) == multiset(other) && OnlyBest(rules, r, store, item, fold)
    ensures OnlyBest(other, r, store, item, fold)
  {
    SameRules(rules, other);
    CandidatesPermute(rules, store, item, fold, r);
    CandidatesPermute(other, store, item, fold, r);
  }

  /** The order in which the rules are listed never matters, not even for refusing. */
  lemma SelectionIgnoresOrder(rules: seq<Rule>, other: seq<Rule>, store: StoreId, item: Item, fold: Fold)
    requires multiset(rules) == multiset(other)
    ensures SelectRule(rules, store, item, fold) == SelectRule(other, store, item, fold)
  {
    SelectIsOnlyBest(rules, store, item, fold);
    SelectIsOnlyBest(other, store, item, fold);
    SameRules(rules, other);
    var s, t := SelectRule(rules, store, item, fold), SelectRule(other, store, item, fold);
    if s.Ok? && s.value.Some? {
      SameOnlyBest(rules, other, s.value.value, store, item, fold);
    }
    if t.Ok? && t.value.Some? {
      SameOnlyBest(other, rules, t.value.value, store, item, fold);
    }
  }

  /** Rules that pass the overlap test never make selection refuse. */
  lemma DisjointNeverAmbiguous(rules: seq<Rule>, store: StoreId, item: Item, fold: Fold)
    requires Disjoint(rules, fold) && forall r :: r in rules ==> WellFormed(r)
    ensures SelectRule(rules, store, item, fold).Ok?
  {
    var le := Descending(store, item, fold);
    var c := Candidates(rules, store, item, fold);
    var sorted := SortBy(c, le);
    SortPermutes(c, le);
    if |sorted| > 1 && Tie(sorted[0], sorted[1], store, item, fold) {
      TwoOf(sorted);
      CandidatesAreRules(rules, store, item, fold);
      var i, j := TwoPositions(rules, sorted[0], sorted[1]);
      OverlapSymmetric(sorted[0], sorted[1], fold);
      assert rules[i] in rules && rules[j] in rules;
      OverlapIffAmbiguous(sorted[0], sorted[1], fold);
      assert false;
    }
  }

  lemma CandidatesAreRules(rules: seq<Rule>, store: StoreId, item: Item, fold: Fold)
    ensures multiset(Candidates(rules, store, item, fold)) <= multiset(rules)
  {
    forall r: Rule
      ensures multiset(Candidates(rules, store, item, fold))[r] <= multiset(rules)[r]
    {
      CandidatesPermute(rules, store, item, fold, r);
    }
  }

  lemma TwoOf(s: seq<Rule>)
    requires |s| > 1
    ensures multiset{s[0], s[1]} <= multiset(s)
  {
    assert s == [s[0], s[1]] + s[2..];
  }

  /** Two elements of a sequence sit at two positions. */
  lemma TwoPositions<T>(s: seq<T>, a: T, b: T) returns (i: nat, j: nat)
    requires multiset{a, b} <= multiset(s)
    ensures i < j < |s| && ((s[i] == a && s[j] == b) || (s[i] == b && s[j] == a))
  {
    assert multiset{a, b}[a] <= multiset(s)[a] && multiset{a, b}[b] <= multiset(s)[b];
    assert a in multiset(s);
    var p :| 0 <= p < |s| && s[p] == a;
    var rest := s[..p] + s[p + 1..];
    assert s == s[..p] + [s[p]] + s[p + 1..];
    assert multiset(rest)[b] == multiset(s)[b] - multiset{a}[b];
    assert b in multiset(rest);
    var q :| 0 <= q < |rest| && rest[q] == b;
    if q < p {
      i, j := q, p;
    } else {
      i, j := p, q + 1;
    }
  }

  // ----- The selection, said by the fields of the rules -----

  /** Every scope and selector that the rule sets agrees with the store and the item. */
  predicate Matches(r: Rule, store: StoreId, item: Item, fold: Fold) {
    && (r.store.Some? ==> r.store.value == store)
    && (r.sku.Some? ==> r.sku.value == item.sku)
    && (r.size.Some? ==> fold(r.size.value) == fold(item.size))
    && (r.style.Some? ==> fold(r.style.value) == fold(item.style))
    && (r.category.Some? ==> fold(r.category.value) == fold(item.category))
  }

  /** The first rule is for a SKU and the second is not, or for a style, or for a category. */
  predicate Narrower(a: Rule, b: Rule) {
    || (a.sku.Some? && b.sku.None?)
    || (a.style.Some? && b.sku.None? && b.style.None?)
    || (a.category.Some? && b.sku.None? && b.style.None? && b.category.None?)
  }

  /** A store's rules come first, then SKU, style, category and default rules, then the higher priority. */
  predicate Outranks(a: Rule, b: Rule) {
    if a.store.Some? != b.store.Some? then a.store.Some?
    else Narrower(a, b) || (!Narrower(b, a) && a.priority > b.priority)
  }

  lemma AppliesIffMatches(r: Rule, store: StoreId, item: Item, fold: Fold)
    requires WellFormed(r)
    ensures Applies(r, store, item, fold) <==> Matches(r, store, item, fold)
  {
  }

  lemma BeforeIffOutranks(a: Rule, b: Rule, store: StoreId, item: Item, fold: Fold)
    requires WellFormed(a) && WellFormed(b) && Matches(a, store, item, fold) && Matches(b, store, item, fold)
    ensures Before(a, b, store, item, fold) && !Tie(a, b, store, item, fold) <==> Outranks(a, b)
    ensures Tie(a, b, store, item, fold) <==> !Outranks(a, b) && !Outranks(b, a)
  {
  }

  /** A matching rule, listed once, that outranks every other matching rule. */
  ghost predicate First(rules: seq<Rule>, r: Rule, store: StoreId, item: Item, fold: Fold) {
    && multiset(rules)[r] == 1 && Matches(r, store, item, fold)
    && forall q :: q in rules && Matches(q, store, item, fold) && q != r ==> Outranks(r, q)
  }

  /**
   Of stored rules, nothing is selected exactly when no rule matches, and a rule is selected
   exactly when it is the first of the matching ones; otherwise the selection is refused.
   */
  lemma SelectedIsFirst(rules: seq<Rule>, store: StoreId, item: Item, fold: Fold)
    requires forall r :: r in rules ==> WellFormed(r)
    ensures
      var s := SelectRule(rules, store, item, fold);
      && (s == Ok(None) <==> forall r :: r in rules ==> !Matches(r, store, item, fold))
      && (forall r :: s == Ok(Some(r)) <==> First(rules, r, store, item, fold))
  {
    SelectIsOnlyBest(rules, store, item, fold);
    forall r | r in rules
      ensures Applies(r, store, item, fold) <==> Matches(r, store, item, fold)
    {
      AppliesIffMatches(r, store, item, fold);
    }
    forall r
      ensures OnlyBest(rules, r, store, item, fold) <==> First(rules, r, store, item, fold)
    {
      CandidatesPermute(rules, store, item, fold, r);
      assert r in rules <==> r in multiset(rules);
      if r in rules && Matches(r, store, item, fold) {
        forall q | q in rules && Matches(q, store, item, fold)
          ensures Before(r, q, store, item, fold) && !Tie(r, q, store, item, fold) <==> Outranks(r, q)
        {
          BeforeIffOutranks(r, q, store, item, fold);
        }
      }
    }
  }

  /** Two stored rules overlap exactly when some store and item match both and neither outranks the other. */
  lemma OverlapIffUndecided(l: Rule, r: Rule, fold: Fold)
    requires WellFormed(l) && WellFormed(r)
    ensures Overlap(l, r, fold) <==>
            (exists store, item :: Matches(l, store, item, fold) && Matches(r, store, item, fold))
            && !Outranks(l, r) && !Outranks(r, l)
  {
    OverlapIffAmbiguous(l, r, fold);
    forall store, item
      ensures Tie(l, r, store, item, fold) <==>
              && Matches(l, store, item, fold) && Matches(r, store, item, fold)
              && !Outranks(l, r) && !Outranks(r, l)
    {
      AppliesIffMatches(l, store, item, fold);
      AppliesIffMatches(r, store, item, fold);
      if Matches(l, store, item, fold) && Matches(r, store, item, fold) {
        BeforeIffOutranks(l, r, store, item, fold);
      }
    }
    if Overlap(l, r, fold) {
      var store, item :| Tie(l, r, store, item, fold);
      assert Matches(l, store, item, fold) && Matches(r, store, item, fold);
    }
    forall store, item | Matches(l, store, item, fold) && Matches(r, store, item, fold) && !Outranks(l, r)
        && !Outranks(r, l)
      ensures Overlap(l, r, fold)
    {
      assert Tie(l, r, store, item, fold);
    }
  }
}
