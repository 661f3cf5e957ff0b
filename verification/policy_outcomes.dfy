/**
 Which rules are refused and why, and what creating, rewriting, cloning and activating a
 policy version does, said by the fields of rules and versions.
 */
module PolicyOutcomes {
  import opened Basics
  import opened Observations
  import opened Policies
  import opened PolicyVersions

  // ----- Refused rules -----

  function Selectors(r: Rule): nat {
    (if r.sku.Some? then 1 else 0) + (if r.style.Some? then 1 else 0) + (if r.category.Some? then 1 else 0)
  }

  /** One selector at most, exactly one under a store, a size only with a SKU, and a target not below the minimum. */
  predicate Sound(r: Rule) {
    && Selectors(r) <= 1 && (r.store.Some? ==> Selectors(r) == 1) && (r.size.Some? ==> r.sku.Some?)
    && 0 <= r.minFloor && r.minFloor <= r.targetFloor
  }

  /** Some item in some store matches both rules and neither comes first. */
  ghost predicate Undecided(l: Rule, r: Rule, fold: Fold) {
    && (exists store, item :: Matches(l, store, item, fold) && Matches(r, store, item, fold))
    && !Outranks(l, r) && !Outranks(r, l)
  }

  ghost predicate TwoUndecided(rules: seq<Rule>, fold: Fold) {
    exists i, j :: 0 <= i < j < |rules| && Undecided(rules[i], rules[j], fold)
  }

  predicate StoreMissing(r: Rule, reg: Registry) { r.store.Some? && r.store.value !in reg.stores }

  predicate SkuMissing(r: Rule, reg: Registry, fold: Fold) {
    && r.sku.Some?
    && (r.sku.value in reg.sizes ==> r.size.Some? && fold(r.size.value) != fold(reg.sizes[r.sku.value]))
  }

  predicate LabelMissing(name: Option<string>, labels: set<string>, fold: Fold) {
    name.Some? && forall l :: l in labels ==> fold(l) != fold(name.value)
  }

  /** The first of these that holds of some rules is the problem reported. */
  ghost predicate ProblemIs(rules: seq<Rule>, reg: Registry, fold: Fold, e: Option<PolicyError>) {
    if exists r :: r in rules && !Sound(r) then e == Some(InvalidRule)
    else if TwoUndecided(rules, fold) then e == Some(PolicyRuleOverlap)
    else if exists r :: r in rules && StoreMissing(r, reg) then e == Some(InvalidStore)
    else if exists r :: r in rules && SkuMissing(r, reg, fold) then e == Some(InvalidSku)
    else if exists r :: r in rules && LabelMissing(r.style, reg.styles, fold) then e == Some(InvalidStyle)
    else if exists r :: r in rules && LabelMissing(r.category, reg.categories, fold) then e == Some(InvalidCategory)
    else e == None
  }

  lemma SoundIsWellFormed(r: Rule)
    ensures Sound(r) <==> WellFormed(r)
  {
  }

  lemma UndecidedIsOverlap(rules: seq<Rule>, fold: Fold)
    requires forall r :: r in rules ==> Sound(r)
    ensures TwoUndecided(rules, fold) <==> !Disjoint(rules, fold)
  {
    forall i, j | 0 <= i < j < |rules|
      ensures Undecided(rules[i], rules[j], fold) <==> Overlap(rules[i], rules[j], fold)
    {
      SoundIsWellFormed(rules[i]);
      SoundIsWellFormed(rules[j]);
      OverlapIffUndecided(rules[i], rules[j], fold);
    }
  }

  lemma MissingIsUnknown(rules: seq<Rule>, reg: Registry, fold: Fold)
    ensures Unknown(rules, StoreKnown(reg)) <==> exists r :: r in rules && StoreMissing(r, reg)
    ensures Unknown(rules, SkuKnown(reg, fold)) <==> exists r :: r in rules && SkuMissing(r, reg, fold)
    ensures Unknown(rules, StyleKnown(reg, fold)) <==>
            exists r :: r in rules && LabelMissing(r.style, reg.styles, fold)
    ensures Unknown(rules, CategoryKnown(reg, fold)) <==>
            exists r :: r in rules && LabelMissing(r.category, reg.categories, fold)
  {
    forall r: Rule
      ensures StoreMissing(r, reg) <==> !StoreKnown(reg)(r)
      ensures SkuMissing(r, reg, fold) <==> !SkuKnown(reg, fold)(r)
    {
    }
    forall r: Rule
      ensures LabelMissing(r.style, reg.styles, fold) <==> !StyleKnown(reg, fold)(r)
      ensures LabelMissing(r.category, reg.categories, fold) <==> !CategoryKnown(reg, fold)(r)
    {
    }
  }

  lemma ProblemReported(rules: seq<Rule>, reg: Registry, fold: Fold)
    ensures ProblemIs(rules, reg, fold, RulesProblem(rules, reg, fold))
  {
    forall r: Rule
      ensures Sound(r) <==> WellFormed(r)
    {
      SoundIsWellFormed(r);
    }
    if forall r :: r in rules ==> Sound(r) {
      UndecidedIsOverlap(rules, fold);
      MissingIsUnknown(rules, reg, fold);
    }
  }

  /** A store's rule without a selector, which the checks refuse, never applies to anything. */
  lemma StoreDefaultNeverApplies(r: Rule, store: StoreId, item: Item, fold: Fold)
    requires r.store.Some? && Selectors(r) == 0
    ensures !Applies(r, store, item, fold) && !Sound(r)
  {
  }

  // ----- Drafts -----

  /** A new policy starts with a first draft of its rules, if they are accepted. */
  lemma CreateOutcome(
    vs: Versions, id: VersionId, policy: PolicyId, rules: seq<Rule>, reg: Registry, fold: Fold)
    requires id !in vs
    ensures
      match CreatePolicy(vs, id, policy, rules, reg, fold)
      case Ok(next) => ProblemIs(rules, reg, fold, None) && next == vs[id := Version(policy, 1, Draft, rules)]
      case Err(e) => ProblemIs(rules, reg, fold, Some(e))
  {
    ProblemReported(rules, reg, fold);
  }

  /** Rewriting replaces the rules of a draft by accepted ones and changes nothing else. */
  lemma PatchOutcome(vs: Versions, id: VersionId, rules: seq<Rule>, reg: Registry, fold: Fold)
    ensures
      var r := PatchVersion(vs, id, rules, reg, fold);
      if id !in vs then r == Err(VersionNotFound)
      else if vs[id].status != Draft then r == Err(VersionImmutable)
      else
        match r
        case Ok(next) =>
          && ProblemIs(rules, reg, fold, None)
          && next == vs[id := Version(vs[id].policy, vs[id].number, Draft, rules)]
        case Err(e) => ProblemIs(rules, reg, fold, Some(e))
  {
    ProblemReported(rules, reg, fold);
  }

  predicate IsVersionOf(vs: Versions, v: VersionId, policy: PolicyId) { v in vs && vs[v].policy == policy }

  /** The version to start from: the active one, or without one the one with the highest number. */
  ghost predicate StartsFrom(vs: Versions, policy: PolicyId, v: VersionId) {
    && IsVersionOf(vs, v, policy)
    && (vs[v].status == Active
        || forall w :: IsVersionOf(vs, w, policy) ==> vs[w].status != Active && vs[w].number <= vs[v].number)
  }

  /** A clone is a draft with the rules it starts from and the next number after all of its policy's. */
  lemma CloneOutcome(vs: Versions, policy: PolicyId, source: VersionId, n: nat, id: VersionId)
    requires CloneSource(vs, policy, source) && LatestNumber(vs, policy, n) && id !in vs
    ensures StartsFrom(vs, policy, source) && ClonePolicy(vs, policy, source, n, id).Ok?
    ensures
      var next := ClonePolicy(vs, policy, source, n, id).value;
      && id in next && next == vs[id := next[id]]
      && next[id].policy == policy && next[id].status == Draft && next[id].rules == vs[source].rules
      && (forall w :: IsVersionOf(vs, w, policy) ==> vs[w].number < next[id].number)
      && (exists w :: IsVersionOf(vs, w, policy) && vs[w].number + 1 == next[id].number)
  {
    assert forall w :: IsVersionOf(vs, w, policy) <==> w in vs && vs[w].policy == policy;
    var w :| w in vs && vs[w].policy == policy && vs[w].number == n;
    assert IsVersionOf(vs, w, policy);
  }

  lemma {:induction false} HighestAmong(vs: Versions, ids: set<VersionId>, start: VersionId)
    returns (v: VersionId)
    requires start in ids && ids <= vs.Keys
    ensures v in ids && forall w :: w in ids ==> vs[w].number <= vs[v].number
    decreases |ids|
  {
    v := start;
    if other: VersionId :| other in ids && other != start {
      var best := HighestAmong(vs, ids - {start}, other);
      v := if vs[best].number < vs[start].number then start else best;
    }
  }

  /** Whatever has a version can be cloned. */
  lemma CloneIsPossible(vs: Versions, policy: PolicyId, v: VersionId)
    requires IsVersionOf(vs, v, policy)
    ensures exists source :: CloneSource(vs, policy, source)
    ensures exists n :: LatestNumber(vs, policy, n)
  {
    var ids := set w | w in vs && vs[w].policy == policy;
    var latest := HighestAmong(vs, ids, v);
    assert LatestNumber(vs, policy, vs[latest].number);
    if exists w :: w in ids && vs[w].status == Active {
      var w :| w in ids && vs[w].status == Active;
      assert CloneSource(vs, policy, w);
    } else {
      assert CloneSource(vs, policy, latest);
    }
  }

  // ----- Activation -----

  /** A rule of the draft and a rule of an active version of another policy leave some item undecided. */
  ghost predicate ClashesElsewhere(vs: Versions, id: VersionId, fold: Fold)
    requires id in vs
  {
    exists w, i, j ::
      && w in vs && vs[w].status == Active && vs[w].policy != vs[id].policy
      && 0 <= i < |vs[id].rules| && 0 <= j < |vs[w].rules| && Undecided(vs[id].rules[i], vs[w].rules[j], fold)
  }

  /** The version is the active one of its policy from now on; no other version is touched but the one it replaces. */
  ghost predicate Replaced(vs: Versions, next: Versions, id: VersionId)
    requires id in vs
  {
    && next.Keys == vs.Keys && next[id] == Version(vs[id].policy, vs[id].number, Active, vs[id].rules)
    && forall v :: v in vs && v != id ==>
         if vs[v].status == Active && vs[v].policy == vs[id].policy then
           next[v] == Version(vs[v].policy, vs[v].number, Retired, vs[v].rules)
         else next[v] == vs[v]
  }

  lemma PairIsUndecided(vs: Versions, v: VersionId, w: VersionId, i: nat, j: nat, fold: Fold)
    requires VersionsOk(vs, fold) && v in vs && w in vs && i < |vs[v].rules| && j < |vs[w].rules|
    ensures Overlap(vs[v].rules[i], vs[w].rules[j], fold) <==> Undecided(vs[v].rules[i], vs[w].rules[j], fold)
  {
    assert ValidRules(vs[v].rules, fold) && ValidRules(vs[w].rules, fold);
    assert vs[v].rules[i] in vs[v].rules && vs[w].rules[j] in vs[w].rules;
    OverlapIffUndecided(vs[v].rules[i], vs[w].rules[j], fold);
  }

  lemma ClashIsUndecided(vs: Versions, id: VersionId, fold: Fold)
    requires VersionsOk(vs, fold) && id in vs
    ensures ClashesWithActive(vs, id, fold) <==> ClashesElsewhere(vs, id, fold)
  {
    if ClashesWithActive(vs, id, fold) {
      var w :| IsActive(vs, w) && vs[w].policy != vs[id].policy && Clash(vs[id].rules, vs[w].rules, fold);
      var i, j :| 0 <= i < |vs[id].rules| && 0 <= j < |vs[w].rules| && Overlap(vs[id].rules[i], vs[w].rules[j], fold);
      PairIsUndecided(vs, id, w, i, j, fold);
    }
    if ClashesElsewhere(vs, id, fold) {
      var w, i, j :|
          && w in vs && vs[w].status == Active && vs[w].policy != vs[id].policy
          && 0 <= i < |vs[id].rules| && 0 <= j < |vs[w].rules| && Undecided(vs[id].rules[i], vs[w].rules[j], fold);
      PairIsUndecided(vs, id, w, i, j, fold);
      assert IsActive(vs, w) && Clash(vs[id].rules, vs[w].rules, fold);
    }
  }

  /**
   Activation: an active version stays as it is, a retired one is refused; a draft becomes the active
   version exactly when it has rules, they are accepted and no active rule of another policy clashes.
   */
  lemma ActivateOutcome(vs: Versions, id: VersionId, reg: Registry, fold: Fold)
    requires VersionsOk(vs, fold)
    ensures
      var r := ActivateVersion(vs, id, reg, fold);
      if id !in vs then r == Err(VersionNotFound)
      else if vs[id].status == Active then r == Ok(vs)
      else if vs[id].status == Retired then r == Err(VersionRetired)
      else if vs[id].rules == [] then r == Err(EmptyPolicy)
      else if !ProblemIs(vs[id].rules, reg, fold, None) then r.Err? && ProblemIs(vs[id].rules, reg, fold, Some(r.error))
      else if ClashesElsewhere(vs, id, fold) then r == Err(ActivePolicyOverlap)
      else r.Ok? && Replaced(vs, r.value, id)
  {
    if id in vs {
      ProblemReported(vs[id].rules, reg, fold);
      ClashIsUndecided(vs, id, fold);
    }
  }

  /** Accepted rules can be drafted, activated and cloned, one step after the other. */
  lemma DraftToActive(rules: seq<Rule>, reg: Registry, fold: Fold)
    requires ProblemIs(rules, reg, fold, None) && rules != []
    ensures
      var active := Run(map[], [Create(1, 1, rules, reg), Activate(1, reg)], fold);
      var cloned := PolicyVersions.RunStep(active, Clone(1, 1, 1, 2), fold);
      active == map[1 := Version(1, 1, Active, rules)] && cloned == active[2 := Version(1, 2, Draft, rules)]
  {
    ProblemReported(rules, reg, fold);
    var steps := [Create(1, 1, rules, reg), Activate(1, reg)];
    var drafted := PolicyVersions.RunStep(map[], steps[0], fold);
    assert drafted == map[1 := Version(1, 1, Draft, rules)];
    var active := PolicyVersions.RunStep(drafted, steps[1], fold);
    assert !ClashesWithActive(drafted, 1, fold);
    assert active == map[1 := Version(1, 1, Active, rules)];
    assert steps[1..] == [steps[1]] && steps[1..][1..] == [];
    assert Run(map[], steps, fold) == Run(drafted, steps[1..], fold) == Run(active, [], fold);
  }
}
