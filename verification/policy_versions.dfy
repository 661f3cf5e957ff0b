/**
 The life of policy versions: drafts are written and rewritten, one version of a policy is
 active at a time, and activation refuses whatever could make rule selection ambiguous.
 */
module PolicyVersions {
  import opened Basics
  import opened Observations
  import opened Policies

  type VersionId = int
  type PolicyId = int

  datatype Status = Draft | Active | Retired

  datatype Version = Version(policy: PolicyId, number: nat, status: Status, rules: seq<Rule>)

  type Versions = map<VersionId, Version>

  datatype PolicyError =
    | InvalidRule | PolicyRuleOverlap | VersionNotFound | PolicyNotFound | VersionImmutable | VersionRetired
    | EmptyPolicy | ActivePolicyOverlap | InvalidStore | InvalidSku | InvalidStyle | InvalidCategory

  /** What rules may refer to at one moment: usable stores, active SKUs with their sizes, active products. */
  datatype Registry = Registry(
    stores: set<StoreId>, sizes: map<SkuId, string>, styles: set<string>, categories: set<string>)

  ghost predicate ValidRules(rules: seq<Rule>, fold: Fold) {
    (forall r :: r in rules ==> WellFormed(r)) && Disjoint(rules, fold)
  }

  function StoreKnown(reg: Registry): Rule -> bool {
    (r: Rule) => r.store.Some? ==> r.store.value in reg.stores
  }

  function SkuKnown(reg: Registry, fold: Fold): Rule -> bool {
    (r: Rule) =>
      r.sku.Some? ==> r.sku.value in reg.sizes && (r.size.Some? ==> Folded(r.size, reg.sizes[r.sku.value], fold))
  }

  predicate LabelKnown(name: Option<string>, labels: set<string>, fold: Fold) {
    name.Some? ==> exists l :: l in labels && Folded(name, l, fold)
  }

  function StyleKnown(reg: Registry, fold: Fold): Rule -> bool {
    (r: Rule) => LabelKnown(r.style, reg.styles, fold)
  }

  function CategoryKnown(reg: Registry, fold: Fold): Rule -> bool {
    (r: Rule) => LabelKnown(r.category, reg.categories, fold)
  }

  ghost predicate Unknown(rules: seq<Rule>, known: Rule -> bool) {
    exists r :: r in rules && !known(r)
  }

  /** The first check that rules fail, in the order the service makes them. */
  ghost function RulesProblem(rules: seq<Rule>, reg: Registry, fold: Fold): (e: Option<PolicyError>)
    ensures e.None? ==> ValidRules(rules, fold)
  {
    if exists r :: r in rules && !WellFormed(r) then Some(InvalidRule)
    else if !Disjoint(rules, fold) then Some(PolicyRuleOverlap)
    else if Unknown(rules, StoreKnown(reg)) then Some(InvalidStore)
    else if Unknown(rules, SkuKnown(reg, fold)) then Some(InvalidSku)
    else if Unknown(rules, StyleKnown(reg, fold)) then Some(InvalidStyle)
    else if Unknown(rules, CategoryKnown(reg, fold)) then Some(InvalidCategory)
    else None
  }

  // ----- Operations -----

  ghost function CreatePolicy(
    vs: Versions, id: VersionId, policy: PolicyId, rules: seq<Rule>, reg: Registry, fold: Fold)
    : Result<Versions, PolicyError>
  {
    match RulesProblem(rules, reg, fold)
    case Some(e) => Err(e)
    case None => Ok(vs[id := Version(policy, 1, Draft, rules)])
  }

  ghost function PatchVersion(vs: Versions, id: VersionId, rules: seq<Rule>, reg: Registry, fold: Fold)
    : Result<Versions, PolicyError>
  {
    if id !in vs then Err(VersionNotFound)
    else if vs[id].status != Draft then Err(VersionImmutable)
    else
      match RulesProblem(rules, reg, fold)
      case Some(e) => Err(e)
      case None => Ok(vs[id := vs[id].(rules := rules)])
  }

  predicate IsActive(vs: Versions, v: VersionId) {
    v in vs && vs[v].status == Active
  }

  /** The active version of a policy, or else its latest one. */
  ghost predicate CloneSource(vs: Versions, policy: PolicyId, v: VersionId) {
    && v in vs && vs[v].policy == policy
    && (vs[v].status == Active
        || forall w :: w in vs && vs[w].policy == policy ==> vs[w].status != Active && vs[w].number <= vs[v].number)
  }

  ghost predicate LatestNumber(vs: Versions, policy: PolicyId, n: nat) {
    && (forall w :: w in vs && vs[w].policy == policy ==> vs[w].number <= n)
    && (exists w :: w in vs && vs[w].policy == policy && vs[w].number == n)
  }

  ghost function ClonePolicy(
    vs: Versions, policy: PolicyId, source: VersionId, n: nat, id: VersionId): Result<Versions, PolicyError>
    requires CloneSource(vs, policy, source) && LatestNumber(vs, policy, n)
  {
    Ok(vs[id := Version(policy, n + 1, Draft, vs[source].rules)])
  }

  predicate Clash(a: seq<Rule>, b: seq<Rule>, fold: Fold) {
    exists i, j :: 0 <= i < |a| && 0 <= j < |b| && Overlap(a[i], b[j], fold)
  }

  /** Some version of another policy is active and clashes with the draft. */
  ghost predicate ClashesWithActive(vs: Versions, id: VersionId, fold: Fold)
    requires id in vs
  {
    exists w :: IsActive(vs, w) && vs[w].policy != vs[id].policy && Clash(vs[id].rules, vs[w].rules, fold)
  }

  /** The draft becomes active and whatever was active for its policy is retired. */
  function Switched(vs: Versions, id: VersionId): Versions
    requires id in vs
  {
    map v | v in vs ::
      if v == id then vs[v].(status := Active)
      else if vs[v].policy == vs[id].policy && vs[v].status == Active then vs[v].(status := Retired)
      else vs[v]
  }

  ghost function ActivateVersion(vs: Versions, id: VersionId, reg: Registry, fold: Fold)
    : Result<Versions, PolicyError>
  {
    if id !in vs then Err(VersionNotFound)
    else if vs[id].status == Active then Ok(vs)
    else if vs[id].status != Draft then Err(VersionRetired)
    else if vs[id].rules == [] then Err(EmptyPolicy)
    else
      match RulesProblem(vs[id].rules, reg, fold)
      case Some(e) => Err(e)
      case None => if ClashesWithActive(vs, id, fold) then Err(ActivePolicyOverlap) else Ok(Switched(vs, id))
  }

  // ----- The invariant -----

  /** One active version per policy, and the active rules of all policies never clash. */
  ghost predicate VersionsOk(vs: Versions, fold: Fold) {
    && (forall v {:trigger vs[v]} :: v in vs ==> ValidRules(vs[v].rules, fold))
    && (forall v, w {:trigger IsActive(vs, v), IsActive(vs, w)} ::
          IsActive(vs, v) && IsActive(vs, w) && v != w ==>
            vs[v].policy != vs[w].policy && !Clash(vs[v].rules, vs[w].rules, fold))
  }

  lemma ClashSymmetric(a: seq<Rule>, b: seq<Rule>, fold: Fold)
    ensures Clash(a, b, fold) <==> Clash(b, a, fold)
  {
  }

  lemma ActivateKeeps(vs: Versions, id: VersionId, reg: Registry, fold: Fold)
    requires VersionsOk(vs, fold) && ActivateVersion(vs, id, reg, fold).Ok?
    ensures VersionsOk(ActivateVersion(vs, id, reg, fold).value, fold)
  {
    var next := ActivateVersion(vs, id, reg, fold).value;
    forall v, w | IsActive(next, v) && IsActive(next, w) && v != w
      ensures next[v].policy != next[w].policy && !Clash(next[v].rules, next[w].rules, fold)
    {
      assert v in vs && w in vs;
      ClashSymmetric(vs[v].rules, vs[w].rules, fold);
      assert v != id ==> IsActive(vs, v);
      assert w != id ==> IsActive(vs, w);
    }
  }

  lemma DraftKeeps(vs: Versions, id: VersionId, v: Version, fold: Fold)
    requires VersionsOk(vs, fold) && v.status == Draft && ValidRules(v.rules, fold)
    requires id in vs ==> vs[id].status == Draft
    ensures VersionsOk(vs[id := v], fold)
  {
    var next := vs[id := v];
    forall a, b | IsActive(next, a) && IsActive(next, b) && a != b
      ensures next[a].policy != next[b].policy && !Clash(next[a].rules, next[b].rules, fold)
    {
      assert IsActive(vs, a) && IsActive(vs, b);
    }
  }

  // ----- The rules an evaluation reads -----

  ghost predicate Stored(vs: Versions, order: seq<VersionId>) {
    forall i :: 0 <= i < |order| ==> order[i] in vs
  }

  ghost function RulesOf(vs: Versions, order: seq<VersionId>): seq<Rule>
    requires Stored(vs, order)
  {
    if order == [] then []
    else
      vs[order[0]].rules + RulesOf(vs, order[1..])
  }

  ghost predicate ActiveOrder(vs: Versions, order: seq<VersionId>) {
    && (forall i, j :: 0 <= i < j < |order| ==> order[i] != order[j])
    && (forall i :: 0 <= i < |order| ==> IsActive(vs, order[i]))
    && (forall v :: IsActive(vs, v) ==> v in order)
  }

  /** The rows a query for the rules of all active versions may return, in any order. */
  ghost predicate ActiveRules(vs: Versions, rules: seq<Rule>) {
    exists order :: ActiveOrder(vs, order) && Stored(vs, order) && multiset(rules) == multiset(RulesOf(vs, order))
  }

  lemma AppendDisjoint(a: seq<Rule>, b: seq<Rule>, fold: Fold)
    requires Disjoint(a, fold) && Disjoint(b, fold) && !Clash(a, b, fold)
    ensures Disjoint(a + b, fold)
  {
  }

  lemma {:induction false} RulesOfSound(vs: Versions, order: seq<VersionId>, fold: Fold, v: VersionId)
    requires VersionsOk(vs, fold) && Stored(vs, order) && (forall i :: 0 <= i < |order| ==> IsActive(vs, order[i]))
    requires forall i, j :: 0 <= i < j < |order| ==> order[i] != order[j]
    ensures (forall r :: r in RulesOf(vs, order) ==> WellFormed(r)) && Disjoint(RulesOf(vs, order), fold)
    ensures IsActive(vs, v) && v !in order ==> !Clash(vs[v].rules, RulesOf(vs, order), fold)
  {
    if order != [] {
      var first, rest := order[0], order[1..];
      RulesOfSound(vs, rest, fold, first);
      RulesOfSound(vs, rest, fold, v);
      assert IsActive(vs, first);
      AppendDisjoint(vs[first].rules, RulesOf(vs, rest), fold);
      if IsActive(vs, v) && v !in order {
        NoClashWithBoth(vs[v].rules, vs[first].rules, RulesOf(vs, rest), fold);
      }
    }
  }

  lemma NoClashWithBoth(a: seq<Rule>, b: seq<Rule>, c: seq<Rule>, fold: Fold)
    requires !Clash(a, b, fold) && !Clash(a, c, fold)
    ensures !Clash(a, b + c, fold)
  {
  }

  lemma {:induction false} RulesOfTakes(vs: Versions, order: seq<VersionId>, i: nat)
    requires Stored(vs, order) && i < |order|
    ensures Stored(vs, order[..i] + order[i + 1..])
    ensures multiset(RulesOf(vs, order)) ==
            multiset(vs[order[i]].rules) + multiset(RulesOf(vs, order[..i] + order[i + 1..]))
  {
    var rest := order[..i] + order[i + 1..];
    if i == 0 {
      assert rest == order[1..];
    } else {
      var tail := order[1..];
      assert rest == [order[0]] + (tail[..i - 1] + tail[i..]);
      RulesOfTakes(vs, tail, i - 1);
    }
  }

  lemma BothEmpty(order: seq<VersionId>, other: seq<VersionId>)
    requires forall v :: v in order <==> v in other
    ensures order == [] <==> other == []
  {
    if order != [] {
      var first := order[0];
      assert first in order;
    }
    if other != [] {
      var first := other[0];
      assert first in other;
    }
  }

  /** The order of the versions does not change which rules are listed. */
  lemma {:induction false} RulesOfPermutes(vs: Versions, order: seq<VersionId>, other: seq<VersionId>)
    requires Stored(vs, order) && Stored(vs, other) && (forall v :: v in order <==> v in other)
    requires forall i, j :: 0 <= i < j < |order| ==> order[i] != order[j]
    requires forall i, j :: 0 <= i < j < |other| ==> other[i] != other[j]
    ensures multiset(RulesOf(vs, order)) == multiset(RulesOf(vs, other))
    decreases |order|
  {
    if order == [] {
      BothEmpty(order, other);
    } else {
      var first := order[0];
      assert first in order && first in other;
      var i :| 0 <= i < |other| && other[i] == first;
      var rest := other[..i] + other[i + 1..];
      forall v
        ensures v in order[1..] <==> v in rest
      {
        if v in rest {
          assert v in other && v != other[i];
        }
        if v in order[1..] {
          assert v in order && v in other;
          var k :| 0 <= k < |other| && other[k] == v;
          assert k != i;
          assert k < i ==> rest[k] == v;
          assert k > i ==> rest[k - 1] == v;
        }
      }
      RulesOfPermutes(vs, order[1..], rest);
      RulesOfTakes(vs, other, i);
    }
  }

  /** Whatever order the rows come in, the same rule is selected and none is refused as ambiguous. */
  lemma ActiveSelection(vs: Versions, rules: seq<Rule>, other: seq<Rule>, store: StoreId, item: Item, fold: Fold)
    requires VersionsOk(vs, fold) && ActiveRules(vs, rules) && ActiveRules(vs, other)
    ensures SelectRule(rules, store, item, fold).Ok?
    ensures SelectRule(rules, store, item, fold) == SelectRule(other, store, item, fold)
  {
    var o :| ActiveOrder(vs, o) && Stored(vs, o) && multiset(rules) == multiset(RulesOf(vs, o));
    var p :| ActiveOrder(vs, p) && Stored(vs, p) && multiset(other) == multiset(RulesOf(vs, p));
    forall v
      ensures v in o <==> v in p
    {
      assert v in o <==> IsActive(vs, v);
      assert v in p <==> IsActive(vs, v);
    }
    RulesOfPermutes(vs, o, p);
    RulesOfSound(vs, o, fold, 0);
    DisjointNeverAmbiguous(RulesOf(vs, o), store, item, fold);
    SelectionIgnoresOrder(rules, RulesOf(vs, o), store, item, fold);
    SelectionIgnoresOrder(other, RulesOf(vs, o), store, item, fold);
  }

  // ----- Runs -----

  datatype PolicyStep =
    | Create(id: VersionId, policy: PolicyId, rules: seq<Rule>, registry: Registry)
    | Patch(id: VersionId, rules: seq<Rule>, registry: Registry)
    | Clone(policy: PolicyId, source: VersionId, number: nat, id: VersionId)
    | Activate(id: VersionId, registry: Registry)

  ghost function After(vs: Versions, r: Result<Versions, PolicyError>): Versions {
    if r.Ok? then r.value else vs
  }

  /** New versions get ids that were never used. */
  ghost function RunStep(vs: Versions, step: PolicyStep, fold: Fold): Versions {
    match step
    case Create(id, policy, rules, reg) =>
      if id in vs then vs else After(vs, CreatePolicy(vs, id, policy, rules, reg, fold))
    case Patch(id, rules, reg) => After(vs, PatchVersion(vs, id, rules, reg, fold))
    case Clone(policy, source, number, id) =>
      if id !in vs && CloneSource(vs, policy, source) && LatestNumber(vs, policy, number) then
        After(vs, ClonePolicy(vs, policy, source, number, id))
      else vs
    case Activate(id, reg) => After(vs, ActivateVersion(vs, id, reg, fold))
  }

  ghost function Run(vs: Versions, steps: seq<PolicyStep>, fold: Fold): Versions
    decreases |steps|
  {
    if steps == [] then vs else Run(RunStep(vs, steps[0], fold), steps[1..], fold)
  }

  lemma StepKeeps(vs: Versions, step: PolicyStep, fold: Fold)
    requires VersionsOk(vs, fold)
    ensures VersionsOk(RunStep(vs, step, fold), fold)
  {
    match step
    case Create(id, policy, rules, reg) =>
      if id !in vs && RulesProblem(rules, reg, fold).None? {
        DraftKeeps(vs, id, Version(policy, 1, Draft, rules), fold);
      }
    case Patch(id, rules, reg) =>
      if PatchVersion(vs, id, rules, reg, fold).Ok? {
        DraftKeeps(vs, id, vs[id].(rules := rules), fold);
      }
    case Clone(policy, source, number, id) =>
      if id !in vs && CloneSource(vs, policy, source) {
        DraftKeeps(vs, id, Version(policy, number + 1, Draft, vs[source].rules), fold);
      }
    case Activate(id, reg) =>
      if ActivateVersion(vs, id, reg, fold).Ok? {
        ActivateKeeps(vs, id, reg, fold);
      }
  }

  lemma {:induction false} RunKeeps(vs: Versions, steps: seq<PolicyStep>, fold: Fold)
    requires VersionsOk(vs, fold)
    ensures VersionsOk(Run(vs, steps, fold), fold)
    decreases |steps|
  {
    if steps != [] {
      StepKeeps(vs, steps[0], fold);
      RunKeeps(RunStep(vs, steps[0], fold), steps[1..], fold);
    }
  }

  /** In every run selection never refuses and does not depend on the order of the rules. */
  lemma ReachableSelection(
    steps: seq<PolicyStep>, rules: seq<Rule>, other: seq<Rule>, store: StoreId, item: Item, fold: Fold)
    requires ActiveRules(Run(map[], steps, fold), rules) && ActiveRules(Run(map[], steps, fold), other)
    ensures SelectRule(rules, store, item, fold).Ok?
    ensures SelectRule(rules, store, item, fold) == SelectRule(other, store, item, fold)
  {
    RunKeeps(map[], steps, fold);
    ActiveSelection(Run(map[], steps, fold), rules, other, store, item, fold);
  }

  /** A version that left DRAFT never changes its rules again, and a retired one stays retired. */
  ghost predicate Frozen(v: Version, w: Version) {
    && w.policy == v.policy && w.number == v.number
    && (v.status != Draft ==> w.rules == v.rules && w.status != Draft)
    && (v.status == Retired ==> w == v)
  }

  lemma {:induction false} VersionsFreeze(vs: Versions, steps: seq<PolicyStep>, fold: Fold, id: VersionId)
    requires id in vs
    ensures id in Run(vs, steps, fold) && Frozen(vs[id], Run(vs, steps, fold)[id])
    decreases |steps|
  {
    if steps != [] {
      var next := RunStep(vs, steps[0], fold);
      assert id in next && Frozen(vs[id], next[id]);
      VersionsFreeze(next, steps[1..], fold, id);
    }
  }

  // ----- The tables as the service updates them -----

  class PolicyStore {
    var versions: Versions

    constructor ()
      ensures versions == map[]
    {
      versions := map[];
    }

    method FindUnknown(rules: seq<Rule>, known: Rule -> bool) returns (found: bool)
      ensures found <==> Unknown(rules, known)
    {
      for i := 0 to |rules|
        invariant forall j :: 0 <= j < i ==> known(rules[j])
      {
        if !known(rules[i]) {
          assert rules[i] in rules;
          return true;
        }
      }
      return false;
    }

    method CheckRules(rules: seq<Rule>, reg: Registry, fold: Fold) returns (error: Option<PolicyError>)
      ensures error == RulesProblem(rules, reg, fold)
    {
      var illFormed := FindUnknown(rules, WellFormed);
      if illFormed {
        return Some(InvalidRule);
      }
      var overlap := FirstOverlap(rules, fold);
      if overlap.Some? {
        return Some(PolicyRuleOverlap);
      }
      var store := FindUnknown(rules, StoreKnown(reg));
      if store {
        return Some(InvalidStore);
      }
      var sku := FindUnknown(rules, SkuKnown(reg, fold));
      if sku {
        return Some(InvalidSku);
      }
      var style := FindUnknown(rules, StyleKnown(reg, fold));
      if style {
        return Some(InvalidStyle);
      }
      var category := FindUnknown(rules, CategoryKnown(reg, fold));
      return if category then Some(InvalidCategory) else None;
    }

    method Patch(id: VersionId, rules: seq<Rule>, reg: Registry, fold: Fold) returns (error: Option<PolicyError>)
      modifies this
      ensures
        match PatchVersion(old(versions), id, rules, reg, fold)
        case Ok(next) => error.None? && versions == next
        case Err(e) => error == Some(e) && versions == old(versions)
    {
      if id !in versions {
        return Some(VersionNotFound);
      }
      if versions[id].status != Draft {
        return Some(VersionImmutable);
      }
      error := CheckRules(rules, reg, fold);
      if error.None? {
        versions := versions[id := versions[id].(rules := rules)];
      }
    }

    method FindClash(draft: seq<Rule>, active: seq<Rule>, fold: Fold) returns (found: bool)
      ensures found <==> Clash(draft, active, fold)
    {
      for i := 0 to |draft|
        invariant forall a, b {:trigger draft[a], active[b]} :: 0 <= a < i && 0 <= b < |active| ==>
                  !Overlap(draft[a], active[b], fold)
      {
        for j := 0 to |active|
          invariant forall b {:trigger active[b]} :: 0 <= b < j ==> !Overlap(draft[i], active[b], fold)
        {
          if Overlap(draft[i], active[j], fold) {
            return true;
          }
        }
      }
      return false;
    }

    /** Compare the draft with every active version of the other policies. */
    method FindActiveClash(id: VersionId, fold: Fold) returns (found: bool)
      requires id in versions
      ensures found <==> ClashesWithActive(versions, id, fold)
    {
      var done: set<VersionId> := {};
      while done != versions.Keys
        invariant done <= versions.Keys
        invariant forall w :: w in done && IsActive(versions, w) && versions[w].policy != versions[id].policy ==>
                    !Clash(versions[id].rules, versions[w].rules, fold)
        decreases versions.Keys - done
      {
        SomeRemain(versions.Keys, done);
        var w := Pick(versions.Keys - done);
        if versions[w].status == Active && versions[w].policy != versions[id].policy {
          var clash := FindClash(versions[id].rules, versions[w].rules, fold);
          if clash {
            assert IsActive(versions, w);
            return true;
          }
        }
        done := done + {w};
      }
      return false;
    }

    method Activate(id: VersionId, reg: Registry, fold: Fold) returns (error: Option<PolicyError>)
      modifies this
      ensures
        match ActivateVersion(old(versions), id, reg, fold)
        case Ok(next) => error.None? && versions == next
        case Err(e) => error == Some(e) && versions == old(versions)
    {
      if id !in versions {
        return Some(VersionNotFound);
      }
      if versions[id].status == Active {
        return None;
      }
      if versions[id].status != Draft {
        return Some(VersionRetired);
      }
      if versions[id].rules == [] {
        return Some(EmptyPolicy);
      }
      error := CheckRules(versions[id].rules, reg, fold);
      if error.Some? {
        return;
      }
      var clash := FindActiveClash(id, fold);
      if clash {
        return Some(ActivePolicyOverlap);
      }
      versions := Switched(versions, id);
      return None;
    }
  }
}
