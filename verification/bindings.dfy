/** Effective-dated bindings of one EPC to stock keeping units, and how a time resolves. */
module Bindings {
  import opened Basics
  import opened Observations

  datatype Binding = Binding(sku: SkuId, from: Time, to: Option<Time>)

  predicate ActiveAt(b: Binding, t: Time) {
    b.from <= t && (b.to.None? || t < b.to.value)
  }

  predicate OpenSince(b: Binding, now: Time) {
    b.from <= now && b.to.None?
  }

  /** Of the bindings that qualify, one with the latest start. */
  function Latest(bindings: seq<Binding>, qualifies: Binding -> bool): (r: Option<Binding>)
    ensures r.Some? ==> r.value in bindings && qualifies(r.value)
    ensures r.Some? ==> forall b :: b in bindings && qualifies(b) ==> b.from <= r.value.from
    ensures r.None? ==> forall b :: b in bindings ==> !qualifies(b)
  {
    if bindings == [] then None
    else
      var rest := Latest(bindings[1..], qualifies);
      assert forall b :: b in bindings ==> b == bindings[0] || b in bindings[1..];
      if qualifies(bindings[0]) && (rest.None? || rest.value.from <= bindings[0].from) then Some(bindings[0]) else rest
  }

  /** The mapping effective when a physical read happened. */
  function Resolve(bindings: seq<Binding>, observedAt: Time): Option<Binding> {
    Latest(bindings, (b: Binding) => ActiveAt(b, observedAt))
  }

  /** The mapping that is open now, whatever the time of the read. */
  function ResolveOpen(bindings: seq<Binding>, now: Time): Option<Binding> {
    Latest(bindings, (b: Binding) => OpenSince(b, now))
  }
}
