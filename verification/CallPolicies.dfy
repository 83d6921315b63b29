/** Limits around a call: they narrow the model policy for the call only. */
module CallPolicies {
  import opened Continuations

  datatype Callee = Base(id: nat) | Limited(callee: Callee, limits: seq<nat>)

  /** Applying one limit to a policy; `None` is a limit that does not fit. */
  type Limits = (nat, nat) -> Option<nat>

  function ApplyAll(apply: Limits, policy: nat, limits: seq<nat>): Option<nat>
    decreases |limits|
  {
    if limits == [] then Some(policy)
    else
      var next := apply(limits[0], policy);
      if next.None? then None else ApplyAll(apply, next.value, limits[1..])
  }

  /** All the limits around the innermost callee, outermost first. */
  function AllLimits(callee: Callee): seq<nat> {
    if callee.Base? then [] else callee.limits + AllLimits(callee.callee)
  }

  function Innermost(callee: Callee): nat {
    if callee.Base? then callee.id else Innermost(callee.callee)
  }

  lemma {:induction false} ApplyConcat(apply: Limits, policy: nat, outer: seq<nat>, inner: seq<nat>)
    ensures ApplyAll(apply, policy, outer + inner)
         == var mid := ApplyAll(apply, policy, outer); if mid.None? then None else ApplyAll(apply, mid.value, inner)
    decreases |outer|
  {
    if outer == [] {
      assert outer + inner == inner;
    } else {
      var next := apply(outer[0], policy);
      assert (outer + inner)[1..] == outer[1..] + inner;
      if next.Some? {
        ApplyConcat(apply, next.value, outer[1..], inner);
      }
    }
  }

  // ------------------------------------------------ which limits, in which order

  /** A callee inside layers of limits, the outermost layer first. */
  function Wrap(id: nat, layers: seq<seq<nat>>): Callee
    decreases |layers|
  {
    if layers == [] then Base(id) else Limited(Wrap(id, layers[1..]), layers[0])
  }

  function Flat(layers: seq<seq<nat>>): seq<nat>
    decreases |layers|
  {
    if layers == [] then [] else layers[0] + Flat(layers[1..])
  }

  lemma {:induction false} WrapExactly(id: nat, layers: seq<seq<nat>>)
    ensures AllLimits(Wrap(id, layers)) == Flat(layers) && Innermost(Wrap(id, layers)) == id
    decreases |layers|
  {
    if layers != [] {
      WrapExactly(id, layers[1..]);
    }
  }

  /** Each limit is applied once, in order, to the policy the one before it left. */
  ghost predicate Trail(apply: Limits, limits: seq<nat>, policies: seq<nat>) {
    |policies| == |limits| + 1 && forall i | 0 <= i < |limits| :: apply(limits[i], policies[i]) == Some(policies[i + 1])
  }

  lemma {:induction false} ApplyAllExactly(apply: Limits, policy: nat, limits: seq<nat>)
    ensures forall policies | Trail(apply, limits, policies) && policies[0] == policy ::
              ApplyAll(apply, policy, limits) == Some(policies[|limits|])
    ensures ApplyAll(apply, policy, limits).Some? ==> exists policies :: Trail(apply, limits, policies) && policies[0] == policy
    decreases |limits|
  {
    if limits == [] {
      assert Trail(apply, limits, [policy]);
    } else {
      var next, rest := apply(limits[0], policy), limits[1..];
      if next.Some? {
        ApplyAllExactly(apply, next.value, rest);
      }
      forall policies | Trail(apply, limits, policies) && policies[0] == policy
        ensures ApplyAll(apply, policy, limits) == Some(policies[|limits|])
      {
        assert next == Some(policies[1]);
        assert forall i | 0 <= i < |rest| :: rest[i] == limits[i + 1] && policies[1..][i + 1] == policies[i + 2];
        assert Trail(apply, rest, policies[1..]) && policies[1..][0] == next.value;
      }
      if ApplyAll(apply, policy, limits).Some? {
        var policies :| Trail(apply, rest, policies) && policies[0] == next.value;
        assert Trail(apply, limits, [policy] + policies);
      }
    }
  }

  /** Layered limits are applied outermost first, every limit of every layer once; they fit
      exactly when each fits the policy the ones before it left. */
  lemma LayersInOrder(apply: Limits, policy: nat, id: nat, layers: seq<seq<nat>>)
    ensures var r := ApplyAll(apply, policy, AllLimits(Wrap(id, layers)));
            && (forall policies | Trail(apply, Flat(layers), policies) && policies[0] == policy :: r == Some(policies[|Flat(layers)|]))
            && (r.Some? ==> exists policies :: Trail(apply, Flat(layers), policies) && policies[0] == policy)
  {
    WrapExactly(id, layers);
    ApplyAllExactly(apply, policy, Flat(layers));
  }

  class CallTask {
    var modelPolicy: nat

    constructor (policy: nat)
      ensures modelPolicy == policy
    {
      modelPolicy := policy;
    }

    /** Peels the limits off a callee. Nested limits act as one list, and a limit that does
        not fit leaves the task as it was. */
    method PrepareCallTarget(apply: Limits, callee: Callee, continuation: Cont) returns (r: Option<(nat, Cont)>)
      modifies this
      ensures r.Some? <==> ApplyAll(apply, old(modelPolicy), AllLimits(callee)).Some?
      ensures r.Some? ==> r.value.0 == Innermost(callee)
                          && modelPolicy == ApplyAll(apply, old(modelPolicy), AllLimits(callee)).value
                          && r.value.1 == if callee.Base? then continuation else RestorePolicy(old(modelPolicy), continuation)
      ensures r.None? ==> modelPolicy == old(modelPolicy)
      ensures r.Some? <==> exists policies :: Trail(apply, AllLimits(callee), policies) && policies[0] == old(modelPolicy)
      ensures forall policies | Trail(apply, AllLimits(callee), policies) && policies[0] == old(modelPolicy) ::
                r.Some? && modelPolicy == policies[|AllLimits(callee)|]
    {
      ApplyAllExactly(apply, modelPolicy, AllLimits(callee));
      var policy, target, hasLimits := modelPolicy, callee, false;
      while target.Limited?
        invariant modelPolicy == old(modelPolicy) && Innermost(target) == Innermost(callee)
        invariant hasLimits || target == callee
        invariant hasLimits ==> callee.Limited?
        invariant !hasLimits ==> policy == modelPolicy
        invariant ApplyAll(apply, modelPolicy, AllLimits(callee)) == ApplyAll(apply, policy, AllLimits(target))
        decreases target
      {
        ApplyConcat(apply, policy, target.limits, AllLimits(target.callee));
        var i := 0;
        ghost var start := policy;
        while i < |target.limits|
          invariant 0 <= i <= |target.limits|
          invariant ApplyAll(apply, start, target.limits) == ApplyAll(apply, policy, target.limits[i..])
        {
          assert target.limits[i..][1..] == target.limits[i + 1..];
          var next := apply(target.limits[i], policy);
          if next.None? {
            return None;
          }
          policy, i := next.value, i + 1;
        }
        assert target.limits[i..] == [];
        hasLimits, target := true, target.callee;
      }
      var result := continuation;
      if hasLimits {
        result := RestorePolicy(modelPolicy, continuation);
        modelPolicy := policy;
      }
      return Some((target.id, result));
    }
  }
}
