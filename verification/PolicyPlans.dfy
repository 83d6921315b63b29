/** Plans: which frames a state still has to run, and under which model policy a value will
    enter each. Restorations act in between, so throwing one away shows here. */
module PolicyPlans {
  import opened Continuations
  import opened HandlerMachine
  import opened HandlerMirror
  import opened PerformLoop

  // ------------------------------------------- what the frames still restore

  function OrElse(first: Option<nat>, second: Option<nat>): Option<nat> {
    if first.Some? then first else second
  }

  function After(target: Option<nat>, policy: nat): nat {
    if target.Some? then target.value else policy
  }

  /** The policy a continuation leaves behind it: its outermost restoration. A scoped policy
      gives back the one it found. */
  function Target(k: Cont): Option<nat> {
    match k
    case Chain(inner, outer) => OrElse(Target(outer), Target(inner))
    case RestorePolicy(policy, inner) => OrElse(Target(inner), Some(policy))
    case Boundary(_, inner, _) => Target(inner)
    case Reenter(boundary) => Target(boundary)
    case Dispatch(outer) => Target(outer)
    case CallBoundary(outer) => Target(outer)
    case _ => None
  }

  function TargetIn(frames: seq<Cont>): Option<nat> {
    if frames == [] then None else OrElse(TargetIn(frames[1..]), Target(frames[0]))
  }

  lemma {:induction false} TargetConcat(left: seq<Cont>, right: seq<Cont>)
    ensures TargetIn(left + right) == OrElse(TargetIn(right), TargetIn(left))
    decreases |left|
  {
    hide Target;
    if left == [] {
      assert left + right == right;
    } else {
      assert (left + right)[1..] == left[1..] + right;
      TargetConcat(left[1..], right);
    }
  }

  lemma {:induction false} TargetLeaves(k: Cont)
    ensures TargetIn(Leaves(k)) == Target(k)
  {
    match k
    case Chain(inner, outer) =>
      TargetLeaves(inner);
      TargetLeaves(outer);
      TargetConcat(Leaves(inner), Leaves(outer));
    case BlockValue =>
    case _ => assert [k][1..] == [];
  }

  lemma TargetOne(k: Cont)
    ensures TargetIn([k]) == Target(k)
  {
    assert [k][1..] == [];
  }

  lemma TargetCompose(inner: Cont, outer: Cont)
    ensures Target(Compose(inner, outer)) == OrElse(Target(outer), Target(inner))
  {
  }

  lemma TargetFront(k: Cont, rest: seq<Cont>)
    ensures TargetIn(Leaves(k) + rest) == OrElse(TargetIn(rest), Target(k))
  {
    TargetLeaves(k);
    TargetConcat(Leaves(k), rest);
  }

  // ------------------------------------------------- who runs under which policy

  /** A frame and the policy it will be entered under. */
  type Entry = (Cont, nat)

  /** The frames of a continuation in the order a value runs them, entered under `policy`.
      Restorations act in between; wrappers and boundaries only lead to what is inside. */
  function Schedule(k: Cont, policy: nat): seq<Entry> {
    match k
    case BlockValue => []
    case Chain(inner, outer) => Schedule(inner, policy) + Schedule(outer, After(Target(inner), policy))
    case RestorePolicy(restored, inner) => Schedule(inner, restored)
    case ScopedPolicy(scoped, inner) => Schedule(inner, scoped)
    case Boundary(_, inner, _) => Schedule(inner, policy)
    case Reenter(boundary) => Schedule(boundary, policy)
    case Dispatch(outer) => Schedule(outer, policy)
    case CallBoundary(outer) => Schedule(outer, policy)
    case _ => [(k, policy)]
  }

  function Entries(frames: seq<Cont>, policy: nat): seq<Entry> {
    if frames == [] then []
    else Schedule(frames[0], policy) + Entries(frames[1..], After(Target(frames[0]), policy))
  }

  /** All that will run, and last the policy in force when it has. */
  function PlanOf(frames: seq<Cont>, policy: nat): seq<Entry> {
    Entries(frames, policy) + [(BlockValue, After(TargetIn(frames), policy))]
  }

  function Plan(m: Machine): seq<Entry> {
    PlanOf(Frames(m), m.flow.policy)
  }

  /** A continuation in front of other frames. */
  function PlanBefore(k: Cont, rest: seq<Cont>, policy: nat): seq<Entry> {
    Schedule(k, policy) + PlanOf(rest, After(Target(k), policy))
  }

  predicate EndsWith(whole: seq<Entry>, tail: seq<Entry>) {
    |tail| <= |whole| && whole[|whole| - |tail|..] == tail
  }

  lemma Joined(a: seq<Entry>, b: seq<Entry>, c: seq<Entry>)
    ensures a + (b + c) == a + b + c
  {
  }

  lemma EndsBehind(front: seq<Entry>, whole: seq<Entry>, tail: seq<Entry>)
    requires EndsWith(whole, tail)
    ensures EndsWith(front + whole, tail)
  {
  }

  lemma {:induction false} EntriesConcat(left: seq<Cont>, right: seq<Cont>, policy: nat)
    ensures Entries(left + right, policy) == Entries(left, policy) + Entries(right, After(TargetIn(left), policy))
    decreases |left|
  {
    hide Schedule, Target;
    if left == [] {
      assert left + right == right;
    } else {
      var both := left + right;
      var next := After(Target(left[0]), policy);
      assert both[1..] == left[1..] + right && both[0] == left[0];
      EntriesConcat(left[1..], right, next);
      Joined(Schedule(left[0], policy), Entries(left[1..], next), Entries(right, After(TargetIn(left[1..]), next)));
    }
  }

  lemma PlanConcat(left: seq<Cont>, right: seq<Cont>, policy: nat)
    ensures PlanOf(left + right, policy) == Entries(left, policy) + PlanOf(right, After(TargetIn(left), policy))
  {
    hide Entries, TargetIn;
    EntriesConcat(left, right, policy);
    TargetConcat(left, right);
  }

  lemma EntriesOne(k: Cont, policy: nat)
    ensures Entries([k], policy) == Schedule(k, policy)
  {
    assert [k][1..] == [];
  }

  lemma {:induction false} EntriesLeaves(k: Cont, policy: nat)
    ensures Entries(Leaves(k), policy) == Schedule(k, policy)
  {
    match k
    case Chain(inner, outer) =>
      EntriesLeaves(inner, policy);
      EntriesLeaves(outer, After(Target(inner), policy));
      TargetLeaves(inner);
      EntriesConcat(Leaves(inner), Leaves(outer), policy);
    case BlockValue =>
    case _ => EntriesOne(k, policy);
  }

  lemma PlanFront(k: Cont, rest: seq<Cont>, policy: nat)
    ensures PlanOf(Leaves(k) + rest, policy) == PlanBefore(k, rest, policy)
    ensures EndsWith(PlanOf(Leaves(k) + rest, policy), PlanOf(rest, After(Target(k), policy)))
  {
    hide Entries, Leaves, Schedule, TargetIn;
    EntriesLeaves(k, policy);
    TargetLeaves(k);
    PlanConcat(Leaves(k), rest, policy);
  }

  lemma ScheduleChained(inner: Cont, outer: Cont, policy: nat)
    ensures Schedule(Chain(inner, outer), policy) == Schedule(inner, policy) + Schedule(outer, After(Target(inner), policy))
  {
    hide Target, After;
  }

  lemma ScheduleNone(policy: nat)
    ensures Schedule(BlockValue, policy) == [] && Target(BlockValue).None?
  {
  }

  lemma ScheduleCompose(inner: Cont, outer: Cont, policy: nat)
    ensures Schedule(Compose(inner, outer), policy) == Schedule(inner, policy) + Schedule(outer, After(Target(inner), policy))
  {
    hide Schedule, Target;
    ScheduleChained(inner, outer, policy);
    ScheduleNone(policy);
    assert [] + Schedule(outer, policy) == Schedule(outer, policy);
  }

  // ----------------------------------------------- handing a policy to the rest

  /** Some frame of `k` runs under the policy handed over; the others under one of their own. */
  predicate Reads(k: Cont) {
    match k
    case BlockValue => false
    case Chain(inner, outer) => Reads(inner) || (Target(inner).None? && Reads(outer))
    case RestorePolicy(_, _) => false
    case ScopedPolicy(_, _) => false
    case Boundary(_, inner, _) => Reads(inner)
    case Reenter(boundary) => Reads(boundary)
    case Dispatch(outer) => Reads(outer)
    case CallBoundary(outer) => Reads(outer)
    case _ => true
  }

  /** A restoration comes before any frame that would run under the policy handed over, so
      that policy does not matter. */
  predicate FencedIn(frames: seq<Cont>) {
    frames != [] && !Reads(frames[0]) && (Target(frames[0]).Some? || FencedIn(frames[1..]))
  }

  /** The policy handed over reaches the frames that read it and nothing else. */
  lemma {:induction false} ScheduleFrom(k: Cont, a: nat, b: nat)
    ensures |Schedule(k, a)| == |Schedule(k, b)|
    ensures forall i | 0 <= i < |Schedule(k, a)| :: Schedule(k, a)[i].0 == Schedule(k, b)[i].0
    ensures Schedule(k, a) == Schedule(k, b) <==> a == b || !Reads(k)
    decreases k, 1
  {
    match k
    case Chain(inner, outer) => ScheduleChain(k, a, b);
    case RestorePolicy(_, _) =>
    case ScopedPolicy(_, _) =>
    case Boundary(_, inner, _) => ScheduleFrom(inner, a, b);
    case Reenter(boundary) => ScheduleFrom(boundary, a, b);
    case Dispatch(outer) => ScheduleFrom(outer, a, b);
    case CallBoundary(outer) => ScheduleFrom(outer, a, b);
    case _ =>
  }

  lemma {:induction false} ScheduleChain(k: Cont, a: nat, b: nat)
    requires k.Chain?
    ensures |Schedule(k, a)| == |Schedule(k, b)|
    ensures forall i | 0 <= i < |Schedule(k, a)| :: Schedule(k, a)[i].0 == Schedule(k, b)[i].0
    ensures Schedule(k, a) == Schedule(k, b) <==> a == b || !Reads(k)
    decreases k, 0
  {
    var next, next' := After(Target(k.inner), a), After(Target(k.inner), b);
    ScheduleFrom(k.inner, a, b);
    ScheduleFrom(k.outer, next, next');
    SameParts(Schedule(k.inner, a), Schedule(k.outer, next), Schedule(k.inner, b), Schedule(k.outer, next'));
  }

  lemma SameParts(a: seq<Entry>, b: seq<Entry>, c: seq<Entry>, d: seq<Entry>)
    requires |a| == |c|
    ensures a + b == c + d <==> a == c && b == d
  {
    assert (a + b)[..|a|] == a && (c + d)[..|c|] == c;
    assert (a + b)[|a|..] == b && (c + d)[|c|..] == d;
  }

  lemma {:induction false} PlanFrom(frames: seq<Cont>, a: nat, b: nat)
    ensures |PlanOf(frames, a)| == |PlanOf(frames, b)|
    ensures forall i | 0 <= i < |PlanOf(frames, a)| :: PlanOf(frames, a)[i].0 == PlanOf(frames, b)[i].0
    ensures PlanOf(frames, a) == PlanOf(frames, b) <==> a == b || FencedIn(frames)
    decreases |frames|
  {
    hide Schedule, Reads, Target;
    if frames != [] {
      hide PlanOf;
      var k, rest := frames[0], frames[1..];
      var next, next' := After(Target(k), a), After(Target(k), b);
      ScheduleFrom(k, a, b);
      PlanFrom(rest, next, next');
      PlanStep(frames, a);
      PlanStep(frames, b);
      SameParts(Schedule(k, a), PlanOf(rest, next), Schedule(k, b), PlanOf(rest, next'));
    } else {
      assert PlanOf(frames, a)[0] == (BlockValue, a) && PlanOf(frames, b)[0] == (BlockValue, b);
    }
  }

  lemma PlanStep(frames: seq<Cont>, policy: nat)
    requires frames != []
    ensures PlanOf(frames, policy) == Schedule(frames[0], policy) + PlanOf(frames[1..], After(Target(frames[0]), policy))
  {
    hide Schedule, Target;
  }

  /** Handing over another policy changes the plan unless the rest is fenced off. */
  lemma HandedExactly(frames: seq<Cont>, a: nat, b: nat)
    ensures PlanOf(frames, a) == PlanOf(frames, b) <==> a == b || FencedIn(frames)
  {
    hide PlanOf, FencedIn;
    PlanFrom(frames, a, b);
  }

  /** A restoration wraps what limited calls wrap: code without one of its own. */
  predicate Tame(k: Cont) {
    match k
    case Chain(inner, outer) => Tame(inner) && Tame(outer)
    case RestorePolicy(_, inner) => Target(inner).None? && Quiet(inner) && Tame(inner)
    case ScopedPolicy(_, inner) => Tame(inner)
    case Boundary(_, inner, _) => Tame(inner)
    case Reenter(boundary) => Tame(boundary)
    case Dispatch(outer) => Tame(outer)
    case CallBoundary(outer) => Tame(outer)
    case _ => true
  }

  // ------------------------------------------------------ a travelling perform

  /** A handler that meets a perform: it saves what was collected, either way. */
  lemma HandlerSaves(f: Flow, id: nat, arms: seq<Arm>, policy: nat)
    requires f.signal.Performed?
    ensures var r := ContinueHandle(f, id, arms);
            !r.signal.Fault? ==>
              && r.policy == f.policy && !r.signal.Done? && !r.signal.Uncaught?
              && Target(SignalCont(r.signal)) == Target(f.signal.cont)
              && Schedule(SignalCont(r.signal), policy) == Schedule(f.signal.cont, policy)
              && (Tame(f.signal.cont) ==> Tame(SignalCont(r.signal)))
              && if ScopeMatches(f.signal.request, arms) then !r.signal.Performed?
                 else r.signal.Performed? && r.signal.request == f.signal.request
  {
    hide Occurrences, ScopeMatches;
  }

  /** `k` is `first` followed by `second`, for every purpose here. */
  predicate Follows(k: Cont, first: Cont, second: Cont, policy: nat) {
    && Target(k) == OrElse(Target(second), Target(first))
    && Schedule(k, policy) == Schedule(first, policy) + Schedule(second, After(Target(first), policy))
    && (Tame(first) && Tame(second) ==> Tame(k))
  }

  lemma ComposeFollows(inner: Cont, outer: Cont, policy: nat)
    ensures Follows(Compose(inner, outer), inner, outer, policy)
  {
    hide Schedule;
    ScheduleCompose(inner, outer, policy);
    TargetCompose(inner, outer);
  }

  /** A signal that is not a perform takes the next frame along. */
  lemma ChainTakes(signal: Signal, outer: Cont, policy: nat)
    requires !signal.Performed? && !signal.Done? && !signal.Uncaught?
    ensures var r := ContinueChain(signal, outer);
            && !r.Performed? && !r.Done? && !r.Uncaught?
            && (r.Fault? || Follows(SignalCont(r), SignalCont(signal), outer, policy))
  {
    hide Follows;
    ComposeFollows(SignalCont(signal), outer, policy);
    ComposeFollows(BlockValue, outer, policy);
  }

  /** What is collected keeps its restorations, and no policy is touched. */
  lemma CalmLeaf(f: Flow, leaf: Cont, policy: nat)
    requires !Raising(f.signal) && !f.signal.Done? && !f.signal.Uncaught?
    requires leaf.Boundary? ==> leaf.inner.BlockValue?
    ensures var r := PassLeaf(f, leaf);
            && !Raising(r.signal) && !r.signal.Done? && !r.signal.Uncaught?
            && (r.signal.Fault? || (r.policy == f.policy && Follows(SignalCont(r.signal), SignalCont(f.signal), leaf, policy)))
  {
    hide ContinueHandle, ContinueChain, Compose;
    if !f.signal.Performed? {
      ChainTakes(f.signal, leaf, policy);
    } else {
      ComposeFollows(f.signal.cont, leaf, policy);
      if leaf.Boundary? {
        HandlerSaves(f, leaf.id, leaf.arms, policy);
        var next := After(Target(f.signal.cont), policy);
        assert Schedule(leaf, next) == Schedule(BlockValue, next) == [] && Target(leaf) == Target(BlockValue);
        assert Schedule(f.signal.cont, policy) + [] == Schedule(f.signal.cont, policy);
      }
    }
  }

  predicate BareBoundaries(frames: seq<Cont>) {
    forall leaf <- frames :: leaf.Boundary? ==> leaf.inner.BlockValue?
  }

  predicate TameIn(frames: seq<Cont>) {
    forall i | 0 <= i < |frames| :: Tame(frames[i])
  }

  lemma {:induction false} CalmPass(f: Flow, frames: seq<Cont>, policy: nat)
    requires !Raising(f.signal) && !f.signal.Done? && !f.signal.Uncaught? && BareBoundaries(frames)
    ensures var r, k := PassAll(f, frames), SignalCont(f.signal);
            r.signal.Fault? ||
            (&& r.policy == f.policy
             && Target(SignalCont(r.signal)) == OrElse(TargetIn(frames), Target(k))
             && Schedule(SignalCont(r.signal), policy) == Schedule(k, policy) + Entries(frames, After(Target(k), policy))
             && (Tame(k) && TameIn(frames) ==> Tame(SignalCont(r.signal))))
    decreases |frames|
  {
    hide PassLeaf, Target, Schedule, Tame;
    if frames != [] {
      CalmLeaf(f, frames[0], policy);
      var next := PassLeaf(f, frames[0]);
      if next.signal.Fault? {
        FaultPasses(next, frames[1..]);
      } else {
        CalmPass(next, frames[1..], policy);
        var start := After(Target(SignalCont(f.signal)), policy);
        Joined(Schedule(SignalCont(f.signal), policy), Schedule(frames[0], start),
               Entries(frames[1..], After(Target(frames[0]), start)));
      }
    }
  }

  lemma {:induction false} MetBare(k: Cont, request: Request, raising: bool)
    requires Tame(k)
    ensures BareBoundaries(Met(k, request, raising).frames) && TameIn(Met(k, request, raising).frames)
  {
    match k
    case Chain(inner, outer) =>
      MetBare(inner, request, raising);
      MetBare(outer, request, Met(inner, request, raising).raising);
    case Boundary(_, inner, _) => MetBare(inner, request, raising);
    case RestorePolicy(_, inner) =>
      if raising && !inner.BlockValue? {
        MetBare(inner, request, raising);
      }
    case _ =>
  }

  /** The frames an action meets are the continuation's own. */
  lemma {:induction false} MetPlans(k: Cont, request: Request, policy: nat)
    ensures var frames := Met(k, request, false).frames;
            TargetIn(frames) == Target(k) && Entries(frames, policy) == Schedule(k, policy)
  {
    match k
    case Chain(inner, outer) =>
      MetPlans(inner, request, policy);
      MetPlans(outer, request, After(Target(inner), policy));
      ActionMeets(inner, request);
      MetConcat(Met(inner, request, false).frames, Met(outer, request, false).frames, policy);
    case Boundary(id, inner, arms) =>
      var inside := if inner.BlockValue? then [] else Met(inner, request, false).frames;
      var bare := Boundary(id, BlockValue, arms);
      MetPlans(inner, request, policy);
      ActionMeets(inner, request);
      MetConcat(inside, [bare], policy);
      TargetOne(bare);
      EntriesOne(bare, After(TargetIn(inside), policy));
      assert Met(k, request, false).frames == inside + [bare];
    case _ =>
      TargetOne(k);
      EntriesOne(k, policy);
  }

  lemma MetConcat(left: seq<Cont>, right: seq<Cont>, policy: nat)
    ensures TargetIn(left + right) == OrElse(TargetIn(right), TargetIn(left))
    ensures Entries(left + right, policy) == Entries(left, policy) + Entries(right, After(TargetIn(left), policy))
  {
    TargetConcat(left, right);
    EntriesConcat(left, right, policy);
  }

  // ------------------------------------------------------- a typed error

  /** The frame at which a typed error ends. */
  predicate Ends(leaf: Cont, request: Request) {
    (leaf.TryExpr? && Captures(leaf.captured, request)) || (leaf.Boundary? && ScopeMatches(request, leaf.arms))
  }

  /** The frames met before the error ends. */
  function Crossed(frames: seq<Cont>, request: Request): seq<Cont> {
    if frames == [] || Ends(frames[0], request) then [] else [frames[0]] + Crossed(frames[1..], request)
  }

  /** The frames left to run once it has. */
  function Behind(frames: seq<Cont>, request: Request): seq<Cont> {
    if frames == [] then [] else if Ends(frames[0], request) then frames[1..] else Behind(frames[1..], request)
  }

  predicate Ended(frames: seq<Cont>, request: Request) {
    frames != [] && (Ends(frames[0], request) || Ended(frames[1..], request))
  }

  /** A `try` ends it, which drops what the error carries; a handler saves that. */
  predicate Captured(frames: seq<Cont>, request: Request) {
    frames != [] && if Ends(frames[0], request) then frames[0].TryExpr? else Captured(frames[1..], request)
  }

  /** The outermost restoration saved inside a frame the error crosses and carries along. */
  function Carried(frames: seq<Cont>): Option<nat> {
    if frames == [] then None
    else OrElse(Carried(frames[1..]), if frames[0].RestorePolicy? then None else Target(frames[0]))
  }

  /** The policy in force after crossing: each restoration met acts at once. */
  function Restored(frames: seq<Cont>, policy: nat): nat {
    if frames == [] then policy
    else Restored(frames[1..], if frames[0].RestorePolicy? then frames[0].policy else policy)
  }

  /** The outermost restoration crossed is one that acts at once. */
  predicate ActsLast(frames: seq<Cont>) {
    frames != [] && if TargetIn(frames[1..]).Some? then ActsLast(frames[1..]) else frames[0].RestorePolicy?
  }

  predicate BareRestores(frames: seq<Cont>) {
    forall i | 0 <= i < |frames| :: frames[i].RestorePolicy? ==> frames[i].inner.BlockValue?
  }

  lemma {:induction false} CrossedTarget(crossed: seq<Cont>, policy: nat)
    requires BareRestores(crossed)
    ensures After(TargetIn(crossed), policy)
         == if ActsLast(crossed) then Restored(crossed, policy) else After(Carried(crossed), policy)
    ensures ActsLast(crossed) ==> TargetIn(crossed).Some?
    ensures !ActsLast(crossed) ==> TargetIn(crossed) == Carried(crossed)
    ensures TargetIn(crossed).None? ==> Restored(crossed, policy) == policy && Carried(crossed).None?
    ensures Carried(crossed).Some? ==> TargetIn(crossed).Some?
    ensures Carried(crossed).None? ==> After(TargetIn(crossed), policy) == Restored(crossed, policy)
    decreases |crossed|
  {
    if crossed != [] {
      var policy' := if crossed[0].RestorePolicy? then crossed[0].policy else policy;
      CrossedTarget(crossed[1..], policy');
      assert crossed[0].RestorePolicy? ==> crossed[0].inner.BlockValue? && Target(crossed[0]) == Some(crossed[0].policy);
    }
  }

  /** Where a typed error ends the frames behind get the policy they are due exactly when it
      carries no restoration, or one equal to the policy in force, or the outermost
      restoration crossed is one that acted and a `try` dropped the others, or is one that
      is carried and a handler saved it. */
  lemma CrossedExactly(crossed: seq<Cont>, captured: bool, policy: nat)
    requires BareRestores(crossed)
    ensures var (carried, now) := (Carried(crossed), Restored(crossed, policy));
            After(TargetIn(crossed), policy) == (if captured then now else After(carried, now))
            <==> carried.None? || carried.value == now || captured == ActsLast(crossed)
  {
    CrossedTarget(crossed, policy);
  }

  /** What a typed error leaves to the frames behind it, `carried` being what it carries. */
  function Gives(frames: seq<Cont>, request: Request, carried: Option<nat>, policy: nat): nat {
    if frames == [] then After(carried, policy)
    else
      var leaf, rest := frames[0], frames[1..];
      if leaf.RestorePolicy? then Gives(rest, request, carried, leaf.policy)
      else if Ends(leaf, request) then After(if leaf.TryExpr? then None else carried, policy)
      else Gives(rest, request, OrElse(Target(leaf), carried), policy)
  }

  lemma {:induction false} GivesMeans(frames: seq<Cont>, request: Request, carried: Option<nat>, policy: nat)
    ensures var crossed := Crossed(frames, request);
            Gives(frames, request, carried, policy)
            == var now := Restored(crossed, policy);
               if Captured(frames, request) then now else After(OrElse(Carried(crossed), carried), now)
    decreases |frames|
  {
    hide Target;
    if frames != [] && !Ends(frames[0], request) {
      var leaf := frames[0];
      var rest := Crossed(frames[1..], request);
      assert Crossed(frames, request)[1..] == rest;
      GivesMeans(frames[1..], request, if leaf.RestorePolicy? then carried else OrElse(Target(leaf), carried),
                 if leaf.RestorePolicy? then leaf.policy else policy);
    }
  }

  lemma RaiseLeaf(f: Flow, leaf: Cont)
    requires Raising(f.signal) && (leaf.Boundary? ==> leaf.inner.BlockValue?)
    ensures var r := PassLeaf(f, leaf);
            var request, carried := f.signal.request, Target(f.signal.cont);
            r.signal.Fault? ||
            if leaf.RestorePolicy? then r == f.(policy := leaf.policy)
            else && r.policy == f.policy && !r.signal.Done? && !r.signal.Uncaught?
                 && (Tame(f.signal.cont) && Tame(leaf) ==> Tame(SignalCont(r.signal)))
                 && (if Ends(leaf, request)
                     then !Raising(r.signal)
                          && Target(SignalCont(r.signal)) == (if leaf.TryExpr? then None else carried)
                     else Raising(r.signal) && r.signal.request == request
                          && Target(r.signal.cont) == OrElse(Target(leaf), carried))
  {
    hide ContinueHandle, Compose;
    ComposeFollows(f.signal.cont, leaf, 0);
    if leaf.Boundary? {
      HandlerSaves(f, leaf.id, leaf.arms, 0);
    }
  }

  lemma {:induction false} RaisePass(f: Flow, frames: seq<Cont>, rest: seq<Cont>)
    requires Raising(f.signal) && BareBoundaries(frames)
    ensures var r := PassAll(f, frames);
            r.signal.Fault? ||
            (&& EndsWith(PlanOf(Leaves(SignalCont(r.signal)) + rest, r.policy),
                         PlanOf(Behind(frames, f.signal.request) + rest,
                                Gives(frames, f.signal.request, Target(f.signal.cont), f.policy)))
             && (Tame(f.signal.cont) && TameIn(frames) ==> Tame(SignalCont(r.signal))))
    decreases |frames|
  {
    hide PassLeaf, Target, Ends, PlanOf, Leaves, Tame, Schedule;
    if frames == [] {
      PlanFront(f.signal.cont, rest, f.policy);
      assert [] + rest == rest;
    } else {
      RaiseLeaf(f, frames[0]);
      var next := PassLeaf(f, frames[0]);
      if next.signal.Fault? {
        FaultPasses(next, frames[1..]);
      } else if Raising(next.signal) {
        EndsNot(f, frames[0]);
        RaisePass(next, frames[1..], rest);
      } else {
        EndsHere(f, next, frames, rest);
      }
    }
  }

  lemma EndsNot(f: Flow, leaf: Cont)
    requires Raising(f.signal) && Raising(PassLeaf(f, leaf).signal)
    requires leaf.Boundary? ==> leaf.inner.BlockValue?
    ensures !Ends(leaf, f.signal.request)
  {
    RaiseLeaf(f, leaf);
  }

  lemma EndsHere(f: Flow, next: Flow, frames: seq<Cont>, rest: seq<Cont>)
    requires frames != [] && Raising(f.signal) && BareBoundaries(frames)
    requires next == PassLeaf(f, frames[0]) && !next.signal.Fault? && !Raising(next.signal)
    ensures var r := PassAll(next, frames[1..]);
            r.signal.Fault? ||
            (&& EndsWith(PlanOf(Leaves(SignalCont(r.signal)) + rest, r.policy),
                         PlanOf(Behind(frames, f.signal.request) + rest,
                                Gives(frames, f.signal.request, Target(f.signal.cont), f.policy)))
             && (Tame(f.signal.cont) && TameIn(frames) ==> Tame(SignalCont(r.signal))))
  {
    hide PassLeaf, Target, Ends, Leaves, Tame, Schedule, Entries, TargetIn, PassAll;
    RaiseLeaf(f, frames[0]);
    var behind := frames[1..];
    CalmPass(next, behind, next.policy);
    var r := PassAll(next, behind);
    if !r.signal.Fault? {
      PlanFront(SignalCont(r.signal), rest, r.policy);
      var start := After(Target(SignalCont(next.signal)), next.policy);
      PlanConcat(behind, rest, start);
      Joined(Schedule(SignalCont(next.signal), next.policy), Entries(behind, start), PlanOf(rest, After(TargetIn(behind), start)));
    }
  }

  /** The restoration inside which a typed error ends, opened but not yet acted. */
  function Inside(k: Cont, request: Request): Option<nat> {
    match k
    case Chain(inner, outer) => if Met(inner, request, true).raising then Inside(outer, request) else Inside(inner, request)
    case Boundary(_, inner, _) => if Met(inner, request, true).raising then None else Inside(inner, request)
    case RestorePolicy(policy, inner) => if Met(inner, request, true).raising then None else Some(policy)
    case _ => None
  }

  lemma {:induction false} MetSplit(left: seq<Cont>, right: seq<Cont>, request: Request)
    ensures var both := left + right;
            if Ended(left, request)
            then && Ended(both, request) && Captured(both, request) == Captured(left, request)
                 && Crossed(both, request) == Crossed(left, request) && Behind(both, request) == Behind(left, request) + right
            else && Ended(both, request) == Ended(right, request) && Captured(both, request) == Captured(right, request)
                 && Crossed(both, request) == left + Crossed(right, request) && Behind(both, request) == Behind(right, request)
    decreases |left|
  {
    hide Ends;
    if left == [] {
      assert left + right == right;
    } else {
      var both := left + right;
      assert both[1..] == left[1..] + right && both[0] == left[0];
      MetSplit(left[1..], right, request);
    }
  }

  lemma {:induction false} NotEnded(frames: seq<Cont>, request: Request)
    requires !Ended(frames, request)
    ensures Crossed(frames, request) == frames && Behind(frames, request) == [] && !Captured(frames, request)
    decreases |frames|
  {
    if frames != [] {
      NotEnded(frames[1..], request);
    }
  }

  lemma MetOne(k: Cont, request: Request)
    ensures Ended([k], request) == Ends(k, request) && Behind([k], request) == []
    ensures Captured([k], request) == (Ends(k, request) && k.TryExpr?)
    ensures Crossed([k], request) == if Ends(k, request) then [] else [k]
  {
    assert [k][1..] == [];
  }

  /** No restoration in any of the frames, and no handler. */
  predicate Unguarded(frames: seq<Cont>) {
    forall i | 0 <= i < |frames| :: Target(frames[i]).None? && !frames[i].Boundary? && !frames[i].RestorePolicy?
  }

  lemma UnguardedConcat(left: seq<Cont>, right: seq<Cont>)
    requires Unguarded(left) && Unguarded(right)
    ensures Unguarded(left + right)
  {
    hide Target;
  }

  /** Code without restorations of its own holds none anywhere an error could meet. */
  lemma {:induction false} NoneInside(k: Cont, request: Request, raising: bool)
    requires Target(k).None? && Quiet(k)
    ensures Unguarded(Met(k, request, raising).frames)
    ensures Inside(k, request).None?
  {
    match k
    case Chain(inner, outer) =>
      var first := Met(inner, request, raising);
      NoneInside(inner, request, raising);
      NoneInside(outer, request, first.raising);
      UnguardedConcat(first.frames, Met(outer, request, first.raising).frames);
    case _ =>
  }

  lemma {:induction false} NoTargets(frames: seq<Cont>, request: Request)
    requires Unguarded(frames)
    ensures TargetIn(frames).None? && TargetIn(Crossed(frames, request)).None? && TargetIn(Behind(frames, request)).None?
    ensures Captured(frames, request) == Ended(frames, request)
    ensures BareRestores(Crossed(frames, request))
    decreases |frames|
  {
    hide Target;
    if frames != [] {
      NoTargets(frames[1..], request);
    }
  }

  /** The policy a value would hand to the frames behind the one that ends the error. */
  function Due(k: Cont, request: Request, policy: nat): nat {
    if Inside(k, request).Some? then Inside(k, request).value
    else After(TargetIn(Crossed(Met(k, request, true).frames, request)), policy)
  }

  /** What the frames met say about the continuation they come from. */
  predicate MetWell(k: Cont, request: Request) {
    var (met, inside) := (Met(k, request, true), Inside(k, request));
    && met.raising == !Ended(met.frames, request)
    && (met.raising ==> TargetIn(met.frames) == Target(k))
    && (inside.Some? ==> Captured(met.frames, request))
    && BareRestores(Crossed(met.frames, request))
  }

  predicate DueWell(k: Cont, request: Request, policy: nat, rest: seq<Cont>) {
    EndsWith(PlanBefore(k, rest, policy), PlanOf(Behind(Met(k, request, true).frames, request) + rest, Due(k, request, policy)))
  }

  lemma {:induction false} DuePlan(k: Cont, request: Request, policy: nat, rest: seq<Cont>)
    requires Tame(k)
    ensures MetWell(k, request) && DueWell(k, request, policy, rest)
    decreases k
  {
    match k
    case Chain(inner, outer) => DueChain(k, request, policy, rest);
    case Boundary(id, inner, arms) => DueBoundary(k, request, policy, rest);
    case RestorePolicy(restored, inner) => DueRestore(k, request, policy, rest);
    case _ => DueLeaf(k, request, policy, rest);
  }

  lemma DueLeaf(k: Cont, request: Request, policy: nat, rest: seq<Cont>)
    requires !k.Chain? && !k.Boundary? && !k.RestorePolicy?
    ensures MetWell(k, request) && DueWell(k, request, policy, rest)
  {
    hide PlanOf, Schedule, Target;
    MetOne(k, request);
    TargetOne(k);
    assert [] + rest == rest;
    if k.TryExpr? {
      TryTarget(k);
    }
  }

  lemma TryTarget(k: Cont)
    requires k.TryExpr?
    ensures Target(k).None?
  {
  }

  /** `k` meets, and plans, what `inner` does and then what `outer` does. */
  predicate Joins(k: Cont, inner: Cont, outer: Cont, request: Request, policy: nat, rest: seq<Cont>) {
    var first := Met(inner, request, true);
    var second := Met(outer, request, first.raising);
    var next := After(Target(inner), policy);
    && Met(k, request, true) == Meeting(first.frames + second.frames, second.raising)
    && Inside(k, request) == (if first.raising then Inside(outer, request) else Inside(inner, request))
    && (!first.raising ==> !second.raising)
    && Target(k) == OrElse(Target(outer), Target(inner))
    && PlanBefore(k, rest, policy) == Schedule(inner, policy) + PlanBefore(outer, rest, next)
    && PlanBefore(k, rest, policy) == PlanBefore(inner, [outer] + rest, policy)
  }

  lemma DueJoined(k: Cont, inner: Cont, outer: Cont, request: Request, policy: nat, rest: seq<Cont>)
    requires Joins(k, inner, outer, request, policy, rest)
    requires MetWell(inner, request) && DueWell(inner, request, policy, [outer] + rest)
    requires MetWell(outer, request) && DueWell(outer, request, After(Target(inner), policy), rest)
    ensures MetWell(k, request) && DueWell(k, request, policy, rest)
  {
    hide *;
    if Met(inner, request, true).raising {
      DueBehind(k, inner, outer, request, policy, rest);
    } else {
      DueInside(k, inner, outer, request, policy, rest);
    }
  }

  /** The error is still travelling after `inner`. */
  lemma DueBehind(k: Cont, inner: Cont, outer: Cont, request: Request, policy: nat, rest: seq<Cont>)
    requires Joins(k, inner, outer, request, policy, rest)
    requires MetWell(inner, request) && DueWell(inner, request, policy, [outer] + rest)
    requires MetWell(outer, request) && DueWell(outer, request, After(Target(inner), policy), rest)
    requires Met(inner, request, true).raising
    ensures MetWell(k, request) && DueWell(k, request, policy, rest)
  {
    hide PlanOf, Schedule, Target, Met, Inside, Entries, TargetIn, PlanBefore, Crossed, Behind, Ended, Captured, EndsWith;
    var first := Met(inner, request, true);
    var second := Met(outer, request, true);
    MetSplit(first.frames, second.frames, request);
    TargetConcat(first.frames, second.frames);
    TargetConcat(first.frames, Crossed(second.frames, request));
    NotEnded(first.frames, request);
    EndsBehind(Schedule(inner, policy), PlanBefore(outer, rest, After(Target(inner), policy)),
               PlanOf(Behind(second.frames, request) + rest, Due(outer, request, After(Target(inner), policy))));
  }

  /** The error ends inside `inner`. */
  lemma DueInside(k: Cont, inner: Cont, outer: Cont, request: Request, policy: nat, rest: seq<Cont>)
    requires Joins(k, inner, outer, request, policy, rest)
    requires MetWell(inner, request) && DueWell(inner, request, policy, [outer] + rest)
    requires MetWell(outer, request) && DueWell(outer, request, After(Target(inner), policy), rest)
    requires !Met(inner, request, true).raising
    ensures MetWell(k, request) && DueWell(k, request, policy, rest)
  {
    hide PlanOf, Schedule, Target, Met, Inside, Entries, TargetIn, PlanBefore, Crossed, Behind, Ended, Captured, EndsWith;
    var first := Met(inner, request, true);
    var second := Met(outer, request, false);
    MetSplit(first.frames, second.frames, request);
    SamePlan(Behind(first.frames, request), outer, second.frames, rest, request, Due(inner, request, policy));
  }

  lemma {:induction false} DueChain(k: Cont, request: Request, policy: nat, rest: seq<Cont>)
    requires Tame(k) && k.Chain?
    ensures MetWell(k, request) && DueWell(k, request, policy, rest)
    decreases k, 0
  {
    hide PlanOf, Schedule, Target, Met, Inside, PlanBefore, MetWell, DueWell;
    ChainMet(k.inner, k.outer, request);
    ChainPlan(k.inner, k.outer, rest, policy);
    DuePlan(k.inner, request, policy, [k.outer] + rest);
    DuePlan(k.outer, request, After(Target(k.inner), policy), rest);
    DueJoined(k, k.inner, k.outer, request, policy, rest);
  }

  lemma ChainMet(inner: Cont, outer: Cont, request: Request)
    ensures var k, first := Chain(inner, outer), Met(inner, request, true);
            var second := Met(outer, request, first.raising);
            && Met(k, request, true) == Meeting(first.frames + second.frames, second.raising)
            && Inside(k, request) == (if first.raising then Inside(outer, request) else Inside(inner, request))
            && (!first.raising ==> !second.raising)
            && Target(k) == OrElse(Target(outer), Target(inner))
  {
    ActionMeets(outer, request);
  }

  lemma ChainPlan(inner: Cont, outer: Cont, rest: seq<Cont>, policy: nat)
    ensures PlanBefore(Chain(inner, outer), rest, policy)
         == Schedule(inner, policy) + PlanBefore(outer, rest, After(Target(inner), policy))
    ensures PlanBefore(Chain(inner, outer), rest, policy) == PlanBefore(inner, [outer] + rest, policy)
  {
    hide PlanOf, Entries, TargetIn;
    var next := After(Target(inner), policy);
    assert ([outer] + rest)[1..] == rest;
    PlanStep([outer] + rest, next);
    Joined(Schedule(inner, policy), Schedule(outer, next), PlanOf(rest, After(Target(outer), next)));
  }

  /** The frames met behind the end stand for the continuation they come from. */
  lemma SamePlan(front: seq<Cont>, k: Cont, met: seq<Cont>, rest: seq<Cont>, request: Request, policy: nat)
    requires met == Met(k, request, false).frames
    ensures PlanOf(front + ([k] + rest), policy) == PlanOf(front + met + rest, policy)
  {
    hide PlanOf, Entries, TargetIn, Schedule, Target, Met;
    var next := After(TargetIn(front), policy);
    assert front + met + rest == front + (met + rest);
    PlanConcat(front, [k] + rest, policy);
    PlanConcat(front, met + rest, policy);
    MetPlans(k, request, next);
    PlanConcat(met, rest, next);
    assert ([k] + rest)[1..] == rest;
    PlanStep([k] + rest, next);
  }

  lemma {:induction false} DueBoundary(k: Cont, request: Request, policy: nat, rest: seq<Cont>)
    requires Tame(k) && k.Boundary?
    ensures MetWell(k, request) && DueWell(k, request, policy, rest)
    decreases k, 0
  {
    hide PlanOf, Schedule, Target, Met, Inside, PlanBefore, MetWell, DueWell;
    var bare := Boundary(k.id, BlockValue, k.arms);
    if k.inner.BlockValue? {
      DueBare(k, request, policy, rest);
    } else {
      BoundaryJoins(k, request, policy, rest);
      DuePlan(k.inner, request, policy, [bare] + rest);
      DueBare(bare, request, After(Target(k.inner), policy), rest);
      DueJoined(k, k.inner, bare, request, policy, rest);
    }
  }

  /** A bare boundary is a frame like any other. */
  lemma DueBare(k: Cont, request: Request, policy: nat, rest: seq<Cont>)
    requires k.Boundary? && k.inner.BlockValue?
    ensures MetWell(k, request) && DueWell(k, request, policy, rest)
  {
    hide PlanOf, Entries, TargetIn, Schedule, Target, Met, Inside;
    assert [] + rest == rest && [] + PlanOf(rest, policy) == PlanOf(rest, policy);
    MetOne(k, request);
    TargetOne(k);
    BareTarget(k);
    BareMet(k, request);
    NothingMet();
  }

  lemma NothingMet()
    ensures TargetIn([]).None?
  {
  }

  lemma BareTarget(k: Cont)
    requires k.Boundary? && k.inner.BlockValue?
    ensures Target(k).None? && forall policy :: Schedule(k, policy) == []
  {
    forall policy ensures Schedule(k, policy) == [] {
      assert Schedule(k, policy) == Schedule(BlockValue, policy);
    }
  }

  lemma BoundaryJoins(k: Cont, request: Request, policy: nat, rest: seq<Cont>)
    requires k.Boundary? && !k.inner.BlockValue?
    ensures Joins(k, k.inner, Boundary(k.id, BlockValue, k.arms), request, policy, rest)
  {
    hide PlanOf, Entries, TargetIn;
    var bare := Boundary(k.id, BlockValue, k.arms);
    BareTarget(bare);
    BareMet(bare, request);
    ChainPlan(k.inner, bare, rest, policy);
    assert Schedule(k.inner, policy) + [] == Schedule(k.inner, policy);
  }

  lemma BareMet(k: Cont, request: Request)
    requires k.Boundary? && k.inner.BlockValue?
    ensures forall raising :: Met(k, request, raising) == Meeting([k], raising && !ScopeMatches(request, k.arms))
    ensures Inside(k, request).None?
  {
    assert [] + [k] == [k];
  }

  lemma {:induction false} DueRestore(k: Cont, request: Request, policy: nat, rest: seq<Cont>)
    requires Tame(k) && k.RestorePolicy?
    ensures MetWell(k, request) && DueWell(k, request, policy, rest)
    decreases k, 0
  {
    hide PlanOf, Schedule, Target, Met, Inside, Entries, TargetIn;
    var inner, bare := k.inner, RestorePolicy(k.policy, BlockValue);
    RestoreMet(k, request);
    RestorePlan(k, rest, policy);
    TargetOne(bare);
    MetOne(bare, request);
    if inner.BlockValue? {
      assert [] + rest == rest && [] + [bare] == [bare];
      assert After(Some(k.policy), policy) == k.policy;
    } else {
      var inside := Met(inner, request, true);
      NoneInside(inner, request, true);
      NoTargets(inside.frames, request);
      DuePlan(inner, request, k.policy, rest);
      MetSplit(inside.frames, [bare], request);
      TargetConcat(inside.frames, [bare]);
      if inside.raising {
        NotEnded(inside.frames, request);
        assert [] + rest == rest;
      } else {
        BareBehind(Behind(inside.frames, request), bare, rest, k.policy);
      }
    }
  }

  lemma RestoreMet(k: Cont, request: Request)
    requires k.RestorePolicy? && Tame(k)
    ensures var bare := RestorePolicy(k.policy, BlockValue);
            var inside := if k.inner.BlockValue? then Meeting([], true) else Met(k.inner, request, true);
            && Met(k, request, true) == Meeting(inside.frames + [bare], inside.raising)
            && Inside(k, request) == (if inside.raising then None else Some(k.policy))
            && Target(k) == Some(k.policy) == Target(bare) && Target(k.inner).None? && Quiet(k.inner) && Tame(k.inner)
  {
    assert [] + [k] == [k];
  }

  lemma RestorePlan(k: Cont, rest: seq<Cont>, policy: nat)
    requires k.RestorePolicy? && Target(k.inner).None?
    ensures PlanBefore(k, rest, policy) == PlanBefore(k.inner, rest, k.policy)
    ensures k.inner.BlockValue? ==> PlanBefore(k, rest, policy) == PlanOf(rest, k.policy)
  {
    hide PlanOf;
    assert [] + PlanOf(rest, k.policy) == PlanOf(rest, k.policy);
  }

  /** The restoration that the error had opened acts on what is in force already. */
  lemma BareBehind(behind: seq<Cont>, bare: Cont, rest: seq<Cont>, policy: nat)
    requires TargetIn(behind).None? && bare == RestorePolicy(policy, BlockValue)
    ensures PlanOf(behind + [bare] + rest, policy) == PlanOf(behind + rest, policy)
  {
    hide PlanOf, Entries, TargetIn;
    assert behind + [bare] + rest == behind + ([bare] + rest);
    PlanConcat(behind, [bare] + rest, policy);
    PlanConcat(behind, rest, policy);
    assert ([bare] + rest)[1..] == rest;
    PlanStep([bare] + rest, policy);
    assert Schedule(bare, policy) == Schedule(BlockValue, policy) == [];
    assert Target(bare) == Some(policy);
    assert [] + PlanOf(rest, policy) == PlanOf(rest, policy);
  }
}
