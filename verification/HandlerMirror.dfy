/** The handler stack mirrors the boundaries hidden in the continuation, in every run.

    The one way to break the mirror is a break or continue that leaves a boundary;
    `StepKeepsMirrorExactly` says so in both directions. */
module HandlerMirror {
  import opened Continuations
  import opened HandlerMachine

  // -------------------------------------------------- what "mirror" means

  /** No boundary is live: each one is saved under a `Reenter` or a `Dispatch`. */
  predicate Dormant(k: Cont) {
    match k
    case Chain(inner, outer) => Dormant(inner) && Dormant(outer)
    case Boundary(_, _, _) => false
    case _ => true
  }

  /** The innermost live scope id of `k` when `floor` is the innermost one outside it. */
  function Top(k: Cont, floor: int): int {
    match k
    case Chain(inner, outer) => Top(inner, Top(outer, floor))
    case Boundary(id, _, _) => id
    case _ => floor
  }

  /** Scope ids grow inwards, also inside saved continuations; wrappers hold no handler structure. */
  predicate Nested(k: Cont, floor: int) {
    match k
    case Chain(inner, outer) => Nested(outer, floor) && Nested(inner, Top(outer, floor))
    case Boundary(id, inner, _) => id > floor && Dormant(inner) && Nested(inner, id)
    case Reenter(boundary) => boundary.Boundary? && Nested(boundary, floor)
    case Dispatch(outer) => Dormant(outer) && Nested(outer, floor)
    case CallBoundary(outer) => Quiet(outer)
    case RestorePolicy(_, inner) => Quiet(inner)
    case ScopedPolicy(_, inner) => Quiet(inner)
    case _ => true
  }

  function ScopeOf(k: Cont): seq<Scope> {
    match k
    case Boundary(id, _, arms) => [Scope(id, arms)]
    case _ => []
  }

  /** The live scopes of a frame list (innermost frame first), outermost scope first. */
  function ScopesIn(frames: seq<Cont>): seq<Scope> {
    if frames == [] then [] else ScopesIn(frames[1..]) + ScopeOf(frames[0])
  }

  function TopIn(frames: seq<Cont>, floor: int): int {
    if frames == [] then floor else Top(frames[0], TopIn(frames[1..], floor))
  }

  predicate NestedIn(frames: seq<Cont>, floor: int) {
    frames == [] || (NestedIn(frames[1..], floor) && Nested(frames[0], TopIn(frames[1..], floor)))
  }

  ghost predicate Mirrored(frames: seq<Cont>, handlers: seq<Scope>, next: nat) {
    && NestedIn(frames, -1)
    && (forall id: nat :: OccurrencesIn(frames, id) <= 1)
    && (forall id: nat :: OccurrencesIn(frames, id) > 0 ==> id < next)
    && handlers == ScopesIn(frames)
  }

  predicate SignalOk(signal: Signal) {
    match signal
    case Eval(kind, k) => kind.EvalCall? ==> Quiet(k)
    case Performed(_, k) => Dormant(k)
    case _ => true
  }

  predicate FrameOk(frame: Frame) {
    match frame
    case HandlerFrame(_, _, _) => true
    case ContinuationFrame(k) => !k.Chain? && !k.Boundary? && !k.CallBoundary?
    case _ => Quiet(frame.cont)
  }

  ghost predicate Inv(m: Machine) {
    match m.flow.signal
    case Fault(fault) => !IsScopeFault(fault)
    case _ =>
      && Mirrored(Frames(m), m.flow.handlers, m.next)
      && SignalOk(m.flow.signal)
      && (forall frame <- m.stack :: FrameOk(frame))
      && (m.flow.signal.Done? ==> m.stack == [])
  }

  // ------------------------------------------------------- list summaries

  lemma {:induction false} ConcatOccurrences(left: seq<Cont>, right: seq<Cont>, id: nat)
    ensures OccurrencesIn(left + right, id) == OccurrencesIn(left, id) + OccurrencesIn(right, id)
  {
    if left == [] {
      assert left + right == right;
    } else {
      ConcatOccurrences(left[1..], right, id);
      assert (left + right)[1..] == left[1..] + right;
    }
  }

  lemma {:induction false} ConcatScopes(left: seq<Cont>, right: seq<Cont>, floor: int)
    ensures ScopesIn(left + right) == ScopesIn(right) + ScopesIn(left)
    ensures TopIn(left + right, floor) == TopIn(left, TopIn(right, floor))
    ensures NestedIn(left + right, floor) == (NestedIn(right, floor) && NestedIn(left, TopIn(right, floor)))
  {
    if left == [] {
      assert left + right == right;
    } else {
      var both := left + right;
      ConcatScopes(left[1..], right, floor);
      assert both[1..] == left[1..] + right && both[0] == left[0];
    }
  }

  lemma Concat(left: seq<Cont>, right: seq<Cont>, floor: int)
    ensures ScopesIn(left + right) == ScopesIn(right) + ScopesIn(left)
    ensures TopIn(left + right, floor) == TopIn(left, TopIn(right, floor))
    ensures NestedIn(left + right, floor) == (NestedIn(right, floor) && NestedIn(left, TopIn(right, floor)))
    ensures forall id: nat :: OccurrencesIn(left + right, id) == OccurrencesIn(left, id) + OccurrencesIn(right, id)
  {
    ConcatScopes(left, right, floor);
    forall id: nat {
      ConcatOccurrences(left, right, id);
    }
  }

  lemma Single(k: Cont, floor: int)
    ensures ScopesIn([k]) == ScopeOf(k)
    ensures TopIn([k], floor) == Top(k, floor)
    ensures NestedIn([k], floor) == Nested(k, floor)
    ensures forall id: nat :: OccurrencesIn([k], id) == Occurrences(k, id)
  {
  }

  /** A tree and its flattened leaves have the same summaries. */
  lemma {:induction false} LeavesSummary(k: Cont, floor: int)
    ensures NestedIn(Leaves(k), floor) == Nested(k, floor)
    ensures TopIn(Leaves(k), floor) == Top(k, floor)
    ensures forall id: nat :: OccurrencesIn(Leaves(k), id) == Occurrences(k, id)
    ensures Dormant(k) ==> ScopesIn(Leaves(k)) == [] && Top(k, floor) == floor
  {
    match k
    case Chain(inner, outer) =>
      LeavesSummary(outer, floor);
      LeavesSummary(inner, Top(outer, floor));
      Concat(Leaves(inner), Leaves(outer), floor);
    case BlockValue =>
    case _ => Single(k, floor);
  }

  lemma {:induction false} QuietSummary(k: Cont, floor: int)
    requires Quiet(k)
    ensures Dormant(k) && Nested(k, floor) && Top(k, floor) == floor
    ensures forall id: nat :: Occurrences(k, id) == 0
  {
    match k
    case Chain(inner, outer) =>
      QuietSummary(outer, floor);
      QuietSummary(inner, floor);
    case CallBoundary(outer) => QuietSummary(outer, floor);
    case RestorePolicy(_, inner) => QuietSummary(inner, floor);
    case ScopedPolicy(_, inner) => QuietSummary(inner, floor);
    case _ =>
  }

  lemma {:induction false} LowerFloor(k: Cont, high: int, low: int)
    requires Nested(k, high) && low <= high
    ensures Nested(k, low) && Top(k, low) <= Top(k, high)
  {
    match k
    case Chain(inner, outer) =>
      LowerFloor(outer, high, low);
      LowerFloor(inner, Top(outer, high), Top(outer, low));
    case Reenter(boundary) => LowerFloor(boundary, high, low);
    case Dispatch(outer) => LowerFloor(outer, high, low);
    case _ =>
  }

  /** The innermost live id is the top of the handler stack. */
  lemma {:induction false} TopOfScopes(frames: seq<Cont>)
    requires forall k <- frames :: !k.Chain?
    ensures TopIn(frames, -1) >= -1
    ensures ScopesIn(frames) == [] <==> TopIn(frames, -1) == -1
    ensures ScopesIn(frames) != [] ==>
              && TopIn(frames, -1) == ScopesIn(frames)[|ScopesIn(frames)| - 1].id
              && OccurrencesIn(frames, ScopesIn(frames)[|ScopesIn(frames)| - 1].id) > 0
  {
    if frames != [] {
      TopOfScopes(frames[1..]);
    }
  }

  /** Replacing what runs first keeps the mirror, whatever stays outside it. */
  lemma Front(a: seq<Cont>, b: seq<Cont>, rest: seq<Cont>, handlers: seq<Scope>, next: nat, next': nat)
    requires Mirrored(b + rest, handlers, next) && next <= next'
    requires forall id: nat :: OccurrencesIn(a, id) <= OccurrencesIn(b, id) || (OccurrencesIn(a, id) <= 1 && next <= id < next')
    requires NestedIn(a, TopIn(rest, -1))
    ensures Mirrored(a + rest, ScopesIn(rest) + ScopesIn(a), next')
    ensures handlers == ScopesIn(rest) + ScopesIn(b)
    ensures NestedIn(b, TopIn(rest, -1))
  {
    Concat(a, rest, -1);
    Concat(b, rest, -1);
    forall id: nat
      ensures OccurrencesIn(a + rest, id) <= 1
      ensures OccurrencesIn(a + rest, id) > 0 ==> id < next'
    {
      assert OccurrencesIn(b + rest, id) <= 1;
    }
  }

  lemma Decompose(b: seq<Cont>, rest: seq<Cont>, handlers: seq<Scope>, next: nat)
    requires Mirrored(b + rest, handlers, next)
    ensures NestedIn(b, TopIn(rest, -1)) && NestedIn(rest, -1)
    ensures handlers == ScopesIn(rest) + ScopesIn(b)
    ensures forall id: nat :: OccurrencesIn(b, id) + OccurrencesIn(rest, id) <= 1
    ensures forall id: nat :: OccurrencesIn(b, id) + OccurrencesIn(rest, id) > 0 ==> id < next
  {
    Concat(b, rest, -1);
    forall id: nat
      ensures OccurrencesIn(b, id) + OccurrencesIn(rest, id) <= 1
      ensures OccurrencesIn(b, id) + OccurrencesIn(rest, id) > 0 ==> id < next
    {
      assert OccurrencesIn(b + rest, id) == OccurrencesIn(b, id) + OccurrencesIn(rest, id);
    }
  }

  // ------------------------------------------------ propagating a perform

  /** The signals that can occur while a perform travels outwards. */
  predicate Flowing(signal: Signal) {
    match signal
    case Performed(_, k) => Dormant(k)
    case Apply(_, input) => input.OnValue?
    case Eval(kind, _) => kind.EvalBlock?
    case Completed(_) => true
    case _ => false
  }

  /** A perform meets a live boundary: dispatched under it, or saved and its scope popped. */
  lemma PerformAtBoundary(f: Flow, id: nat, arms: seq<Arm>, rest: seq<Cont>, next: nat)
    requires f.signal.Performed? && Dormant(f.signal.cont)
    requires Mirrored(Leaves(f.signal.cont) + [Boundary(id, BlockValue, arms)] + rest, f.handlers, next)
    ensures f.handlers == ScopesIn(rest) + [Scope(id, arms)]
    ensures Occurrences(f.signal.cont, id) == 0
    ensures var k := f.signal.cont;
            ContinueHandle(f, id, arms) ==
            if ScopeMatches(f.signal.request, arms)
            then f.(signal := Eval(EvalBlock, Boundary(id, Dispatch(k), arms)))
            else f.(handlers := ScopesIn(rest), signal := Performed(f.signal.request, Reenter(Boundary(id, k, arms))))
    ensures var f' := ContinueHandle(f, id, arms);
            Mirrored(Leaves(SignalCont(f'.signal)) + rest, f'.handlers, next)
  {
    hide *;
    var k := f.signal.cont;
    BoundaryOnTop(f.signal.cont, id, arms, rest, f.handlers, next);
    assert f.handlers[..|f.handlers| - 1] == ScopesIn(rest);
    HandlesOrSaves(f, id, arms);
    var arm, saved := Boundary(id, Dispatch(k), arms), Reenter(Boundary(id, k, arms));
    SavedMirrored(k, arm, id, arms, rest, f.handlers, next);
    SavedMirrored(k, saved, id, arms, rest, f.handlers, next);
    SignalOf(f.signal.request, k, id, arms);
    assert ScopesIn(rest) + [] == ScopesIn(rest);
  }

  lemma SignalOf(request: Request, k: Cont, id: nat, arms: seq<Arm>)
    ensures var arm, saved := Boundary(id, Dispatch(k), arms), Reenter(Boundary(id, k, arms));
            && SignalCont(Eval(EvalBlock, arm)) == arm && SignalCont(Performed(request, saved)) == saved
            && ScopeOf(arm) == [Scope(id, arms)] && ScopeOf(saved) == []
  {
  }

  /** The boundary right behind a dormant continuation owns the top of the handler stack. */
  lemma BoundaryOnTop(k: Cont, id: nat, arms: seq<Arm>, rest: seq<Cont>, handlers: seq<Scope>, next: nat)
    requires Dormant(k) && Mirrored(Leaves(k) + [Boundary(id, BlockValue, arms)] + rest, handlers, next)
    ensures handlers == ScopesIn(rest) + [Scope(id, arms)] && Occurrences(k, id) == 0
    ensures Nested(k, id) && id > TopIn(rest, -1)
  {
    hide ScopesIn, NestedIn, TopIn, OccurrencesIn;
    var boundary := Boundary(id, BlockValue, arms);
    var floor := TopIn(rest, -1);
    Decompose(Leaves(k) + [boundary], rest, handlers, next);
    Concat(Leaves(k), [boundary], floor);
    Single(boundary, floor);
    LeavesSummary(k, id);
    assert OccurrencesIn(Leaves(k) + [boundary], id) <= 1;
  }

  /** Saving the continuation under its boundary, running an arm or to be re-entered. */
  lemma SavedMirrored(k: Cont, whole: Cont, id: nat, arms: seq<Arm>, rest: seq<Cont>, handlers: seq<Scope>, next: nat)
    requires Dormant(k) && Nested(k, id) && id > TopIn(rest, -1)
    requires Mirrored(Leaves(k) + [Boundary(id, BlockValue, arms)] + rest, handlers, next)
    requires whole == Boundary(id, Dispatch(k), arms) || whole == Reenter(Boundary(id, k, arms))
    ensures Mirrored(Leaves(whole) + rest, ScopesIn(rest) + ScopeOf(whole), next)
  {
    hide ScopesIn, NestedIn, TopIn, OccurrencesIn, Mirrored;
    var boundary := Boundary(id, BlockValue, arms);
    var b := Leaves(k) + [boundary];
    var floor := TopIn(rest, -1);
    Concat(Leaves(k), [boundary], floor);
    Single(boundary, floor);
    LeavesSummary(k, id);
    Single(whole, floor);
    forall other: nat ensures OccurrencesIn([whole], other) == OccurrencesIn(b, other) {
      assert OccurrencesIn(b, other) == Occurrences(k, other) + Occurrences(boundary, other);
      assert Occurrences(whole, other) == Occurrences(k, other) + Occurrences(boundary, other);
    }
    Front([whole], b, rest, handlers, next, next);
  }

  /** A handler on top of the stack that owns nothing in the perform's continuation. */
  lemma HandlesOrSaves(f: Flow, id: nat, arms: seq<Arm>)
    requires f.signal.Performed? && Occurrences(f.signal.cont, id) == 0
    requires f.handlers != [] && f.handlers[|f.handlers| - 1].id == id
    ensures var k := f.signal.cont;
            ContinueHandle(f, id, arms) ==
            if ScopeMatches(f.signal.request, arms)
            then f.(signal := Eval(EvalBlock, Boundary(id, Dispatch(k), arms)))
            else f.(handlers := f.handlers[..|f.handlers| - 1], signal := Performed(f.signal.request, Reenter(Boundary(id, k, arms))))
  {
    hide ScopeMatches;
  }

  lemma PassLeafKeeps(f: Flow, leaf: Cont, rest: seq<Cont>, next: nat)
    requires Flowing(f.signal) && !leaf.Chain?
    requires leaf.Boundary? ==> leaf.inner.BlockValue?
    requires Mirrored(Leaves(SignalCont(f.signal)) + Leaves(leaf) + rest, f.handlers, next)
    ensures Flowing(PassLeaf(f, leaf).signal)
    ensures Mirrored(Leaves(SignalCont(PassLeaf(f, leaf).signal)) + rest, PassLeaf(f, leaf).handlers, next)
  {
    hide ScopesIn, NestedIn, TopIn, OccurrencesIn, Mirrored, ContinueHandle, Nested;
    var a := Leaves(SignalCont(f.signal));
    match f.signal
    case Performed(request, k) =>
      if leaf.Boundary? {
        PerformAtBoundary(f, leaf.id, leaf.arms, rest, next);
      } else if leaf.RestorePolicy? && request.Raise? {
        DropBehind(a, leaf, rest, f.handlers, next);
      } else if leaf.TryExpr? && Captures(leaf.captured, request) {
        DropBehind(a, leaf, rest, f.handlers, next);
        DropDormant(k, rest, f.handlers, next);
      } else {
        assert Dormant(leaf) && Dormant(Compose(k, leaf));
        assert PassLeaf(f, leaf).signal == Performed(request, Compose(k, leaf));
      }
    case Completed(_) => assert [] + Leaves(leaf) == Leaves(leaf);
    case _ =>
  }

  /** So does dropping a dormant continuation. */
  lemma DropDormant(k: Cont, rest: seq<Cont>, handlers: seq<Scope>, next: nat)
    requires Dormant(k) && Mirrored(Leaves(k) + rest, handlers, next)
    ensures Mirrored([] + rest, handlers, next)
  {
    hide TopIn, OccurrencesIn;
    LeavesSummary(k, TopIn(rest, -1));
    Decompose(Leaves(k), rest, handlers, next);
    forall id: nat ensures OccurrencesIn([], id) == 0 {
      EmptyOccurrences(id);
    }
    Front([], Leaves(k), rest, handlers, next, next);
  }

  lemma EmptyOccurrences(id: nat)
    ensures OccurrencesIn([], id) == 0
  {
  }

  /** Dropping a frame that holds no live scope keeps the mirror. */
  lemma DropBehind(a: seq<Cont>, leaf: Cont, rest: seq<Cont>, handlers: seq<Scope>, next: nat)
    requires ScopeOf(leaf) == [] && !leaf.Chain?
    requires Mirrored(a + [leaf] + rest, handlers, next)
    ensures Mirrored(a + rest, handlers, next)
  {
    hide ScopesIn, NestedIn, TopIn, OccurrencesIn;
    var floor := TopIn(rest, -1);
    Decompose(a + [leaf], rest, handlers, next);
    Concat(a, [leaf], floor);
    Single(leaf, floor);
    Front(a, a + [leaf], rest, handlers, next, next);
  }

  /** Splitting a live boundary into its inner frames and the bare boundary changes nothing. */
  lemma SplitBoundary(a: seq<Cont>, id: nat, inner: Cont, arms: seq<Arm>, rest: seq<Cont>, handlers: seq<Scope>, next: nat)
    requires Mirrored(a + [Boundary(id, inner, arms)] + rest, handlers, next)
    ensures Mirrored(a + Leaves(inner) + [Boundary(id, BlockValue, arms)] + rest, handlers, next)
  {
    hide ScopesIn, NestedIn, TopIn, OccurrencesIn;
    var whole := Boundary(id, inner, arms);
    var bare := Boundary(id, BlockValue, arms);
    var floor := TopIn(rest, -1);
    Decompose(a + [whole], rest, handlers, next);
    Concat(a, [whole], floor);
    Single(whole, floor);
    Single(bare, floor);
    LeavesSummary(inner, id);
    Concat(Leaves(inner), [bare], floor);
    Concat(a, Leaves(inner) + [bare], floor);
    forall id: nat
      ensures OccurrencesIn(a + (Leaves(inner) + [bare]), id) == OccurrencesIn(a + [whole], id)
    {
      assert Occurrences(bare, id) + Occurrences(inner, id) == Occurrences(whole, id);
    }
    Front(a + (Leaves(inner) + [bare]), a + [whole], rest, handlers, next, next);
    assert a + (Leaves(inner) + [bare]) == a + Leaves(inner) + [bare];
  }

  lemma PropagateChain(f: Flow, inner: Cont, outer: Cont)
    ensures Propagate(f, Chain(inner, outer)) == Propagate(Propagate(f, inner), outer)
  {
  }

  lemma PropagateBoundary(f: Flow, id: nat, inner: Cont, arms: seq<Arm>)
    ensures Propagate(f, Boundary(id, inner, arms))
         == PassLeaf(if inner.BlockValue? then f else Propagate(f, inner), Boundary(id, BlockValue, arms))
  {
  }

  lemma PropagateLeaf(f: Flow, k: Cont)
    requires !k.Chain? && !k.Boundary?
    ensures Propagate(f, k)
         == if k.RestorePolicy? && !k.inner.BlockValue? && Raising(f.signal)
            then PassLeaf(Propagate(f, k.inner), RestorePolicy(k.policy, BlockValue))
            else PassLeaf(f, k)
  {
  }

  lemma ChainLeaves(inner: Cont, outer: Cont)
    ensures Leaves(Chain(inner, outer)) == Leaves(inner) + Leaves(outer)
  {
  }

  lemma LeafLeaves(k: Cont)
    requires !k.Chain?
    ensures Leaves(k) == if k.BlockValue? then [] else [k]
  {
  }

  lemma EmptyLeaves()
    ensures Leaves(BlockValue) == []
  {
  }

  lemma {:induction false} PropagateKeeps(f: Flow, k: Cont, rest: seq<Cont>, next: nat)
    requires Flowing(f.signal)
    requires Mirrored(Leaves(SignalCont(f.signal)) + Leaves(k) + rest, f.handlers, next)
    ensures Flowing(Propagate(f, k).signal)
    ensures Mirrored(Leaves(SignalCont(Propagate(f, k).signal)) + rest, Propagate(f, k).handlers, next)
    decreases k, 0
  {
    hide *;
    var a := Leaves(SignalCont(f.signal));
    match k
    case Chain(inner, outer) =>
      var mid := Propagate(f, inner);
      PropagateChain(f, inner, outer);
      ChainLeaves(inner, outer);
      assert a + Leaves(k) + rest == a + Leaves(inner) + (Leaves(outer) + rest);
      PropagateKeeps(f, inner, Leaves(outer) + rest, next);
      assert Leaves(SignalCont(mid.signal)) + (Leaves(outer) + rest) == Leaves(SignalCont(mid.signal)) + Leaves(outer) + rest;
      PropagateKeeps(mid, outer, rest, next);
    case Boundary(id, inner, arms) =>
      PropagateBoundary(f, id, inner, arms);
      LeafLeaves(k);
      if inner.BlockValue? {
        PassLeafKeeps(f, k, rest, next);
      } else {
        SplitBoundary(a, id, inner, arms, rest, f.handlers, next);
        PropagateInside(f, inner, Boundary(id, BlockValue, arms), rest, next);
      }
    case RestorePolicy(policy, inner) =>
      PropagateLeaf(f, k);
      LeafLeaves(k);
      if !inner.BlockValue? && Raising(f.signal) {
        SplitPolicy(a, policy, inner, rest, f.handlers, next);
        PropagateInside(f, inner, RestorePolicy(policy, BlockValue), rest, next);
      } else {
        PassLeafKeeps(f, k, rest, next);
      }
    case _ =>
      PropagateLeaf(f, k);
      PassLeafKeeps(f, k, rest, next);
  }

  /** First the frames inside a wrapper, then the bare wrapper. */
  lemma {:induction false} PropagateInside(f: Flow, inner: Cont, bare: Cont, rest: seq<Cont>, next: nat)
    requires Flowing(f.signal) && !bare.Chain? && !bare.BlockValue?
    requires bare.Boundary? ==> bare.inner.BlockValue?
    requires Mirrored(Leaves(SignalCont(f.signal)) + Leaves(inner) + [bare] + rest, f.handlers, next)
    ensures var f' := PassLeaf(Propagate(f, inner), bare);
            Flowing(f'.signal) && Mirrored(Leaves(SignalCont(f'.signal)) + rest, f'.handlers, next)
    decreases inner, 1
  {
    hide *;
    var a := Leaves(SignalCont(f.signal));
    LeafLeaves(bare);
    assert a + Leaves(inner) + [bare] + rest == a + Leaves(inner) + ([bare] + rest);
    PropagateKeeps(f, inner, [bare] + rest, next);
    var mid := Propagate(f, inner);
    var m := Leaves(SignalCont(mid.signal));
    assert m + ([bare] + rest) == m + Leaves(bare) + rest;
    PassLeafKeeps(mid, bare, rest, next);
  }

  lemma SplitPolicy(a: seq<Cont>, policy: nat, inner: Cont, rest: seq<Cont>, handlers: seq<Scope>, next: nat)
    requires Mirrored(a + [RestorePolicy(policy, inner)] + rest, handlers, next)
    ensures Mirrored(a + Leaves(inner) + [RestorePolicy(policy, BlockValue)] + rest, handlers, next)
  {
    hide ScopesIn, NestedIn, TopIn, OccurrencesIn;
    var whole := RestorePolicy(policy, inner);
    var bare := RestorePolicy(policy, BlockValue);
    var floor := TopIn(rest, -1);
    Decompose(a + [whole], rest, handlers, next);
    Concat(a, [whole], floor);
    Single(whole, floor);
    Single(bare, floor);
    QuietSummary(inner, floor);
    LeavesSummary(inner, floor);
    Concat(Leaves(inner), [bare], floor);
    Concat(a, Leaves(inner) + [bare], floor);
    forall id: nat
      ensures OccurrencesIn(a + (Leaves(inner) + [bare]), id) == OccurrencesIn(a + [whole], id)
    {
      assert Occurrences(bare, id) + Occurrences(inner, id) == Occurrences(whole, id);
    }
    Front(a + (Leaves(inner) + [bare]), a + [whole], rest, handlers, next, next);
    assert a + (Leaves(inner) + [bare]) == a + Leaves(inner) + [bare];
  }
}
