/** An action is delivered to the innermost matching handler, and resuming it rebuilds
    the frames and the handler stack it had crossed. */
module Forwarding {
  import opened Continuations
  import opened HandlerMachine
  import opened HandlerMirror
  import opened HandlerRuns

  // ------------------------------------------------- what resuming rebuilds

  lemma {:induction false} LeafSize(k: Cont)
    ensures forall leaf <- Leaves(k) :: Size(leaf) <= Size(k)
  {
    match k
    case Chain(inner, outer) =>
      LeafSize(inner);
      LeafSize(outer);
    case _ =>
  }

  function FrontSize(frames: seq<Cont>): nat {
    if frames == [] then 0 else Size(frames[0])
  }

  /** Frames that a value passes by only rebuilding structure: re-entries and split boundaries. */
  predicate Administrative(k: Cont) {
    match k
    case Reenter(boundary) => boundary.Boundary?
    case Boundary(_, inner, _) => !inner.BlockValue?
    case _ => false
  }

  /** The frames once a value has passed every administrative frame in front. */
  function Unwind(frames: seq<Cont>): seq<Cont>
    decreases FrontSize(frames)
  {
    if frames == [] || !Administrative(frames[0]) then frames
    else
      var boundary := if frames[0].Reenter? then frames[0].boundary else frames[0];
      LeafSize(boundary.inner);
      var inner := Leaves(boundary.inner);
      assert inner != [] ==> inner[0] in inner;
      assert Size(boundary.inner) < Size(frames[0]);
      Unwind(inner) + [Boundary(boundary.id, BlockValue, boundary.arms)] + frames[1..]
  }

  /** Each live boundary written as its inner frames followed by the bare boundary. */
  function Expand(frames: seq<Cont>): seq<Cont> {
    if frames == [] then []
    else ExpandLeaf(frames[0]) + Expand(frames[1..])
  }

  function ExpandLeaf(k: Cont): seq<Cont> {
    match k
    case Boundary(id, inner, arms) => Leaves(inner) + [Boundary(id, BlockValue, arms)]
    case _ => [k]
  }

  lemma {:induction false} ExpandConcat(left: seq<Cont>, right: seq<Cont>)
    ensures Expand(left + right) == Expand(left) + Expand(right)
    decreases |left|
  {
    hide ExpandLeaf;
    if left == [] {
      assert left + right == right;
    } else {
      ExpandConcat(left[1..], right);
      var both := left + right;
      assert both[1..] == left[1..] + right && both[0] == left[0];
      Joined(ExpandLeaf(left[0]), Expand(left[1..]), Expand(right));
    }
  }

  lemma Joined(a: seq<Cont>, b: seq<Cont>, c: seq<Cont>)
    ensures a + (b + c) == a + b + c
  {
  }

  lemma {:induction false} ExpandDormant(k: Cont)
    requires Dormant(k)
    ensures Expand(Leaves(k)) == Leaves(k)
  {
    match k
    case Chain(inner, outer) =>
      ExpandDormant(inner);
      ExpandDormant(outer);
      ExpandConcat(Leaves(inner), Leaves(outer));
    case BlockValue =>
    case Boundary(_, _, _) =>
    case _ => assert Expand([k]) == [k] + Expand([]);
  }

  lemma UnwindConcat(left: seq<Cont>, right: seq<Cont>)
    requires left != []
    ensures Unwind(left + right) == Unwind(left) + right
  {
    assert (left + right)[0] == left[0] && (left + right)[1..] == left[1..] + right;
    if Administrative(left[0]) {
      var boundary := if left[0].Reenter? then left[0].boundary else left[0];
      LeafSize(boundary.inner);
    }
  }

  /** Saving a crossed boundary under a `Reenter` does not change what a value will run. */
  lemma SavedUnwinds(k: Cont, id: nat, inner: Cont, arms: seq<Arm>, saved: Cont, rest: seq<Cont>)
    requires Dormant(inner) && Leaves(saved) == Leaves(k) + Leaves(inner)
    ensures Expand(Unwind(Leaves(saved) + [Boundary(id, BlockValue, arms)] + rest))
         == Expand(Unwind(Leaves(k) + [Boundary(id, inner, arms)] + rest))
    ensures Unwind([Reenter(Boundary(id, saved, arms))] + rest)
         == Unwind(Leaves(saved)) + [Boundary(id, BlockValue, arms)] + rest
    ensures Expand(Unwind(Leaves(saved)) + [Boundary(id, BlockValue, arms)] + rest)
         == Expand(Unwind(Leaves(k) + [Boundary(id, inner, arms)] + rest))
  {
    hide Expand, Unwind, Leaves;
    var bare := Boundary(id, BlockValue, arms);
    var whole := Boundary(id, inner, arms);
    ReenterUnwinds(id, saved, arms, rest);
    BareUnwinds(saved, bare, rest);
    ExpandDormant(inner);
    ExpandWhole(id, inner, arms);
    if Leaves(k) == [] {
      assert Leaves(saved) == Leaves(inner);
      assert Leaves(k) + [whole] + rest == [whole] + rest;
      BoundaryUnwinds(id, inner, arms, rest);
    } else {
      UnwindConcat(Leaves(k), [whole] + rest);
      assert Leaves(k) + [whole] + rest == Leaves(k) + ([whole] + rest);
      UnwindConcat(Leaves(k), Leaves(inner));
      var front := Unwind(Leaves(k));
      calc {
        Expand(front + ([whole] + rest));
        { ExpandConcat(front, [whole] + rest); ExpandConcat([whole], rest); }
        Expand(front) + (Leaves(inner) + [bare] + Expand(rest));
      }
      calc {
        Expand(front + Leaves(inner) + [bare] + rest);
        { ExpandConcat(front + Leaves(inner) + [bare], rest); ExpandConcat(front + Leaves(inner), [bare]); ExpandConcat(front, Leaves(inner)); }
        Expand(front) + Leaves(inner) + [bare] + Expand(rest);
      }
      assert Expand(front) + (Leaves(inner) + [bare] + Expand(rest)) == Expand(front) + Leaves(inner) + [bare] + Expand(rest);
    }
  }

  lemma ExpandWhole(id: nat, inner: Cont, arms: seq<Arm>)
    ensures Expand([Boundary(id, inner, arms)]) == Leaves(inner) + [Boundary(id, BlockValue, arms)]
    ensures Expand([Boundary(id, BlockValue, arms)]) == [Boundary(id, BlockValue, arms)]
  {
    assert Expand([]) == [];
  }

  lemma ReenterUnwinds(id: nat, saved: Cont, arms: seq<Arm>, rest: seq<Cont>)
    ensures Unwind([Reenter(Boundary(id, saved, arms))] + rest)
         == Unwind(Leaves(saved)) + [Boundary(id, BlockValue, arms)] + rest
  {
    var frames := [Reenter(Boundary(id, saved, arms))] + rest;
    LeafSize(saved);
    assert frames[1..] == rest;
  }

  lemma BareUnwinds(saved: Cont, bare: Cont, rest: seq<Cont>)
    requires bare.Boundary? && bare.inner.BlockValue?
    ensures Unwind(Leaves(saved) + [bare] + rest) == Unwind(Leaves(saved)) + [bare] + rest
  {
    if Leaves(saved) == [] {
      assert Leaves(saved) + [bare] + rest == [bare] + rest;
    } else {
      UnwindConcat(Leaves(saved), [bare] + rest);
      assert Leaves(saved) + [bare] + rest == Leaves(saved) + ([bare] + rest);
    }
  }

  lemma BoundaryUnwinds(id: nat, inner: Cont, arms: seq<Arm>, rest: seq<Cont>)
    ensures Unwind([Boundary(id, inner, arms)] + rest)
         == Unwind(Leaves(inner)) + [Boundary(id, BlockValue, arms)] + rest
  {
    var frames := [Boundary(id, inner, arms)] + rest;
    LeafSize(inner);
    assert frames[1..] == rest;
  }

  // ------------------------------------------------------------- delivery

  lemma PassDormantLeaf(f: Flow, leaf: Cont)
    requires f.signal.Performed? && f.signal.request.Action? && Dormant(f.signal.cont)
    requires Dormant(leaf) && !leaf.Chain?
    ensures Propagate(f, leaf) == f.(signal := Performed(f.signal.request, Compose(f.signal.cont, leaf)))
    ensures Dormant(Compose(f.signal.cont, leaf))
  {
    assert !Raising(f.signal);
    assert !leaf.Boundary?;
    assert Propagate(f, leaf) == PassLeaf(f, leaf);
  }

  lemma DormantChain(k: Cont)
    requires Dormant(k) && k.Chain?
    ensures Dormant(k.inner) && Dormant(k.outer)
  {
  }

  /** An action passes a continuation without live boundaries and keeps all its frames in order. */
  lemma {:induction false} PassDormant(f: Flow, k: Cont)
    requires f.signal.Performed? && f.signal.request.Action? && Dormant(f.signal.cont) && Dormant(k)
    ensures var f' := Propagate(f, k);
            && f'.signal.Performed?
            && f' == f.(signal := Performed(f.signal.request, f'.signal.cont))
            && Leaves(f'.signal.cont) == Leaves(f.signal.cont) + Leaves(k)
            && Dormant(f'.signal.cont)
    decreases k
  {
    hide *;
    if k.Chain? {
      DormantChain(k);
      ChainLeaves(k.inner, k.outer);
      PassDormant(f, k.inner);
      PassDormant(Propagate(f, k.inner), k.outer);
      PropagateChain(f, k.inner, k.outer);
    } else {
      PassDormantLeaf(f, k);
    }
  }

  lemma TopDormant(m: Machine)
    requires Inv(m) && m.flow.signal.Performed? && m.stack != []
    ensures var top := m.stack[|m.stack| - 1];
            match top
            case HandlerFrame(id, inner, arms) =>
              && Dormant(inner)
              && m.flow.handlers == ScopesIn(StackLeaves(m.stack[..|m.stack| - 1])) + [Scope(id, arms)]
            case _ => Dormant(IntoContinuation(top))
  {
    hide TopIn, OccurrencesIn, NestedIn;
    var top := m.stack[|m.stack| - 1];
    var rest := StackLeaves(m.stack[..|m.stack| - 1]);
    assert top in m.stack && FrameOk(top);
    match top
    case HandlerFrame(id, inner, arms) =>
      var whole := Boundary(id, inner, arms);
      PopLeaves(m.stack);
      var a := Leaves(m.flow.signal.cont);
      assert Frames(m) == a + [whole] + rest;
      Decompose(a + [whole], rest, m.flow.handlers, m.next);
      Concat(a, [whole], TopIn(rest, -1));
      Single(whole, TopIn(rest, -1));
      LeavesSummary(m.flow.signal.cont, id);
      assert ScopesIn(a + [whole]) == [Scope(id, arms)];
    case CallFrame(k) =>
    case ContinuationFrame(k) =>
    case BlockFrame(k) => QuietSummary(k, -1);
    case ExprFrame(k) => QuietSummary(k, -1);
  }

  /** The saved continuation under a dispatched or re-entered boundary. */
  function Saved(signal: Signal): Cont
    requires signal.Eval? || signal.Performed?
  {
    match SignalCont(signal)
    case Boundary(_, inner, _) => if inner.Dispatch? then inner.outer else inner
    case Reenter(boundary) => if boundary.Boundary? then boundary.inner else BlockValue
    case k => k
  }

  /** The perform as it arrives at the bare boundary, with everything inside saved. */
  function Arriving(f: Flow, k: Cont, inner: Cont): Flow {
    var passed := if k.BlockValue? then f else Propagate(f, k);
    if inner.BlockValue? then passed else Propagate(passed, inner)
  }

  lemma ArriveAtBoundary(f: Flow, k: Cont, id: nat, inner: Cont, arms: seq<Arm>)
    requires f.signal.Performed? && f.signal.request.Action? && f.signal.cont.BlockValue?
    requires Dormant(k) && Dormant(inner)
    ensures var last := Arriving(f, k, inner);
            && last.signal.Performed? && Dormant(last.signal.cont)
            && Leaves(last.signal.cont) == Leaves(k) + Leaves(inner)
            && last == f.(signal := Performed(f.signal.request, last.signal.cont))
            && Propagate(f, Compose(k, Boundary(id, inner, arms))) == ContinueHandle(last, id, arms)
  {
    hide Leaves, Propagate, ContinueHandle;
    var whole := Boundary(id, inner, arms);
    PassDormant(f, k);
    PropagateChain(f, k, whole);
    var passed := if k.BlockValue? then f else Propagate(f, k);
    PassDormant(passed, inner);
    assert Leaves(BlockValue) == [] by {
      EmptyLeaves();
    }
    PropagateBoundary(passed, id, inner, arms);
  }


  lemma PopAtHandler(m: Machine)
    requires Inv(m) && m.flow.signal.Performed? && m.flow.signal.request.Action?
    requires m.stack != [] && m.stack[|m.stack| - 1].HandlerFrame?
    ensures var HandlerFrame(id, inner, arms) := m.stack[|m.stack| - 1];
            var f := m.flow;
            var r := PopPerform(m);
            && (r.flow.signal.Eval? || r.flow.signal.Performed?)
            && Dormant(inner) && Dormant(Saved(r.flow.signal))
            && Leaves(Saved(r.flow.signal)) == Leaves(f.signal.cont) + Leaves(inner)
            && f.handlers != [] && f.handlers[|f.handlers| - 1] == Scope(id, arms)
            && r.flow == if ScopeMatches(f.signal.request, arms)
               then f.(signal := Eval(EvalBlock, Boundary(id, Dispatch(Saved(r.flow.signal)), arms)))
               else f.(handlers := f.handlers[..|f.handlers| - 1],
                       signal := Performed(f.signal.request, Reenter(Boundary(id, Saved(r.flow.signal), arms))))
  {
    hide TopIn, OccurrencesIn, NestedIn, ScopesIn, Mirrored, Leaves, Propagate, Arriving, Dormant;
    var HandlerFrame(id, inner, arms) := m.stack[|m.stack| - 1];
    var f := m.flow;
    var rest := StackLeaves(m.stack[..|m.stack| - 1]);
    var k := f.signal.cont;
    TopDormant(m);
    AtHandlerMirrored(m);
    var start := f.(signal := Performed(f.signal.request, BlockValue));
    ArriveAtBoundary(start, k, id, inner, arms);
    var last := Arriving(start, k, inner);
    PerformAtBoundary(last, id, arms, rest, m.next);
    assert PopPerform(m).flow == ContinueHandle(last, id, arms);
  }

  lemma AtHandlerMirrored(m: Machine)
    requires Inv(m) && m.flow.signal.Performed?
    requires m.stack != [] && m.stack[|m.stack| - 1].HandlerFrame?
    ensures var HandlerFrame(id, inner, arms) := m.stack[|m.stack| - 1];
            Mirrored(Leaves(m.flow.signal.cont) + Leaves(inner) + [Boundary(id, BlockValue, arms)]
                     + StackLeaves(m.stack[..|m.stack| - 1]), m.flow.handlers, m.next)
  {
    hide TopIn, OccurrencesIn, NestedIn, ScopesIn, Mirrored;
    var HandlerFrame(id, inner, arms) := m.stack[|m.stack| - 1];
    var k := m.flow.signal.cont;
    var rest := StackLeaves(m.stack[..|m.stack| - 1]);
    PopLeaves(m.stack);
    assert Frames(m) == Leaves(k) + [Boundary(id, inner, arms)] + rest;
    SplitBoundary(Leaves(k), id, inner, arms, rest, m.flow.handlers, m.next);
  }

  lemma DormantPair(m: Machine)
    requires Inv(m) && m.flow.signal.Performed? && m.stack != []
    requires !m.stack[|m.stack| - 1].HandlerFrame?
    ensures Dormant(BlockValue)
    ensures Dormant(Compose(m.flow.signal.cont, IntoContinuation(m.stack[|m.stack| - 1])))
  {
    hide Inv;
    TopDormant(m);
    PerformedDormant(m);
    hide IntoContinuation;
  }

  lemma FrameLeavesOf(frame: Frame)
    ensures FrameLeaves(frame) == Leaves(IntoContinuation(frame))
  {
  }

  lemma PerformedDormant(m: Machine)
    requires Inv(m) && m.flow.signal.Performed?
    ensures Dormant(m.flow.signal.cont)
  {
  }

  lemma PopAtFrame(m: Machine)
    requires Inv(m) && m.flow.signal.Performed? && m.flow.signal.request.Action?
    requires m.stack != [] && !m.stack[|m.stack| - 1].HandlerFrame?
    ensures var r := PopPerform(m);
            && r.flow.signal.Performed?
            && r.flow == m.flow.(signal := Performed(m.flow.signal.request, r.flow.signal.cont))
            && Frames(r) == Frames(m)
  {
    hide Leaves, Raw, Inv, Dormant, StackLeaves, IntoContinuation, Propagate, Compose, FrameLeaves;
    PopLeaves(m.stack);
    DormantPair(m);
    StartFlowing(m.flow.signal.request);
    FrameLeavesOf(m.stack[|m.stack| - 1]);
    PassDormant(m.flow.(signal := Performed(m.flow.signal.request, BlockValue)),
                Compose(m.flow.signal.cont, IntoContinuation(m.stack[|m.stack| - 1])));
  }

  /** `r` runs an arm of scope `i` of `m`'s stack; everything inside that scope is saved. */
  ghost predicate Dispatched(m: Machine, r: Machine, i: nat)
    requires i < |m.flow.handlers|
  {
    var scope := m.flow.handlers[i];
    && Inv(r)
    && r.flow.signal.Eval?
    && r.flow.signal == Eval(EvalBlock, Boundary(scope.id, Dispatch(Saved(r.flow.signal)), scope.arms))
    && r.flow.handlers == m.flow.handlers[..i + 1]
    && Expand(Unwind(Leaves(Saved(r.flow.signal)) + [Boundary(scope.id, BlockValue, scope.arms)] + StackLeaves(r.stack)))
       == Expand(Unwind(Frames(m)))
  }

  predicate Innermost(request: Request, handlers: seq<Scope>, i: nat) {
    && i < |handlers|
    && ScopeMatches(request, handlers[i].arms)
    && (forall j | i < j < |handlers| :: !ScopeMatches(request, handlers[j].arms))
  }

  /** One step of a handled action: delivered, or one frame further out with every scope
      inside the popped ones still to be searched. */
  lemma StepDelivers(m: Machine, ch: Choice, i: nat)
    requires Inv(m) && m.flow.signal.Performed? && m.flow.signal.request.Action?
    requires Innermost(m.flow.signal.request, m.flow.handlers, i)
    ensures m.stack != []
    ensures var r := Step(m, ch);
            if r.flow.signal.Eval? then Dispatched(m, r, i)
            else && Inv(r) && r.flow.signal.Performed? && r.flow.signal.request == m.flow.signal.request
                 && |r.stack| == |m.stack| - 1
                 && i < |r.flow.handlers| <= |m.flow.handlers|
                 && r.flow.handlers == m.flow.handlers[..|r.flow.handlers|]
                 && Innermost(m.flow.signal.request, r.flow.handlers, i)
                 && Expand(Unwind(Frames(r))) == Expand(Unwind(Frames(m)))
  {
    hide TopIn, OccurrencesIn, NestedIn, Mirrored, Propagate, Inv, Unwind, Expand, Step, PerformStep, PopPerform, Frames, Leaves, StackLeaves, ScopeMatches;
    StackNotEmpty(m, i);
    StepPerformKeeps(m, ch);
    PerformStepPops(m, ch, i);
    PopSaves(m);
    PopShrinks(m);
    if m.stack[|m.stack| - 1].HandlerFrame? {
      PopAtHandler(m);
      assert m.flow.handlers[..|m.flow.handlers|] == m.flow.handlers;
    } else {
      PopAtFrame(m);
      assert m.flow.handlers[..|m.flow.handlers|] == m.flow.handlers;
    }
  }

  /** Every action that some open scope handles reaches the innermost such scope, within one
      step per stack frame, popping exactly the scopes inside it. That scope has an arm for the
      very symbol performed, and no scope inside it does. */
  lemma {:induction false} Deliver(m: Machine, choices: seq<Choice>, i: nat)
    requires Inv(m) && m.flow.signal.Performed? && m.flow.signal.request.Action?
    requires Innermost(m.flow.signal.request, m.flow.handlers, i)
    requires |choices| >= |m.stack|
    ensures exists n :: 1 <= n <= |m.stack| && Dispatched(m, Run(m, choices[..n]), i)
    ensures var symbol := m.flow.signal.request.symbol;
            && symbol.Some? && ActionArm(symbol) in m.flow.handlers[i].arms
            && forall j | i < j < |m.flow.handlers| :: ActionArm(symbol) !in m.flow.handlers[j].arms
    decreases |m.stack|
  {
    hide Inv, Unwind, Expand, Step, Dispatched, Frames, ScopeMatches;
    InnermostExactly(m.flow.signal.request, m.flow.handlers, i);
    StackNotEmpty(m, i);
    StepDelivers(m, choices[0], i);
    var r := Step(m, choices[0]);
    assert choices[..1][1..] == [];
    assert Run(m, choices[..1]) == r;
    if r.flow.signal.Eval? {
      assert Dispatched(m, Run(m, choices[..1]), i);
    } else {
      Deliver(r, choices[1..], i);
      var n :| 1 <= n <= |r.stack| && Dispatched(r, Run(r, choices[1..][..n]), i);
      assert choices[..n + 1][1..] == choices[1..][..n];
      assert Run(m, choices[..n + 1]) == Run(r, choices[1..][..n]);
      DispatchedThrough(m, r, Run(m, choices[..n + 1]), i);
    }
  }

  lemma InnermostExactly(request: Request, handlers: seq<Scope>, i: nat)
    requires request.Action? && Innermost(request, handlers, i)
    ensures request.symbol.Some? && ActionArm(request.symbol) in handlers[i].arms
    ensures forall j | i < j < |handlers| :: ActionArm(request.symbol) !in handlers[j].arms
  {
    forall j | i <= j < |handlers| {
      ScopeMatchesExactly(request, handlers[j].arms);
    }
  }

  lemma DispatchedThrough(m: Machine, mid: Machine, r: Machine, i: nat)
    requires i < |mid.flow.handlers| <= |m.flow.handlers|
    requires mid.flow.handlers == m.flow.handlers[..|mid.flow.handlers|]
    requires Expand(Unwind(Frames(mid))) == Expand(Unwind(Frames(m)))
    requires Dispatched(mid, r, i)
    ensures Dispatched(m, r, i)
  {
    hide Expand, Unwind, Frames, Inv, StackLeaves, Leaves, Saved;
    assert mid.flow.handlers[..i + 1] == m.flow.handlers[..i + 1];
  }

  lemma StackNotEmpty(m: Machine, i: nat)
    requires Inv(m) && m.flow.signal.Performed? && i < |m.flow.handlers|
    ensures m.stack != []
  {
    if m.stack == [] {
      assert Frames(m) == Leaves(m.flow.signal.cont);
      LeavesSummary(m.flow.signal.cont, -1);
    }
  }

  lemma PerformStepPops(m: Machine, ch: Choice, i: nat)
    requires m.flow.signal.Performed? && m.stack != []
    requires Innermost(m.flow.signal.request, m.flow.handlers, i)
    ensures PerformStep(m, ch) == PopPerform(m)
  {
    assert Handled(m.flow.signal.request, m.flow.handlers);
  }

  lemma PopShrinks(m: Machine)
    requires m.flow.signal.Performed? && m.stack != []
    ensures |PopPerform(m).stack| == |m.stack| - 1
  {
  }

  /** One perform step keeps what resuming will run. */
  lemma PopSaves(m: Machine)
    requires Inv(m) && m.flow.signal.Performed? && m.flow.signal.request.Action? && m.stack != []
    ensures var r := PopPerform(m);
            && (r.flow.signal.Performed? ==> Expand(Unwind(Frames(r))) == Expand(Unwind(Frames(m))))
            && (r.flow.signal.Eval? && SignalCont(r.flow.signal).Boundary? ==>
                  var k := SignalCont(r.flow.signal);
                  Expand(Unwind(Leaves(Saved(r.flow.signal)) + [Boundary(k.id, BlockValue, k.arms)] + StackLeaves(r.stack)))
                  == Expand(Unwind(Frames(m))))
  {
    hide TopIn, OccurrencesIn, NestedIn, ScopesIn, Mirrored, Propagate, Expand, Unwind, Inv, Dormant, StackLeaves;
    var top := m.stack[|m.stack| - 1];
    var r := PopPerform(m);
    PopLeaves(m.stack);
    var rest := StackLeaves(m.stack[..|m.stack| - 1]);
    match top
    case HandlerFrame(id, inner, arms) =>
      PopAtHandler(m);
      var k := m.flow.signal.cont;
      assert Frames(m) == Leaves(k) + [Boundary(id, inner, arms)] + rest;
      SavedUnwinds(k, id, inner, arms, Saved(r.flow.signal), rest);
      if r.flow.signal.Performed? {
        assert Frames(r) == [Reenter(Boundary(id, Saved(r.flow.signal), arms))] + rest;
      }
    case _ => PopAtFrame(m);
  }

  // ------------------------------------------------------------ resuming

  /** A value is on its way to whatever runs next. */
  predicate Carries(m: Machine, v: Value) {
    match m.flow.signal
    case Completed(w) => w == v
    case Apply(_, OnValue(w)) => w == v
    case _ => false
  }

  function RawSize(stack: seq<Frame>): nat {
    if stack == [] then 0
    else |Raw(IntoContinuation(stack[|stack| - 1]))| + RawSize(stack[..|stack| - 1])
  }

  lemma {:induction false} PushRawSize(stack: seq<Frame>, conts: seq<Cont>)
    requires forall k <- conts :: !k.Chain?
    ensures RawSize(PushFrames(stack, conts)) == |conts| + RawSize(stack)
  {
    if conts != [] {
      PushRawSize(stack, conts[1..]);
      var below := PushFrames(stack, conts[1..]);
      var top := FromContinuation(conts[0]);
      assert (below + [top])[..|below|] == below;
      assert IntoContinuation(top) == conts[0] && Raw(conts[0]) == [conts[0]];
    }
  }

  function Weight(m: Machine): nat {
    match m.flow.signal
    case Apply(k, _) => 2 * |Raw(k)| + 2 * RawSize(m.stack)
    case _ => 2 * RawSize(m.stack) + 1
  }

  /** One step of a value over administrative structure: nothing is run, nothing is lost. */
  lemma SettleStep(m: Machine, ch: Choice, v: Value)
    requires Inv(m) && Carries(m, v)
    requires Frames(m) != [] && Administrative(Frames(m)[0])
    ensures var r := Step(m, ch);
            && Inv(r) && Carries(r, v)
            && Unwind(Frames(r)) == Unwind(Frames(m))
            && FrontSize(Frames(r)) <= FrontSize(Frames(m))
            && (FrontSize(Frames(r)) == FrontSize(Frames(m)) ==> Weight(r) < Weight(m))
  {
    StepKeeps(m, ch);
    if m.flow.signal.Completed? {
      SettlePop(m, ch, v);
    } else {
      SettleApply(m, ch, v);
    }
  }

  lemma NoFrames()
    ensures StackLeaves([]) == []
  {
  }

  lemma TopFrame(m: Machine)
    requires Inv(m) && m.stack != [] && !m.flow.signal.Fault?
    ensures FrameOk(m.stack[|m.stack| - 1])
  {
    hide FrameOk, Mirrored;
  }

  /** A frame of plain code keeps its quiet leaves; an administrative front frame rules it out
      or passes the value on unchanged. */
  lemma FrontNotQuiet(top: Frame, rest: seq<Cont>)
    requires FrameOk(top) && FrameLeaves(top) + rest != []
    requires Administrative((FrameLeaves(top) + rest)[0])
    ensures !top.CallFrame?
  {
  }

  lemma SettlePop(m: Machine, ch: Choice, v: Value)
    requires Inv(m) && m.flow.signal == Completed(v)
    requires Frames(m) != [] && Administrative(Frames(m)[0])
    ensures Carries(Step(m, ch), v) && Frames(Step(m, ch)) == Frames(m) && Weight(Step(m, ch)) < Weight(m)
  {
    hide Unwind, Leaves, StackLeaves, Inv;
    EmptyLeaves();
    assert Frames(m) == StackLeaves(m.stack);
    NoFrames();
    PopLeaves(m.stack);
    var top := m.stack[|m.stack| - 1];
    TopFrame(m);
    FrontNotQuiet(top, StackLeaves(m.stack[..|m.stack| - 1]));
  }

  lemma SettleApply(m: Machine, ch: Choice, v: Value)
    requires Inv(m) && Inv(Step(m, ch)) && m.flow.signal.Apply? && Carries(m, v)
    requires Frames(m) != [] && Administrative(Frames(m)[0])
    ensures var r := Step(m, ch);
            && Carries(r, v)
            && Unwind(Frames(r)) == Unwind(Frames(m))
            && FrontSize(Frames(r)) <= FrontSize(Frames(m))
            && (FrontSize(Frames(r)) == FrontSize(Frames(m)) ==> Weight(r) < Weight(m))
  {
    hide Unwind, Mirrored, NestedIn, TopIn, OccurrencesIn, ScopesIn, FrontSize, Frames, StackLeaves, PushFrames;
    var k := m.flow.signal.cont;
    var raw := Raw(k);
    var first := raw[0];
    var pushed := PushFrames(m.stack, raw[1..]);
    var rest := StackLeaves(pushed);
    FramesOfApply(m);
    PushOuter(m.stack, k, m.flow.handlers, m.next);
    PushRawSize(m.stack, raw[1..]);
    assert Frames(m) == Leaves(first) + rest;
    var r := Step(m, ch);
    if first.BlockValue? {
      FramesOfStep(r);
      assert Frames(r) == rest;
    } else {
      assert first == Frames(m)[0];
      AdministrativeStep(m.flow, first, v, ch, rest, m.next);
      var r' := ApplyFrame(m.flow, first, OnValue(v), ch, m.next);
      assert r.flow == r';
      FramesOfStep(r);
    }
  }

  lemma FramesOfApply(m: Machine)
    ensures Frames(m) == Leaves(SignalCont(m.flow.signal)) + StackLeaves(m.stack)
  {
  }

  lemma FramesOfStep(m: Machine)
    ensures Frames(m) == Leaves(SignalCont(m.flow.signal)) + StackLeaves(m.stack)
    ensures m.flow.signal.Completed? ==> Frames(m) == StackLeaves(m.stack)
  {
  }

  lemma AdministrativeStep(f: Flow, first: Cont, v: Value, ch: Choice, rest: seq<Cont>, next: nat)
    requires Administrative(first)
    ensures var f' := ApplyFrame(f, first, OnValue(v), ch, next);
            f'.signal.Fault? ||
            var frames := Leaves(SignalCont(f'.signal)) + rest;
            && f'.signal.Apply? && f'.signal.input == OnValue(v)
            && Unwind(frames) == Unwind([first] + rest)
            && FrontSize(frames) < FrontSize([first] + rest)
  {
    match first
    case Reenter(boundary) =>
      ReenterUnwinds(boundary.id, boundary.inner, boundary.arms, rest);
      BoundaryUnwinds(boundary.id, boundary.inner, boundary.arms, rest);
    case Boundary(id, inner, arms) =>
      var bare := Boundary(id, BlockValue, arms);
      BoundaryUnwinds(id, inner, arms, rest);
      BareUnwinds(inner, bare, rest);
      SplitShrinks(id, inner, arms, rest);
      assert Leaves(Compose(inner, bare)) == Leaves(inner) + [bare];
  }

  lemma SplitShrinks(id: nat, inner: Cont, arms: seq<Arm>, rest: seq<Cont>)
    requires !inner.BlockValue?
    ensures FrontSize(Leaves(inner) + [Boundary(id, BlockValue, arms)] + rest)
          < FrontSize([Boundary(id, inner, arms)] + rest)
  {
    var bare := Boundary(id, BlockValue, arms);
    var frames := Leaves(inner) + [bare] + rest;
    LeafSize(inner);
    SizeGrows(inner);
    assert Size(bare) == 2;
    assert Size(Boundary(id, inner, arms)) == 1 + Size(inner);
    if Leaves(inner) == [] {
      assert frames[0] == bare;
    } else {
      assert frames[0] == Leaves(inner)[0] && frames[0] in Leaves(inner);
    }
  }

  lemma SizeGrows(k: Cont)
    ensures Size(k) >= 1 && (!k.BlockValue? && Leaves(k) == [] ==> Size(k) >= 3)
  {
  }

  /** A value settles: it rebuilds every administrative frame in front and stops there. */
  lemma {:induction false} Settles(m: Machine, choices: Choice, v: Value)
    requires Inv(m) && Carries(m, v)
    ensures exists n: nat :: SettledAfter(m, choices, n, v)
    decreases FrontSize(Frames(m)), Weight(m)
  {
    hide Inv, Unwind, Step, Weight, FrontSize, Frames;
    if Frames(m) == [] || !Administrative(Frames(m)[0]) {
      UnwindStops(m);
      assert Run(m, Repeat(choices, 0)) == m;
      assert SettledAfter(m, choices, 0, v);
    } else {
      SettleStep(m, choices, v);
      Settles(Step(m, choices), choices, v);
      var n: nat :| SettledAfter(Step(m, choices), choices, n, v);
      assert Repeat(choices, n + 1)[1..] == Repeat(choices, n);
      assert SettledAfter(m, choices, n + 1, v);
    }
  }

  function Repeat(ch: Choice, n: nat): seq<Choice> {
    seq(n, i => ch)
  }

  lemma UnwindStops(m: Machine)
    requires Frames(m) == [] || !Administrative(Frames(m)[0])
    ensures Unwind(Frames(m)) == Frames(m)
  {
  }

  ghost predicate SettledAfter(m: Machine, ch: Choice, n: nat, v: Value) {
    var r := Run(m, Repeat(ch, n));
    Inv(r) && Carries(r, v) && Frames(r) == Unwind(Frames(m))
  }

  /** However the arm got there, once `resume v` reaches its handler three steps bring the
      value to the saved continuation, under the boundary it was performed in. */
  lemma ArmResumes(below: seq<Frame>, h: Machine, scope: Scope, saved: Cont, ch: Choice, v: Value)
    requires AtItsHandler(below, h, scope, saved, v)
    ensures Run(h, Repeat(ch, 3)) ==
            Machine(below + [HandlerFrame(scope.id, BlockValue, scope.arms)],
                    h.flow.(signal := Apply(saved, OnValue(v))), h.next)
    ensures Inv(h) ==> Inv(Run(h, Repeat(ch, 3)))
  {
    hide Run, Inv, Step, PushFrames, Raw;
    var whole := Boundary(scope.id, Dispatch(saved), scope.arms);
    var f := h.flow;
    var s1 := Machine(below, f.(signal := Apply(whole, OnResume(v))), h.next);
    PopResumed(h, below, HandlerFrame(scope.id, Dispatch(saved), scope.arms), ch, v);
    var s2 := Machine(below, f.(signal := Apply(Chain(Dispatch(saved), Boundary(scope.id, BlockValue, scope.arms)), OnResume(v))), h.next);
    SplitResumed(s1, scope, saved, ch, v);
    DispatchResumed(s2, scope, saved, ch, v);
    ThreeSteps(h, ch, s1, s2);
  }

  /** A value the arm resumes with has reached the frame of the handler that runs the arm. */
  predicate AtItsHandler(below: seq<Frame>, h: Machine, scope: Scope, saved: Cont, v: Value) {
    h.flow.signal == Resumed(v) && h.stack == below + [HandlerFrame(scope.id, Dispatch(saved), scope.arms)]
  }

  /** The shortest such arm emits `resume v` at once. */
  lemma ArmAtOnce(m: Machine, scope: Scope, saved: Cont, ch: Choice, v: Value)
    requires m.flow.signal == Eval(EvalBlock, Boundary(scope.id, Dispatch(saved), scope.arms))
    requires ch.emission == Resumed(v)
    ensures AtItsHandler(m.stack, Run(m, Repeat(ch, 3)), scope, saved, v)
    ensures NoLeak(m, Repeat(ch, 3))
  {
    hide Run, Inv, Step, PushFrames, Raw;
    var handler := HandlerFrame(scope.id, Dispatch(saved), scope.arms);
    var f := m.flow;
    var s1 := Machine(m.stack + [handler] + [BlockFrame(BlockValue)], f.(signal := Resumed(v)), m.next);
    EntersArm(m, scope, saved, ch, v);
    var s2 := Machine(m.stack + [handler], f.(signal := Apply(BlockValue, OnResume(v))), m.next);
    PopResumed(s1, m.stack + [handler], BlockFrame(BlockValue), ch, v);
    IdentityResumed(s2, ch, v);
    ThreeSteps(m, ch, s1, s2);
  }

  lemma EntersArm(m: Machine, scope: Scope, saved: Cont, ch: Choice, v: Value)
    requires m.flow.signal == Eval(EvalBlock, Boundary(scope.id, Dispatch(saved), scope.arms))
    requires ch.emission == Resumed(v)
    ensures Step(m, ch) ==
            Machine(m.stack + [HandlerFrame(scope.id, Dispatch(saved), scope.arms)] + [BlockFrame(BlockValue)],
                    m.flow.(signal := Resumed(v)), m.next)
  {
    var whole := Boundary(scope.id, Dispatch(saved), scope.arms);
    PushOne(m.stack, whole);
    assert Leaves(whole) == [whole];
  }

  lemma PushOne(stack: seq<Frame>, k: Cont)
    ensures PushFrames(stack, [k]) == stack + [FromContinuation(k)]
    ensures PushFrames(stack, []) == stack
  {
    assert [k][1..] == [];
  }

  lemma PopResumed(m: Machine, below: seq<Frame>, top: Frame, ch: Choice, v: Value)
    requires m.stack == below + [top] && m.flow.signal == Resumed(v)
    requires top.BlockFrame? || top.HandlerFrame?
    ensures Step(m, ch) == Machine(below, m.flow.(signal := Apply(IntoContinuation(top), OnResume(v))), m.next)
  {
    assert m.stack[..|m.stack| - 1] == below;
  }

  lemma IdentityResumed(m: Machine, ch: Choice, v: Value)
    requires m.flow.signal == Apply(BlockValue, OnResume(v))
    ensures Step(m, ch) == m.(flow := m.flow.(signal := Resumed(v)))
  {
    assert Raw(BlockValue)[1..] == [];
  }

  lemma SplitResumed(m: Machine, scope: Scope, saved: Cont, ch: Choice, v: Value)
    requires m.flow.signal == Apply(Boundary(scope.id, Dispatch(saved), scope.arms), OnResume(v))
    ensures Step(m, ch) ==
            m.(flow := m.flow.(signal := Apply(Chain(Dispatch(saved), Boundary(scope.id, BlockValue, scope.arms)), OnResume(v))))
  {
    assert Raw(m.flow.signal.cont)[1..] == [];
  }

  lemma DispatchResumed(m: Machine, scope: Scope, saved: Cont, ch: Choice, v: Value)
    requires m.flow.signal == Apply(Chain(Dispatch(saved), Boundary(scope.id, BlockValue, scope.arms)), OnResume(v))
    ensures Step(m, ch) ==
            Machine(m.stack + [HandlerFrame(scope.id, BlockValue, scope.arms)],
                    m.flow.(signal := Apply(saved, OnValue(v))), m.next)
  {
    var bare := Boundary(scope.id, BlockValue, scope.arms);
    assert Raw(Chain(Dispatch(saved), bare)) == [Dispatch(saved), bare];
    assert [Dispatch(saved), bare][1..] == [bare];
    PushOne(m.stack, bare);
  }

  lemma RunOne(m: Machine, ch: Choice, n: nat)
    ensures Run(m, Repeat(ch, n + 1)) == Run(Step(m, ch), Repeat(ch, n))
    ensures Run(m, Repeat(ch, 0)) == m
  {
    assert Repeat(ch, n + 1)[1..] == Repeat(ch, n);
  }

  lemma ThreeSteps(m: Machine, ch: Choice, s1: Machine, s2: Machine)
    requires Step(m, ch) == s1 && Step(s1, ch) == s2
    requires !Leaks(m) && !Leaks(s1) && !Leaks(s2)
    ensures Run(m, Repeat(ch, 3)) == Step(s2, ch)
    ensures NoLeak(m, Repeat(ch, 3))
    ensures Inv(m) ==> Inv(Step(s2, ch))
  {
    hide Step, Run, Inv, Leaks;
    RunOne(m, ch, 2);
    RunOne(s1, ch, 1);
    RunOne(s2, ch, 0);
    RunOne(Step(s2, ch), ch, 0);
    assert Repeat(ch, 3)[1..] == Repeat(ch, 2) && Repeat(ch, 2)[1..] == Repeat(ch, 1) && Repeat(ch, 1)[1..] == [];
    assert NoLeak(s2, Repeat(ch, 1));
    assert NoLeak(s1, Repeat(ch, 2));
    if Inv(m) {
      StepKeeps(m, ch);
      StepKeeps(s1, ch);
      StepKeeps(s2, ch);
    }
  }

  // -------------------------------------------------- the handlers come back

  lemma {:induction false} ExpandScopes(frames: seq<Cont>, floor: int)
    requires NestedIn(frames, floor)
    ensures ScopesIn(Expand(frames)) == ScopesIn(frames)
  {
    hide Nested, Leaves;
    if frames != [] {
      var k := frames[0];
      ExpandScopes(frames[1..], floor);
      ConcatScopes(ExpandLeaf(k), Expand(frames[1..]), floor);
      ExpandLeafScopes(k, TopIn(frames[1..], floor));
    }
  }

  lemma ExpandLeafScopes(k: Cont, floor: int)
    requires Nested(k, floor)
    ensures ScopesIn(ExpandLeaf(k)) == ScopeOf(k)
  {
    if k.Boundary? {
      var bare := Boundary(k.id, BlockValue, k.arms);
      LeavesSummary(k.inner, k.id);
      ConcatScopes(Leaves(k.inner), [bare], floor);
      Single(bare, floor);
      assert ScopesIn([bare]) + [] == ScopesIn([bare]);
    } else {
      Single(k, floor);
    }
  }

  lemma {:induction false} UnwindNested(frames: seq<Cont>, floor: int)
    requires NestedIn(frames, floor)
    ensures NestedIn(Unwind(frames), floor)
    decreases FrontSize(frames)
  {
    hide Leaves, TopIn;
    if frames != [] && Administrative(frames[0]) {
      var boundary := if frames[0].Reenter? then frames[0].boundary else frames[0];
      LeafSize(boundary.inner);
      var inner := Leaves(boundary.inner);
      var outer := TopIn(frames[1..], floor);
      assert inner != [] ==> inner[0] in inner;
      assert Size(boundary.inner) < Size(frames[0]);
      var bare := Boundary(boundary.id, BlockValue, boundary.arms);
      assert Nested(boundary, outer) && Nested(bare, outer);
      LeavesSummary(boundary.inner, boundary.id);
      UnwindNested(inner, boundary.id);
      Single(bare, outer);
      ConcatScopes(Unwind(inner), [bare], outer);
      ConcatScopes(Unwind(inner) + [bare], frames[1..], floor);
    }
  }

  /** `r` is back where `m` performed: the same frames in the same order carrying `v`, and on
      the handler stack the scopes of those frames. */
  ghost predicate Restored(m: Machine, r: Machine, v: Value) {
    && Inv(r) && Carries(r, v)
    && Expand(Frames(r)) == Expand(Unwind(Frames(m)))
    && r.flow.handlers == ScopesIn(Unwind(Frames(m)))
  }

  lemma HandlersBack(m: Machine, r: Machine, v: Value)
    requires Inv(m) && m.flow.signal.Performed? && Inv(r) && Carries(r, v)
    requires Expand(Frames(r)) == Expand(Unwind(Frames(m)))
    ensures r.flow.handlers == ScopesIn(Unwind(Frames(m)))
  {
    hide Expand, Unwind, ScopesIn, Frames, TopIn, NestedIn;
    ExpandScopes(Frames(r), -1);
    UnwindNested(Frames(m), -1);
    ExpandScopes(Unwind(Frames(m)), -1);
  }

  /** Forwarding is a round trip for any nesting depth and any run of the arm: when `resume v`
      reaches the handler that `m`'s action was delivered to, the value reaches the frames the
      action was performed in, with every crossed scope open again. */
  lemma ResumeRestores(m: Machine, i: nat, d: Machine, arm: seq<Choice>, ch: Choice, v: Value)
    requires Inv(m) && m.flow.signal.Performed? && i < |m.flow.handlers| && Dispatched(m, d, i)
    requires NoLeak(d, arm) && AtItsHandler(d.stack, Run(d, arm), m.flow.handlers[i], Saved(d.flow.signal), v)
    ensures exists n: nat :: Restored(m, Run(d, arm + Repeat(ch, n)), v)
  {
    hide Inv, Unwind, Expand, Frames, Step, Run, NoLeak;
    var scope, saved := m.flow.handlers[i], Saved(d.flow.signal);
    var h := Run(d, arm);
    RunKeeps(d, arm);
    ArmResumes(d.stack, h, scope, saved, ch, v);
    var b := Run(h, Repeat(ch, 3));
    ResumedFrames(d, b, scope, saved);
    Settles(b, ch, v);
    var k: nat :| SettledAfter(b, ch, k, v);
    var z := Run(b, Repeat(ch, k));
    RunConcat(h, Repeat(ch, 3), Repeat(ch, k));
    assert Repeat(ch, 3) + Repeat(ch, k) == Repeat(ch, 3 + k);
    RunConcat(d, arm, Repeat(ch, 3 + k));
    HandlersBack(m, z, v);
    assert Restored(m, Run(d, arm + Repeat(ch, 3 + k)), v);
  }

  /** In particular the handler stack is the one at the perform, unless the value has yet to
      pass a saved re-entry in front of the performing frames. */
  lemma HandlersAsPerformed(m: Machine, r: Machine, v: Value)
    requires Inv(m) && m.flow.signal.Performed? && Restored(m, r, v)
    requires Frames(m) == [] || !Administrative(Frames(m)[0])
    ensures r.flow.handlers == m.flow.handlers
  {
    hide Expand, TopIn, NestedIn, OccurrencesIn;
    UnwindStops(m);
  }

  /** Such a run exists for every action that a scope handles: deliver it, resume at once. */
  lemma ResumeAtOnceRestores(m: Machine, i: nat, ch: Choice, v: Value)
    requires Inv(m) && m.flow.signal.Performed? && m.flow.signal.request.Action?
    requires Innermost(m.flow.signal.request, m.flow.handlers, i)
    requires ch.emission == Resumed(v)
    ensures exists choices :: Restored(m, Run(m, choices), v)
  {
    hide Inv, Unwind, Expand, Frames, Step, Run, NoLeak, Restored, AtItsHandler;
    var down := Repeat(ch, |m.stack|);
    Deliver(m, down, i);
    var n :| 1 <= n <= |m.stack| && Dispatched(m, Run(m, down[..n]), i);
    var d := Run(m, down[..n]);
    ArmAtOnce(d, m.flow.handlers[i], Saved(d.flow.signal), ch, v);
    ResumeRestores(m, i, d, Repeat(ch, 3), ch, v);
    var k: nat :| Restored(m, Run(d, Repeat(ch, 3) + Repeat(ch, k)), v);
    RunConcat(m, down[..n], Repeat(ch, 3) + Repeat(ch, k));
  }

  lemma ResumedFrames(d: Machine, b: Machine, scope: Scope, saved: Cont)
    requires b.stack == d.stack + [HandlerFrame(scope.id, BlockValue, scope.arms)]
    requires SignalCont(b.flow.signal) == saved
    ensures Frames(b) == Leaves(saved) + [Boundary(scope.id, BlockValue, scope.arms)] + StackLeaves(d.stack)
  {
    assert b.stack[..|b.stack| - 1] == d.stack;
  }
}
