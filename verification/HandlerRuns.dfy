/** Every step and every run of the machine keeps the handler stack a mirror of the
    live boundaries; only a break or continue that leaves a boundary breaks it. */
module HandlerRuns {
  import opened Continuations
  import opened HandlerMachine
  import opened HandlerMirror

  /** A break or continue is about to pass a boundary, which no frame closes. */
  predicate Leaks(m: Machine) {
    match m.flow.signal
    case Apply(k, input) => (input.OnBreak? || input.OnContinue?) && Raw(k)[0].Boundary?
    case _ => false
  }

  // ------------------------------------------------------ pushing frames

  lemma {:induction false} CallsQuiet(frames: seq<Cont>, floor: int)
    requires NestedIn(frames, floor)
    ensures forall k <- frames :: k.CallBoundary? ==> Quiet(k.outer)
  {
    if frames != [] {
      CallsQuiet(frames[1..], floor);
    }
  }

  lemma {:induction false} PushLeaves(stack: seq<Frame>, conts: seq<Cont>)
    requires forall k <- conts :: !k.Chain? && (k.CallBoundary? ==> Quiet(k.outer))
    requires forall frame <- stack :: FrameOk(frame)
    ensures StackLeaves(PushFrames(stack, conts)) == LeavesOf(conts) + StackLeaves(stack)
    ensures forall frame <- PushFrames(stack, conts) :: FrameOk(frame)
  {
    if conts != [] {
      PushLeaves(stack, conts[1..]);
      var below := PushFrames(stack, conts[1..]);
      var top := FromContinuation(conts[0]);
      assert (below + [top])[..|below|] == below;
      assert IntoContinuation(top) == conts[0];
      assert FrameOk(top);
      assert FrameLeaves(top) == Leaves(conts[0]);
    }
  }

  lemma {:induction false} RawCallsQuiet(k: Cont)
    ensures forall leaf <- Raw(k) :: leaf.BlockValue? || leaf in Leaves(k)
  {
    match k
    case Chain(inner, outer) =>
      RawCallsQuiet(inner);
      RawCallsQuiet(outer);
    case _ =>
  }

  /** Pushing all but the first frame of an applied continuation. */
  lemma PushOuter(stack: seq<Frame>, k: Cont, handlers: seq<Scope>, next: nat)
    requires Mirrored(Leaves(k) + StackLeaves(stack), handlers, next)
    requires forall frame <- stack :: FrameOk(frame)
    ensures var pushed := PushFrames(stack, Raw(k)[1..]);
            && Leaves(k) + StackLeaves(stack) == Leaves(Raw(k)[0]) + StackLeaves(pushed)
            && (forall frame <- pushed :: FrameOk(frame))
  {
    hide *;
    var raw := Raw(k);
    var outer := raw[1..];
    Decompose(Leaves(k), StackLeaves(stack), handlers, next);
    CallsQuiet(Leaves(k), TopIn(StackLeaves(stack), -1));
    RawCallsQuiet(k);
    RawLeaves(k);
    assert forall leaf <- outer :: leaf in raw;
    PushLeaves(stack, outer);
    RawSplit(raw);
    assert LeavesOf(outer) + StackLeaves(stack) == StackLeaves(PushFrames(stack, outer));
  }

  lemma RawSplit(raw: seq<Cont>)
    requires raw != []
    ensures LeavesOf(raw) == Leaves(raw[0]) + LeavesOf(raw[1..])
  {
  }

  lemma {:induction false} LeavesOfLeaves(frames: seq<Cont>)
    requires forall k <- frames :: !k.Chain? && !k.BlockValue?
    ensures LeavesOf(frames) == frames
  {
    if frames != [] {
      LeavesOfLeaves(frames[1..]);
    }
  }

  // ---------------------------------------------- replacing the front frame

  /** The front frame gives way to a dormant continuation with no more scopes in it. */
  lemma Swap(first: Cont, q: Cont, rest: seq<Cont>, handlers: seq<Scope>, next: nat)
    requires !first.Chain? && !first.Boundary? && Dormant(q)
    requires Mirrored(Leaves(first) + rest, handlers, next)
    requires Nested(q, TopIn(rest, -1))
    requires forall id: nat :: Occurrences(q, id) <= Occurrences(first, id)
    ensures Mirrored(Leaves(q) + rest, handlers, next)
  {
    hide ScopesIn, NestedIn, TopIn, OccurrencesIn;
    var floor := TopIn(rest, -1);
    Decompose(Leaves(first), rest, handlers, next);
    LeavesSummary(q, floor);
    LeavesSummary(first, floor);
    Front(Leaves(q), Leaves(first), rest, handlers, next, next);
  }

  lemma SwapQuiet(first: Cont, q: Cont, rest: seq<Cont>, handlers: seq<Scope>, next: nat)
    requires !first.Chain? && !first.Boundary? && Quiet(q)
    requires Mirrored(Leaves(first) + rest, handlers, next)
    ensures Mirrored(Leaves(q) + rest, handlers, next)
  {
    hide ScopesIn, NestedIn, TopIn, OccurrencesIn, Mirrored;
    QuietSummary(q, TopIn(rest, -1));
    Swap(first, q, rest, handlers, next);
  }

  lemma FrontNested(first: Cont, rest: seq<Cont>, handlers: seq<Scope>, next: nat)
    requires !first.Chain? && Mirrored(Leaves(first) + rest, handlers, next)
    ensures Nested(first, TopIn(rest, -1))
  {
    hide ScopesIn, NestedIn, TopIn, OccurrencesIn;
    Decompose(Leaves(first), rest, handlers, next);
    LeavesSummary(first, TopIn(rest, -1));
  }

  /** Closing the boundary in front never faults and pops exactly its scope. */
  lemma CloseKeeps(f: Flow, id: nat, inner: Cont, arms: seq<Arm>, rest: seq<Cont>, next: nat)
    requires Mirrored([Boundary(id, inner, arms)] + rest, f.handlers, next)
    ensures f.handlers == ScopesIn(rest) + [Scope(id, arms)]
    ensures CloseScope(f, id) == f.(handlers := ScopesIn(rest))
    ensures Mirrored([] + rest, ScopesIn(rest), next)
  {
    hide TopIn, OccurrencesIn;
    var first := Boundary(id, inner, arms);
    Decompose([first], rest, f.handlers, next);
    Single(first, TopIn(rest, -1));
    forall other: nat ensures OccurrencesIn([], other) == 0 {
      EmptyOccurrences(other);
    }
    Front([], [first], rest, f.handlers, next, next);
    assert ScopesIn(rest) + [] == ScopesIn(rest);
  }

  lemma ReenterKeeps(f: Flow, boundary: Cont, v: Value, rest: seq<Cont>, next: nat)
    requires Mirrored([Reenter(boundary)] + rest, f.handlers, next)
    requires forall k <- rest :: !k.Chain?
    ensures boundary.Boundary?
    ensures ReenterScope(f, boundary, v) ==
            f.(handlers := f.handlers + [Scope(boundary.id, boundary.arms)], signal := Apply(boundary, OnValue(v)))
    ensures Mirrored([boundary] + rest, f.handlers + [Scope(boundary.id, boundary.arms)], next)
  {
    hide NestedIn, OccurrencesIn;
    var first := Reenter(boundary);
    var floor := TopIn(rest, -1);
    Decompose([first], rest, f.handlers, next);
    Single(first, floor);
    Single(boundary, floor);
    TopOfScopes(rest);
    assert Nested(first, floor) && boundary.Boundary?;
    assert f.handlers == ScopesIn(rest);
    forall id: nat ensures OccurrencesIn([boundary], id) == OccurrencesIn([first], id) {
      assert Occurrences(first, id) == Occurrences(boundary, id);
    }
    Front([boundary], [first], rest, f.handlers, next, next);
  }

  lemma OpenKeeps(handlers: seq<Scope>, arms: seq<Arm>, rest: seq<Cont>, next: nat)
    requires Mirrored([HandleHandler] + rest, handlers, next)
    requires forall k <- rest :: !k.Chain?
    ensures Mirrored([Boundary(next, BlockValue, arms)] + rest, handlers + [Scope(next, arms)], next + 1)
  {
    hide NestedIn, OccurrencesIn;
    var first := HandleHandler;
    var installed := Boundary(next, BlockValue, arms);
    var floor := TopIn(rest, -1);
    Decompose([first], rest, handlers, next);
    Single(first, floor);
    Single(installed, floor);
    TopOfScopes(rest);
    assert handlers == ScopesIn(rest);
    if ScopesIn(rest) != [] {
      var top := ScopesIn(rest)[|ScopesIn(rest)| - 1].id;
      assert OccurrencesIn([first], top) + OccurrencesIn(rest, top) > 0;
    }
    forall id: nat
      ensures OccurrencesIn([installed], id) <= OccurrencesIn([first], id) || (OccurrencesIn([installed], id) <= 1 && next <= id < next + 1)
    {
      assert OccurrencesIn([installed], id) == Occurrences(installed, id);
      assert Occurrences(BlockValue, id) == 0;
      assert OccurrencesIn([first], id) == Occurrences(first, id);
    }
    Front([installed], [first], rest, handlers, next, next + 1);
  }

  // ------------------------------------------------------ one frame, one input

  /** What a frame leaves behind: still mirrored, and never a handler-stack fault. */
  ghost predicate Kept(f: Flow, rest: seq<Cont>, next: nat) {
    && (f.signal.Fault? ==> !IsScopeFault(f.signal.fault))
    && !f.signal.Done? && !f.signal.Uncaught?
    && (!f.signal.Fault? ==> Mirrored(Leaves(SignalCont(f.signal)) + rest, f.handlers, next))
    && SignalOk(f.signal)
  }

  lemma ValueKeeps(f: Flow, first: Cont, v: Value, ch: Choice, rest: seq<Cont>, next: nat)
    requires !first.Chain? && Mirrored(Leaves(first) + rest, f.handlers, next)
    requires forall k <- rest :: !k.Chain?
    ensures Kept(ApplyValue(f, first, v, ch, next), rest, if first.HandleHandler? then next + 1 else next)
  {
    hide ScopesIn, NestedIn, TopIn, OccurrencesIn, Mirrored;
    FrontNested(first, rest, f.handlers, next);
    match first
    case BlockValue =>
    case HandleHandler => OpenKeeps(f.handlers, ch.arms, rest, next);
    case Reenter(boundary) => ReenterKeeps(f, boundary, v, rest, next);
    case Boundary(id, inner, arms) =>
      if inner.BlockValue? {
        CloseKeeps(f.(signal := Completed(v)), id, inner, arms, rest, next);
      } else {
        EnterKeeps(f, id, inner, arms, rest, next);
      }
    case CallBoundary(outer) => SwapQuiet(first, outer, rest, f.handlers, next);
    case Dispatch(outer) => Swap(first, outer, rest, f.handlers, next);
    case RestorePolicy(_, _) => PolicyKeeps(f, first, rest, next);
    case ScopedPolicy(_, _) => PolicyKeeps(f, first, rest, next);
    case ExitReturn => SwapQuiet(first, BlockValue, rest, f.handlers, next);
    case ExitResume => SwapQuiet(first, BlockValue, rest, f.handlers, next);
    case ExitFinish => SwapQuiet(first, BlockValue, rest, f.handlers, next);
    case TryExpr(_) => SwapQuiet(first, BlockValue, rest, f.handlers, next);
    case Plain(_) => EmissionKeeps(f, first, ch, rest, next);
    case Loop(_) => EmissionKeeps(f, first, ch, rest, next);
  }

  /** Entering a boundary: its inner frames come first, the bare boundary after them. */
  lemma EnterKeeps(f: Flow, id: nat, inner: Cont, arms: seq<Arm>, rest: seq<Cont>, next: nat)
    requires !inner.BlockValue? && Mirrored([Boundary(id, inner, arms)] + rest, f.handlers, next)
    ensures Mirrored(Leaves(Compose(inner, Boundary(id, BlockValue, arms))) + rest, f.handlers, next)
  {
    hide ScopesIn, NestedIn, TopIn, OccurrencesIn, Mirrored;
    assert [Boundary(id, inner, arms)] + rest == [] + [Boundary(id, inner, arms)] + rest;
    SplitBoundary([], id, inner, arms, rest, f.handlers, next);
    assert [] + Leaves(inner) + [Boundary(id, BlockValue, arms)] + rest
        == Leaves(Compose(inner, Boundary(id, BlockValue, arms))) + rest;
  }

  lemma PolicyKeeps(f: Flow, first: Cont, rest: seq<Cont>, next: nat)
    requires first.RestorePolicy? || first.ScopedPolicy?
    requires Mirrored(Leaves(first) + rest, f.handlers, next)
    ensures first.RestorePolicy? ==> Mirrored(Leaves(first.inner) + rest, f.handlers, next)
    ensures first.ScopedPolicy? ==>
              Mirrored(Leaves(Compose(first.inner, RestorePolicy(f.policy, BlockValue))) + rest, f.handlers, next)
  {
    hide ScopesIn, NestedIn, TopIn, OccurrencesIn, Mirrored;
    FrontNested(first, rest, f.handlers, next);
    if first.RestorePolicy? {
      SwapQuiet(first, first.inner, rest, f.handlers, next);
    } else {
      assert Quiet(first.inner) && Quiet(RestorePolicy(f.policy, BlockValue));
      SwapQuiet(first, Compose(first.inner, RestorePolicy(f.policy, BlockValue)), rest, f.handlers, next);
    }
  }

  lemma EmissionKeeps(f: Flow, first: Cont, ch: Choice, rest: seq<Cont>, next: nat)
    requires first.Plain? || first.Loop?
    requires Mirrored(Leaves(first) + rest, f.handlers, next)
    ensures Kept(f.(signal := ch.emission), rest, next)
  {
    hide ScopesIn, NestedIn, TopIn, OccurrencesIn, Mirrored;
    QuietSummary(SignalCont(ch.emission), -1);
    SwapQuiet(first, SignalCont(ch.emission), rest, f.handlers, next);
  }

  lemma ExitKeeps(f: Flow, first: Cont, input: Input, ch: Choice, rest: seq<Cont>, next: nat)
    requires !first.Chain? && Mirrored(Leaves(first) + rest, f.handlers, next)
    requires !input.OnValue?
    requires (input.OnBreak? || input.OnContinue?) ==> !first.Boundary?
    ensures Kept(ApplyFrame(f, first, input, ch, next), rest, next)
  {
    hide ScopesIn, NestedIn, TopIn, OccurrencesIn, Mirrored, Dormant, Quiet;
    ExitFront(first, rest, f.handlers, next);
    match first
    case Boundary(id, inner, arms) => ExitBoundaryKeeps(f, first, input, ch, rest, next);
    case RestorePolicy(_, _) => PolicyKeeps(f, first, rest, next);
    case ScopedPolicy(_, _) => PolicyKeeps(f, first, rest, next);
    case _ =>
  }

  lemma ExitBoundaryKeeps(f: Flow, first: Cont, input: Input, ch: Choice, rest: seq<Cont>, next: nat)
    requires first.Boundary? && Mirrored([first] + rest, f.handlers, next)
    requires input.OnReturn? || input.OnResume? || input.OnFinish?
    ensures Kept(ApplyFrame(f, first, input, ch, next), rest, next)
  {
    hide ScopesIn, NestedIn, TopIn, OccurrencesIn, Mirrored;
    if input.OnResume? && !first.inner.BlockValue? {
      EnterKeeps(f, first.id, first.inner, first.arms, rest, next);
    } else {
      CloseKeeps(f.(signal := if input.OnFinish? then Completed(input.v) else if input.OnReturn? then Returned(input.v) else Resumed(input.v)),
                 first.id, first.inner, first.arms, rest, next);
    }
  }

  /** A frame that a travelling exit passes or opens. */
  lemma ExitFront(first: Cont, rest: seq<Cont>, handlers: seq<Scope>, next: nat)
    requires !first.Chain? && Mirrored(Leaves(first) + rest, handlers, next)
    ensures first.Boundary? ==> Mirrored([first] + rest, handlers, next)
    ensures !first.Boundary? ==> Mirrored(Leaves(BlockValue) + rest, handlers, next)
    ensures first.CallBoundary? || first.Dispatch? ==> Mirrored(Leaves(first.outer) + rest, handlers, next)
  {
    hide ScopesIn, NestedIn, TopIn, OccurrencesIn, Mirrored;
    FrontNested(first, rest, handlers, next);
    if !first.Boundary? {
      SwapQuiet(first, BlockValue, rest, handlers, next);
    }
    if first.CallBoundary? {
      SwapQuiet(first, first.outer, rest, handlers, next);
    } else if first.Dispatch? {
      Swap(first, first.outer, rest, handlers, next);
    }
  }

  // ------------------------------------------------------------- one step

  lemma {:induction false} StackLeavesFlat(stack: seq<Frame>)
    ensures forall k <- StackLeaves(stack) :: !k.Chain? && !k.BlockValue?
  {
    if stack != [] {
      StackLeavesFlat(stack[..|stack| - 1]);
    }
  }

  lemma PopLeaves(stack: seq<Frame>)
    requires stack != []
    ensures StackLeaves(stack) == FrameLeaves(stack[|stack| - 1]) + StackLeaves(stack[..|stack| - 1])
  {
  }

  lemma StepApplyKeeps(m: Machine, ch: Choice)
    requires Inv(m) && m.flow.signal.Apply? && !Leaks(m)
    ensures Inv(Step(m, ch))
  {
    hide ScopesIn, NestedIn, TopIn, OccurrencesIn, Mirrored, ApplyValue, ApplyReturn, ApplyResume, ApplyFinish, ApplyLoopControl;
    var f := m.flow;
    var k := f.signal.cont;
    PushOuter(m.stack, k, f.handlers, m.next);
    var pushed := PushFrames(m.stack, Raw(k)[1..]);
    StackLeavesFlat(pushed);
    if f.signal.input.OnValue? {
      ValueKeeps(f, Raw(k)[0], f.signal.input.v, ch, StackLeaves(pushed), m.next);
    } else {
      ExitKeeps(f, Raw(k)[0], f.signal.input, ch, StackLeaves(pushed), m.next);
    }
  }

  /** Putting a quiet continuation in front of everything keeps the mirror. */
  lemma QuietInFront(q: Cont, rest: seq<Cont>, handlers: seq<Scope>, next: nat)
    requires Quiet(q) && Mirrored(rest, handlers, next)
    ensures Mirrored(Leaves(q) + rest, handlers, next)
  {
    hide TopIn, OccurrencesIn;
    var floor := TopIn(rest, -1);
    QuietSummary(q, floor);
    LeavesSummary(q, floor);
    forall id: nat ensures OccurrencesIn([], id) == 0 {
      EmptyOccurrences(id);
    }
    assert [] + rest == rest;
    Front(Leaves(q), [], rest, handlers, next, next);
    assert ScopesIn(rest) + [] == ScopesIn(rest);
  }

  function SavedCont(f: Flow, ch: Choice): Cont
    requires f.signal.Eval?
  {
    if f.signal.kind.EvalCall? && ch.policy.Some? then RestorePolicy(f.policy, f.signal.cont) else f.signal.cont
  }

  lemma SavedKeeps(m: Machine, ch: Choice)
    requires Inv(m) && m.flow.signal.Eval?
    ensures Mirrored(Leaves(SavedCont(m.flow, ch)) + StackLeaves(m.stack), m.flow.handlers, m.next)
  {
    hide ScopesIn, NestedIn, TopIn, OccurrencesIn, Mirrored;
    var f := m.flow;
    var rest := StackLeaves(m.stack);
    if f.signal.kind.EvalCall? && ch.policy.Some? {
      QuietSummary(f.signal.cont, -1);
      DropDormant(f.signal.cont, rest, f.handlers, m.next);
      assert [] + rest == rest;
      QuietInFront(SavedCont(f, ch), rest, f.handlers, m.next);
    }
  }

  /** Pushing a mirrored continuation and a quiet frame on top of it. */
  lemma PushKeeps(stack: seq<Frame>, k: Cont, top: Frame, handlers: seq<Scope>, next: nat)
    requires Mirrored(Leaves(k) + StackLeaves(stack), handlers, next)
    requires forall frame <- stack :: FrameOk(frame)
    requires Quiet(IntoContinuation(top)) && FrameOk(top)
    ensures var pushed := PushFrames(stack, Leaves(k)) + [top];
            && Mirrored(StackLeaves(pushed), handlers, next)
            && (forall frame <- pushed :: FrameOk(frame))
  {
    hide ScopesIn, NestedIn, TopIn, OccurrencesIn, Mirrored, Nested, Dormant, Leaves;
    LeavesCallsQuiet(k, StackLeaves(stack), handlers, next);
    PushLeaves(stack, Leaves(k));
    LeavesOfLeaves(Leaves(k));
    var below := PushFrames(stack, Leaves(k));
    assert (below + [top])[..|below|] == below;
    QuietInFront(IntoContinuation(top), Leaves(k) + StackLeaves(stack), handlers, next);
  }

  lemma StepEvalKeeps(m: Machine, ch: Choice)
    requires Inv(m) && m.flow.signal.Eval?
    ensures Inv(Step(m, ch))
  {
    hide ScopesIn, NestedIn, TopIn, OccurrencesIn, Mirrored, Nested, Dormant, Leaves, PushFrames, StackLeaves;
    var f := m.flow;
    var k := SavedCont(f, ch);
    var m' := Step(m, ch);
    var top := m'.stack[|m'.stack| - 1];
    assert m'.stack == PushFrames(m.stack, Leaves(k)) + [top];
    assert Quiet(IntoContinuation(top)) && FrameOk(top);
    SavedKeeps(m, ch);
    PushKeeps(m.stack, k, top, f.handlers, m.next);
    QuietSummary(SignalCont(ch.emission), -1);
    QuietInFront(SignalCont(ch.emission), StackLeaves(m'.stack), f.handlers, m.next);
  }

  lemma LeavesCallsQuiet(k: Cont, rest: seq<Cont>, handlers: seq<Scope>, next: nat)
    requires Mirrored(Leaves(k) + rest, handlers, next)
    ensures forall leaf <- Leaves(k) :: leaf.CallBoundary? ==> Quiet(leaf.outer)
  {
    hide ScopesIn, NestedIn, TopIn, OccurrencesIn;
    Decompose(Leaves(k), rest, handlers, next);
    CallsQuiet(Leaves(k), TopIn(rest, -1));
  }

  lemma StepPopKeeps(m: Machine, ch: Choice)
    requires Inv(m)
    requires m.flow.signal.Completed? || m.flow.signal.Returned? || m.flow.signal.Resumed? || m.flow.signal.Finished?
          || m.flow.signal.BreakLoop? || m.flow.signal.ContinueLoop?
    ensures Inv(Step(m, ch))
  {
    hide ScopesIn, NestedIn, TopIn, OccurrencesIn, Mirrored, PopSignal, Leaves, FrameLeaves, StackLeaves, FrameOk;
    var f := m.flow;
    assert Leaves(BlockValue) == [] by {
      EmptyLeaves();
    }
    assert Frames(m) == StackLeaves(m.stack);
    if m.stack != [] {
      PopLeaves(m.stack);
      var top := m.stack[|m.stack| - 1];
      assert top in m.stack && FrameOk(top);
      PopSignalKeeps(f, top, StackLeaves(m.stack[..|m.stack| - 1]), m.next);
    }
  }

  /** Whatever the popped frame does with the signal, its scopes stay in front. */
  lemma PopSignalKeeps(f: Flow, top: Frame, rest: seq<Cont>, next: nat)
    requires f.signal.Completed? || f.signal.Returned? || f.signal.Resumed? || f.signal.Finished?
          || f.signal.BreakLoop? || f.signal.ContinueLoop?
    requires FrameOk(top) && Mirrored(FrameLeaves(top) + rest, f.handlers, next)
    ensures var signal := PopSignal(f.signal, top);
            && SignalOk(signal) && !signal.Done? && !signal.Uncaught?
            && (signal.Fault? ==> signal.fault.LoopEscaped?)
            && (!signal.Fault? ==> Mirrored(Leaves(SignalCont(signal)) + rest, f.handlers, next))
  {
    hide ScopesIn, NestedIn, TopIn, OccurrencesIn, Mirrored, Dormant, Nested;
    if top.CallFrame? {
      SwapQuiet(CallBoundary(top.cont), top.cont, rest, f.handlers, next);
    } else if top.ExprFrame? {
      QuietSummary(top.cont, -1);
      DropDormant(top.cont, rest, f.handlers, next);
    }
  }


  lemma StepPerformKeeps(m: Machine, ch: Choice)
    requires Inv(m) && m.flow.signal.Performed?
    ensures Inv(Step(m, ch)) && Step(m, ch) == PerformStep(m, ch)
  {
    var f := m.flow;
    OwnersHold(m);
    if m.stack != [] && (f.signal.request.Raise? || Handled(f.signal.request, f.handlers)) {
      PropagateStepKeeps(m);
    }
  }

  /** A perform step without the lexical-owner faults, which the mirror rules out. */
  function PerformStep(m: Machine, ch: Choice): Machine
    requires m.flow.signal.Performed?
  {
    var f := m.flow;
    var request := f.signal.request;
    if request.Action? && (!Handled(request, f.handlers) || m.stack == []) then
      m.(flow := f.(signal := Apply(f.signal.cont, OnValue(ch.answer))))
    else if m.stack == [] then m.(flow := f.(signal := Uncaught(request, f.signal.cont)))
    else PopPerform(m)
  }

  function PopPerform(m: Machine): Machine
    requires m.flow.signal.Performed? && m.stack != []
  {
    var whole := Compose(m.flow.signal.cont, IntoContinuation(m.stack[|m.stack| - 1]));
    Machine(m.stack[..|m.stack| - 1],
            Propagate(m.flow.(signal := Performed(m.flow.signal.request, BlockValue)), whole),
            m.next)
  }

  lemma StartFlowing(request: Request)
    ensures Flowing(Performed(request, BlockValue)) && Leaves(BlockValue) == []
  {
  }

  lemma FlowingOk(signal: Signal)
    requires Flowing(signal)
    ensures SignalOk(signal) && !signal.Fault? && !signal.Done? && !signal.Uncaught?
  {
  }

  lemma PropagateStepKeeps(m: Machine)
    requires Inv(m) && m.flow.signal.Performed? && m.stack != []
    ensures Inv(PopPerform(m))
    ensures Flowing(PopPerform(m).flow.signal)
  {
    hide ScopesIn, NestedIn, TopIn, OccurrencesIn, Mirrored, Propagate, Leaves, StackLeaves, Dormant, Flowing, FrameOk, IntoContinuation;
    var f := m.flow;
    StartFlowing(f.signal.request);
    PopLeaves(m.stack);
    var top := m.stack[|m.stack| - 1];
    var rest := StackLeaves(m.stack[..|m.stack| - 1]);
    var whole := Compose(f.signal.cont, IntoContinuation(top));
    var start := f.(signal := Performed(f.signal.request, BlockValue));
    assert Frames(m) == [] + Leaves(whole) + rest;
    PropagateKeeps(start, whole, rest, m.next);
    FlowingOk(PopPerform(m).flow.signal);
  }

  lemma {:induction false} ScopesOccur(frames: seq<Cont>, i: nat)
    requires forall k <- frames :: !k.Chain?
    requires i < |ScopesIn(frames)|
    ensures OccurrencesIn(frames, ScopesIn(frames)[i].id) > 0
  {
    if i < |ScopesIn(frames[1..])| {
      ScopesOccur(frames[1..], i);
    }
  }

  lemma OwnersHold(m: Machine)
    requires Inv(m) && !m.flow.signal.Fault?
    ensures HasLexicalOwners(m)
  {
    StackLeavesFlat(m.stack);
    forall i | 0 <= i < |m.flow.handlers|
      ensures OccurrencesIn(Frames(m), m.flow.handlers[i].id) == 1
    {
      ScopesOccur(Frames(m), i);
    }
  }

  // ------------------------------------------------------- main results

  lemma StepKeeps(m: Machine, ch: Choice)
    requires Inv(m) && !Leaks(m)
    ensures Inv(Step(m, ch))
  {
    hide *;
    match m.flow.signal
    case Apply(_, _) => StepApplyKeeps(m, ch);
    case Eval(_, _) => StepEvalKeeps(m, ch);
    case Performed(_, _) => StepPerformKeeps(m, ch);
    case HostCall(_) => StepHostKeeps(m, ch);
    case Fault(_) => StepStays(m, ch);
    case Done(_) => StepStays(m, ch);
    case Uncaught(_, _) => StepStays(m, ch);
    case _ => StepPopKeeps(m, ch);
  }

  lemma StepHostKeeps(m: Machine, ch: Choice)
    requires Inv(m) && m.flow.signal.HostCall?
    ensures Inv(Step(m, ch))
  {
  }

  lemma StepStays(m: Machine, ch: Choice)
    requires m.flow.signal.Fault? || m.flow.signal.Done? || m.flow.signal.Uncaught?
    ensures Step(m, ch) == m
  {
  }

  /** A break or continue that passes a boundary leaves its scope on the stack. */
  lemma LeakBreaks(m: Machine, ch: Choice)
    requires Inv(m) && Leaks(m)
    ensures !Inv(Step(m, ch))
    ensures |Step(m, ch).flow.handlers| == |ScopesIn(Frames(Step(m, ch)))| + 1
  {
    hide NestedIn, TopIn, OccurrencesIn, ScopesIn, PushFrames, StackLeaves;
    var f := m.flow;
    var first := Raw(f.signal.cont)[0];
    PushOuter(m.stack, f.signal.cont, f.handlers, m.next);
    var rest := StackLeaves(PushFrames(m.stack, Raw(f.signal.cont)[1..]));
    Concat([first], rest, -1);
    Single(first, -1);
    assert Frames(m) == [first] + rest;
    assert [] + rest == rest;
    assert Frames(Step(m, ch)) == rest;
  }

  lemma StepKeepsMirrorExactly(m: Machine, ch: Choice)
    requires Inv(m)
    ensures Inv(Step(m, ch)) <==> !Leaks(m)
  {
    if Leaks(m) {
      LeakBreaks(m, ch);
    } else {
      StepKeeps(m, ch);
    }
  }

  lemma InitialInv(m: Machine)
    requires Initial(m)
    ensures Inv(m)
  {
    hide TopIn;
    forall id: nat ensures OccurrencesIn([], id) == 0 {
      EmptyOccurrences(id);
    }
    assert Mirrored([], [], m.next);
    QuietInFront(SignalCont(m.flow.signal), [], [], m.next);
  }

  /** No state of the run is about to let a break or continue pass a boundary. */
  predicate NoLeak(m: Machine, choices: seq<Choice>)
    decreases |choices|
  {
    choices == [] || (!Leaks(m) && NoLeak(Step(m, choices[0]), choices[1..]))
  }

  /** Every run from a program start, for every environment: the mirror holds and no
      handler-stack fault is ever raised. */
  lemma {:induction false} RunKeeps(m: Machine, choices: seq<Choice>)
    requires Inv(m) && NoLeak(m, choices)
    ensures Inv(Run(m, choices))
    decreases |choices|
  {
    hide Inv, Leaks, Step;
    if choices != [] {
      StepKeeps(m, choices[0]);
      RunKeeps(Step(m, choices[0]), choices[1..]);
    }
  }

  lemma {:induction false} RunConcat(m: Machine, a: seq<Choice>, b: seq<Choice>)
    ensures Run(m, a + b) == Run(Run(m, a), b)
    decreases |a|
  {
    hide Step;
    if a == [] {
      assert a + b == b;
    } else {
      assert (a + b)[1..] == a[1..] + b;
      RunConcat(Step(m, a[0]), a[1..], b);
    }
  }

  /** Said for whole runs in both directions: every state of the run is mirrored exactly
      when no break or continue of the run passes a boundary. */
  lemma {:induction false} RunKeepsExactly(m: Machine, choices: seq<Choice>)
    requires Inv(m)
    ensures (forall n | 0 <= n <= |choices| :: Inv(Run(m, choices[..n]))) <==> NoLeak(m, choices)
    decreases |choices|
  {
    hide Inv, Leaks, Step;
    if choices == [] {
      assert choices[..0] == [];
    } else {
      var next := Step(m, choices[0]);
      var rest := choices[1..];
      StepKeepsMirrorExactly(m, choices[0]);
      forall n | 0 <= n <= |rest| ensures Run(m, choices[..n + 1]) == Run(next, rest[..n]) {
        assert choices[..n + 1][1..] == rest[..n];
      }
      assert choices[..0] == [];
      if NoLeak(m, choices) {
        RunKeepsExactly(next, rest);
        forall n | 0 <= n <= |choices| ensures Inv(Run(m, choices[..n])) {
          if n > 0 {
            assert Inv(Run(next, rest[..n - 1]));
          }
        }
      } else if forall n | 0 <= n <= |choices| :: Inv(Run(m, choices[..n])) {
        assert rest[..0] == [];
        assert Inv(Run(m, choices[..1]));
        forall n | 0 <= n <= |rest| ensures Inv(Run(next, rest[..n])) {
          assert Inv(Run(m, choices[..n + 1]));
        }
        RunKeepsExactly(next, rest);
      }
    }
  }

  lemma {:induction false} ScopesIncrease(frames: seq<Cont>, i: nat, j: nat)
    requires NestedIn(frames, -1) && (forall k <- frames :: !k.Chain?)
    requires i < j < |ScopesIn(frames)|
    ensures ScopesIn(frames)[i].id < ScopesIn(frames)[j].id
  {
    var outer := frames[1..];
    TopOfScopes(outer);
    if j < |ScopesIn(outer)| {
      ScopesIncrease(outer, i, j);
    } else if i < |ScopesIn(outer)| - 1 {
      ScopesIncrease(outer, i, |ScopesIn(outer)| - 1);
    }
  }

  lemma NothingLeft(m: Machine)
    requires Inv(m) && m.flow.signal.Done?
    ensures m.flow.handlers == []
  {
  }

  lemma ReachableStates(m: Machine, choices: seq<Choice>)
    requires Initial(m) && NoLeak(m, choices)
    ensures var r := Run(m, choices);
            && (r.flow.signal.Fault? ==> !IsScopeFault(r.flow.signal.fault))
            && (!r.flow.signal.Fault? ==>
                  && r.flow.handlers == ScopesIn(Frames(r))
                  && (forall i, j :: 0 <= i < j < |r.flow.handlers| ==> r.flow.handlers[i].id < r.flow.handlers[j].id)
                  && (forall id: nat :: OccurrencesIn(Frames(r), id) <= 1))
            && (r.flow.signal.Done? ==> r.flow.handlers == [])
  {
    hide NestedIn, TopIn, OccurrencesIn, ScopesIn, Leaves, Step, Run, NoLeak, Leaks, Initial;
    InitialInv(m);
    RunKeeps(m, choices);
    var r := Run(m, choices);
    if r.flow.signal.Done? {
      NothingLeft(r);
    }
    if !r.flow.signal.Fault? {
      StackLeavesFlat(r.stack);
      forall i, j | 0 <= i < j < |r.flow.handlers|
        ensures r.flow.handlers[i].id < r.flow.handlers[j].id
      {
        ScopesIncrease(Frames(r), i, j);
      }
    }
  }
}
