/** The model policy that each frame still to be run will be entered under, over whole runs.
    A limited call narrows it; what its caller does next runs under the caller's policy,
    except where the continuation that holds the restoration is thrown away. */
module PolicyRuns {
  import opened Continuations
  import opened HandlerMachine
  import opened HandlerMirror
  import opened HandlerRuns
  import opened PerformLoop
  import opened PolicyPlans

  // ------------------------------------------------------------- one frame

  /** Whether a frame lets the input in; otherwise it is passed and thrown away. */
  predicate Enters(first: Cont, input: Input) {
    match input
    case OnValue(_) => true
    case OnReturn(_) => first.CallBoundary? || first.RestorePolicy? || first.ScopedPolicy?
    case OnResume(_) => first.Dispatch? || first.Boundary? || first.RestorePolicy?
    case OnFinish(_) => first.RestorePolicy?
    case _ => false
  }

  function Dropped(first: Cont, input: Input): Option<nat> {
    if Enters(first, input) then None else Target(first)
  }

  predicate NoScopeFault(signal: Signal) {
    signal.Fault? ==> !IsScopeFault(signal.fault)
  }

  /** The program builds no restoration of its own: only limited calls do. */
  predicate Ordinary(ch: Choice) {
    Target(SignalCont(ch.emission)) == None && Tame(SignalCont(ch.emission))
  }

  lemma FrameRestores(f: Flow, first: Cont, input: Input, ch: Choice, next: nat)
    requires !first.Chain? && Ordinary(ch) && NoScopeFault(ApplyFrame(f, first, input, ch, next).signal)
    ensures var r := ApplyFrame(f, first, input, ch, next);
            After(Target(SignalCont(r.signal)), r.policy)
            == if Dropped(first, input).None? then After(Target(first), f.policy) else f.policy
  {
    hide ApplyValue, ApplyReturn, ApplyResume, ApplyFinish, ApplyLoopControl;
    match input
    case OnValue(v) => ValueRestores(f, first, v, ch, next);
    case OnReturn(v) => ReturnRestores(f, first, v);
    case OnResume(v) => ResumeRestores(f, first, v);
    case OnFinish(v) => FinishRestores(f, first, v);
    case _ => LoopControlRestores(f, first, input);
  }

  lemma ReturnRestores(f: Flow, first: Cont, v: Value)
    requires !first.Chain? && NoScopeFault(ApplyReturn(f, first, v).signal)
    ensures var r := ApplyReturn(f, first, v);
            After(Target(SignalCont(r.signal)), r.policy)
            == if Dropped(first, OnReturn(v)).None? then After(Target(first), f.policy) else f.policy
  {
    if first.ScopedPolicy? {
      TargetCompose(first.inner, RestorePolicy(f.policy, BlockValue));
    }
  }

  lemma ResumeRestores(f: Flow, first: Cont, v: Value)
    requires !first.Chain? && NoScopeFault(ApplyResume(f, first, v).signal)
    ensures var r := ApplyResume(f, first, v);
            After(Target(SignalCont(r.signal)), r.policy)
            == if Dropped(first, OnResume(v)).None? then After(Target(first), f.policy) else f.policy
  {
    if first.Boundary? {
      TargetCompose(first.inner, Boundary(first.id, BlockValue, first.arms));
    }
  }

  lemma FinishRestores(f: Flow, first: Cont, v: Value)
    requires !first.Chain? && NoScopeFault(ApplyFinish(f, first, v).signal)
    ensures var r := ApplyFinish(f, first, v);
            After(Target(SignalCont(r.signal)), r.policy)
            == if Dropped(first, OnFinish(v)).None? then After(Target(first), f.policy) else f.policy
  {
  }

  lemma LoopControlRestores(f: Flow, first: Cont, input: Input)
    requires !first.Chain? && (input.OnBreak? || input.OnContinue?)
    ensures var r := ApplyLoopControl(f, first, input);
            After(Target(SignalCont(r.signal)), r.policy)
            == if Dropped(first, input).None? then After(Target(first), f.policy) else f.policy
  {
  }

  lemma ValueRestores(f: Flow, first: Cont, v: Value, ch: Choice, next: nat)
    requires !first.Chain? && Ordinary(ch) && NoScopeFault(ApplyValue(f, first, v, ch, next).signal)
    ensures var r := ApplyValue(f, first, v, ch, next);
            After(Target(SignalCont(r.signal)), r.policy) == After(Target(first), f.policy)
  {
    hide Tame, Quiet;
    if first.ScopedPolicy? || first.Boundary? {
      SplitRestores(f, first, v, ch, next);
    }
  }

  lemma SplitRestores(f: Flow, first: Cont, v: Value, ch: Choice, next: nat)
    requires (first.ScopedPolicy? || first.Boundary?) && NoScopeFault(ApplyValue(f, first, v, ch, next).signal)
    ensures var r := ApplyValue(f, first, v, ch, next);
            After(Target(SignalCont(r.signal)), r.policy) == After(Target(first), f.policy)
  {
    hide Compose;
    if first.ScopedPolicy? {
      TargetCompose(first.inner, RestorePolicy(f.policy, BlockValue));
    } else {
      TargetCompose(first.inner, Boundary(first.id, BlockValue, first.arms));
    }
  }

  // -------------------------------------------------------------- one step

  /** What a step does for the frames it leaves to be run: the policy a value would have
      handed to the first of them, and the policy the step hands it. */
  datatype Handover = Handover(rest: seq<Cont>, due: nat, got: nat)

  /** The frame leads on to what is inside it, all of which is still to be run. */
  predicate Leads(first: Cont, input: Input) {
    Enters(first, input) &&
    (first.Dispatch? || first.CallBoundary? || first.Reenter? || first.ScopedPolicy?
     || (first.Boundary? && !first.inner.BlockValue?))
  }

  function HandApply(first: Cont, input: Input, outer: seq<Cont>, policy: nat): Handover {
    var due := After(Target(first), policy);
    if Leads(first, input) then Handover([first] + outer, policy, policy)
    else if first.RestorePolicy? && Enters(first, input) then Handover(Leaves(first.inner) + outer, first.policy, first.policy)
    else Handover(outer, due, if Enters(first, input) then due else policy)
  }

  /** A typed error pops a frame: what it crosses is abandoned to whoever handles it. */
  function HandRaise(whole: Cont, request: Request, outer: seq<Cont>, policy: nat): Handover {
    var met := Met(whole, request, true).frames;
    var crossed := Crossed(met, request);
    var now := Restored(crossed, policy);
    Handover(Behind(met, request) + outer, Due(whole, request, policy),
             if Captured(met, request) then now else After(Carried(crossed), now))
  }

  /** A popped frame that the signal passes without entering it. */
  predicate Passed(signal: Signal, top: Frame) {
    || (top.ExprFrame? && (signal.Returned? || signal.Resumed? || signal.Finished?))
    || (top.CallFrame? && (signal.BreakLoop? || signal.ContinueLoop?))
  }

  function Hands(m: Machine): Handover {
    var f := m.flow;
    var all := Handover(Frames(m), f.policy, f.policy);
    match f.signal
    case Apply(k, input) => HandApply(Raw(k)[0], input, LeavesOf(Raw(k)[1..]) + StackLeaves(m.stack), f.policy)
    case Performed(request, k) =>
      if request.Action? || m.stack == [] then all
      else HandRaise(Compose(k, IntoContinuation(m.stack[|m.stack| - 1])), request, StackLeaves(m.stack[..|m.stack| - 1]), f.policy)
    case Eval(_, _) => all
    case HostCall(_) => all
    case Fault(_) => all
    case Done(_) => all
    case Uncaught(_, _) => all
    case _ =>
      if m.stack == [] || !Passed(f.signal, m.stack[|m.stack| - 1]) then all
      else
        var top := m.stack[|m.stack| - 1];
        Handover(StackLeaves(m.stack[..|m.stack| - 1]), After(Target(top.cont), f.policy), f.policy)
  }

  /** Throwing a restoration away does no harm if there is none, or it is in force already. */
  predicate Harmless(dropped: Option<nat>, policy: nat) {
    dropped.None? || dropped.value == policy
  }

  /** A typed error leaves the frames behind its end the policy they are due: where it ends
      inside an opened restoration that policy is already in force; elsewhere it carries no
      restoration, or one already in force, or a `try` drops what it carries and the outermost
      restoration crossed has acted, or a handler saves it and the outermost is carried. */
  predicate RaiseHarmless(whole: Cont, request: Request, policy: nat) {
    var met := Met(whole, request, true).frames;
    var crossed := Crossed(met, request);
    var now := Restored(crossed, policy);
    if Inside(whole, request).Some? then Inside(whole, request).value == now
    else Harmless(Carried(crossed), now) || Captured(met, request) == ActsLast(crossed)
  }

  /** The step throws no restoration away that differs from the policy in force. */
  predicate Restores(m: Machine) {
    var f := m.flow;
    match f.signal
    case Apply(k, input) => Harmless(Dropped(Raw(k)[0], input), f.policy)
    case Performed(request, k) =>
      request.Action? || m.stack == []
      || RaiseHarmless(Compose(k, IntoContinuation(m.stack[|m.stack| - 1])), request, f.policy)
    case Eval(_, _) => true
    case HostCall(_) => true
    case Fault(_) => true
    case Done(_) => true
    case Uncaught(_, _) => true
    case _ =>
      m.stack == [] || !Passed(f.signal, m.stack[|m.stack| - 1])
      || Harmless(Target(m.stack[|m.stack| - 1].cont), f.policy)
  }

  /** Every restoration of the state is one that a limited call made. */
  predicate TameState(m: Machine) {
    && Tame(SignalCont(m.flow.signal))
    && (forall i | 0 <= i < |m.stack| :: Tame(IntoContinuation(m.stack[i])))
    && (m.flow.signal.Eval? && m.flow.signal.kind.EvalCall? ==> Target(m.flow.signal.cont).None?)
  }

  lemma ComposeTame(inner: Cont, outer: Cont)
    requires Tame(inner) && Tame(outer)
    ensures Tame(Compose(inner, outer))
  {
  }

  /** The hand-over is as the guard says, for every state. */
  lemma HandsExactly(m: Machine)
    requires TameState(m)
    ensures Hands(m).due == Hands(m).got <==> Restores(m)
  {
    hide Target, Tame, Enters, StackLeaves, LeavesOf, Frames, Met, Leaves;
    var f := m.flow;
    if f.signal.Performed? && f.signal.request.Raise? && m.stack != [] {
      var top := m.stack[|m.stack| - 1];
      ComposeTame(f.signal.cont, IntoContinuation(top));
      RaiseHandsExactly(Compose(f.signal.cont, IntoContinuation(top)), f.signal.request, StackLeaves(m.stack[..|m.stack| - 1]), f.policy);
    }
  }

  lemma RaiseHandsExactly(whole: Cont, request: Request, outer: seq<Cont>, policy: nat)
    requires Tame(whole)
    ensures var h := HandRaise(whole, request, outer, policy); h.due == h.got <==> RaiseHarmless(whole, request, policy)
  {
    hide Met, Tame, Inside, Target, PlanOf, PlanBefore, Schedule, DueWell;
    DuePlan(whole, request, policy, outer);
    var met := Met(whole, request, true).frames;
    CrossedExactly(Crossed(met, request), Captured(met, request), policy);
  }

  /** Both plans, before and after the step, end with the frames left to be run. */
  predicate HandsOver(m: Machine, r: Machine) {
    var h := Hands(m);
    EndsWith(Plan(m), PlanOf(h.rest, h.due)) && EndsWith(Plan(r), PlanOf(h.rest, h.got))
  }

  lemma Itself(whole: seq<Entry>)
    ensures EndsWith(whole, whole)
  {
  }

  lemma ApplyHands(m: Machine, ch: Choice)
    requires Inv(m) && m.flow.signal.Apply? && Ordinary(ch)
    ensures HandsOver(m, Step(m, ch))
  {
    hide ScopesIn, NestedIn, TopIn, OccurrencesIn, Mirrored, Target, TargetIn, ApplyFrame, PushFrames, StackLeaves, Enters,
         PlanOf, PlanBefore, EndsWith, HandApply, Leaves, Inv, Ordinary;
    var f := m.flow;
    var k := f.signal.cont;
    var first, outer := Raw(k)[0], LeavesOf(Raw(k)[1..]) + StackLeaves(m.stack);
    AppliedOuter(m);
    NoFaultApplying(m, ch);
    PlanFront(first, outer, f.policy);
    PlanFront(SignalCont(ApplyFrame(f, first, f.signal.input, ch, m.next).signal), outer,
              ApplyFrame(f, first, f.signal.input, ch, m.next).policy);
    FrameHands(f, first, outer, f.signal.input, ch, m.next);
  }

  lemma FrameHands(f: Flow, first: Cont, outer: seq<Cont>, input: Input, ch: Choice, next: nat)
    requires !first.Chain? && Ordinary(ch) && NoScopeFault(ApplyFrame(f, first, input, ch, next).signal)
    ensures var r, h := ApplyFrame(f, first, input, ch, next), HandApply(first, input, outer, f.policy);
            && EndsWith(PlanBefore(first, outer, f.policy), PlanOf(h.rest, h.due))
            && EndsWith(PlanBefore(SignalCont(r.signal), outer, r.policy), PlanOf(h.rest, h.got))
  {
    hide PlanOf, ApplyFrame, Schedule, Target, Leaves, Ordinary, Enters, NoScopeFault;
    var r := ApplyFrame(f, first, input, ch, next);
    var due := After(Target(first), f.policy);
    if Leads(first, input) {
      LeadsOn(f, first, input, ch, next);
      assert ([first] + outer)[1..] == outer;
      PlanStep([first] + outer, f.policy);
      Itself(PlanBefore(first, outer, f.policy));
    } else if first.RestorePolicy? && Enters(first, input) {
      RestoreEntered(f, first, input, ch, next);
      PlanFront(first.inner, outer, first.policy);
      Itself(PlanBefore(first.inner, outer, first.policy));
    } else {
      FrameRestores(f, first, input, ch, next);
      Itself(PlanOf(outer, due));
      EndsBehind(Schedule(first, f.policy), PlanOf(outer, due), PlanOf(outer, due));
      var got := After(Target(SignalCont(r.signal)), r.policy);
      Itself(PlanOf(outer, got));
      EndsBehind(Schedule(SignalCont(r.signal), r.policy), PlanOf(outer, got), PlanOf(outer, got));
    }
  }

  /** Wrappers, boundaries and scopes lead on: their frames stay planned as they were, those of
      a scope under its policy, and what comes after is handed the same policy. */
  lemma LeadsOn(f: Flow, first: Cont, input: Input, ch: Choice, next: nat)
    requires Leads(first, input) && NoScopeFault(ApplyFrame(f, first, input, ch, next).signal)
    ensures var r := ApplyFrame(f, first, input, ch, next);
            && Schedule(SignalCont(r.signal), r.policy) == Schedule(first, f.policy)
            && After(Target(SignalCont(r.signal)), r.policy) == After(Target(first), f.policy)
  {
    if first.Boundary? {
      BareFollows(first.inner, Boundary(first.id, BlockValue, first.arms), f.policy);
    } else if first.ScopedPolicy? {
      BareFollows(first.inner, RestorePolicy(f.policy, BlockValue), first.policy);
    }
  }

  lemma BareFollows(inner: Cont, bare: Cont, policy: nat)
    requires (bare.Boundary? || bare.RestorePolicy?) && bare.inner.BlockValue?
    ensures Schedule(Compose(inner, bare), policy) == Schedule(inner, policy)
    ensures Target(Compose(inner, bare)) == if bare.Boundary? then Target(inner) else Some(bare.policy)
  {
    TargetCompose(inner, bare);
    ScheduleCompose(inner, bare, policy);
    var next := After(Target(inner), policy);
    assert Schedule(bare, next) == [] && Target(bare) == if bare.Boundary? then None else Some(bare.policy);
    assert Schedule(inner, policy) + [] == Schedule(inner, policy);
  }

  lemma RestoreEntered(f: Flow, first: Cont, input: Input, ch: Choice, next: nat)
    requires first.RestorePolicy? && Enters(first, input)
    ensures var r := ApplyFrame(f, first, input, ch, next); SignalCont(r.signal) == first.inner && r.policy == first.policy
    ensures Schedule(first, f.policy) == Schedule(first.inner, first.policy)
    ensures After(Target(first), f.policy) == After(Target(first.inner), first.policy)
  {
  }

  lemma AppliedOuter(m: Machine)
    requires Inv(m) && m.flow.signal.Apply?
    ensures var raw := Raw(m.flow.signal.cont);
            && Frames(m) == Leaves(raw[0]) + (LeavesOf(raw[1..]) + StackLeaves(m.stack))
            && StackLeaves(PushFrames(m.stack, raw[1..])) == LeavesOf(raw[1..]) + StackLeaves(m.stack)
  {
    hide *;
    var k := m.flow.signal.cont;
    var raw := Raw(k);
    ApplyFacts(m);
    Decompose(Leaves(k), StackLeaves(m.stack), m.flow.handlers, m.next);
    CallsQuiet(Leaves(k), TopIn(StackLeaves(m.stack), -1));
    RawCallsQuiet(k);
    RawLeaves(k);
    assert forall leaf <- raw[1..] :: leaf in raw;
    PushLeaves(m.stack, raw[1..]);
    RawSplit(raw);
    assert Leaves(raw[0]) + LeavesOf(raw[1..]) + StackLeaves(m.stack)
        == Leaves(raw[0]) + (LeavesOf(raw[1..]) + StackLeaves(m.stack));
  }

  lemma ApplyFacts(m: Machine)
    requires Inv(m) && m.flow.signal.Apply?
    ensures Frames(m) == Leaves(m.flow.signal.cont) + StackLeaves(m.stack)
    ensures Mirrored(Frames(m), m.flow.handlers, m.next) && forall frame <- m.stack :: FrameOk(frame)
  {
  }

  lemma NoFaultApplying(m: Machine, ch: Choice)
    requires Inv(m) && m.flow.signal.Apply?
    ensures NoScopeFault(ApplyFrame(m.flow, Raw(m.flow.signal.cont)[0], m.flow.signal.input, ch, m.next).signal)
  {
    hide Inv, Mirrored;
    if !Leaks(m) {
      StepKeeps(m, ch);
      InvFault(Step(m, ch));
    }
  }

  lemma InvFault(m: Machine)
    requires Inv(m)
    ensures NoScopeFault(m.flow.signal)
  {
  }

  lemma PopHands(m: Machine, ch: Choice)
    requires Inv(m)
    requires m.flow.signal.Completed? || m.flow.signal.Returned? || m.flow.signal.Resumed? || m.flow.signal.Finished?
          || m.flow.signal.BreakLoop? || m.flow.signal.ContinueLoop?
    ensures HandsOver(m, Step(m, ch))
  {
    hide Mirrored, Target, TargetIn, Leaves, StackLeaves, Inv, PopSignal, PlanOf, EndsWith, Entries, Schedule;
    EmptyLeaves();
    assert Frames(m) == StackLeaves(m.stack);
    Itself(Plan(m));
    if m.stack != [] {
      var top, rest := m.stack[|m.stack| - 1], StackLeaves(m.stack[..|m.stack| - 1]);
      var signal := PopSignal(m.flow.signal, top);
      PopLeaves(m.stack);
      Popped(m.flow.signal, top, m.flow.policy);
      PlanFront(IntoContinuation(top), rest, m.flow.policy);
      PlanFront(SignalCont(signal), rest, m.flow.policy);
    } else {
      assert Frames(Step(m, ch)) == StackLeaves(m.stack);
    }
  }

  lemma Popped(signal: Signal, top: Frame, policy: nat)
    requires signal.Completed? || signal.Returned? || signal.Resumed? || signal.Finished? || signal.BreakLoop? || signal.ContinueLoop?
    ensures var k := SignalCont(PopSignal(signal, top));
            if Passed(signal, top) then Target(k).None? && Target(IntoContinuation(top)) == Target(top.cont)
            else Target(k) == Target(IntoContinuation(top)) && Schedule(k, policy) == Schedule(IntoContinuation(top), policy)
  {
  }

  lemma PerformHands(m: Machine, ch: Choice)
    requires Inv(m) && m.flow.signal.Performed? && TameState(m)
    ensures HandsOver(m, Step(m, ch)) && Tame(SignalCont(Step(m, ch).flow.signal))
  {
    hide Mirrored, Target, TargetIn, Leaves, StackLeaves, Inv, Propagate, Met, Handled, PlanOf, Tame, HandRaise, EndsWith, Inside, Schedule, Entries;
    StepPerformKeeps(m, ch);
    var f := m.flow;
    var request := f.signal.request;
    Itself(Plan(m));
    if m.stack != [] && (request.Raise? || Handled(request, f.handlers)) {
      PropagateStepKeeps(m);
      var top, rest := m.stack[|m.stack| - 1], StackLeaves(m.stack[..|m.stack| - 1]);
      var whole := Compose(f.signal.cont, IntoContinuation(top));
      var start := f.(signal := Performed(request, BlockValue));
      var r := Propagate(start, whole);
      PopLeaves(m.stack);
      assert Frames(m) == Leaves(whole) + rest;
      ComposeTame(f.signal.cont, IntoContinuation(top));
      PlanFront(whole, rest, f.policy);
      PlanFront(SignalCont(r.signal), rest, r.policy);
      if request.Raise? {
        RaisePropagated(start, whole, rest);
      } else {
        ActionPropagated(start, whole, rest);
      }
    }
  }

  lemma ActionPropagated(f: Flow, k: Cont, rest: seq<Cont>)
    requires f.signal.Performed? && f.signal.cont.BlockValue? && !Propagate(f, k).signal.Fault? && Tame(k)
    requires f.signal.request.Action?
    ensures var r := Propagate(f, k);
            && PlanBefore(SignalCont(r.signal), rest, r.policy) == PlanBefore(k, rest, f.policy)
            && Tame(SignalCont(r.signal))
  {
    hide Propagate, PassAll, Met, TargetIn, Tame, Entries, PlanOf;
    var request := f.signal.request;
    var met := Met(k, request, false).frames;
    PropagateIsFold(f, k);
    MetBare(k, request, false);
    CalmPass(f, met, f.policy);
    MetPlans(k, request, f.policy);
    NothingSaved();
    assert [] + Schedule(k, f.policy) == Schedule(k, f.policy);
  }

  lemma NothingSaved()
    ensures Target(BlockValue).None? && Tame(BlockValue) && forall p :: Schedule(BlockValue, p) == []
  {
  }

  lemma RaisePropagated(f: Flow, k: Cont, rest: seq<Cont>)
    requires f.signal.Performed? && f.signal.cont.BlockValue? && !Propagate(f, k).signal.Fault? && Tame(k)
    requires f.signal.request.Raise?
    ensures var r, h := Propagate(f, k), HandRaise(k, f.signal.request, rest, f.policy);
            && EndsWith(PlanBefore(k, rest, f.policy), PlanOf(h.rest, h.due))
            && EndsWith(PlanOf(Leaves(SignalCont(r.signal)) + rest, r.policy), PlanOf(h.rest, h.got))
            && Tame(SignalCont(r.signal))
  {
    hide Propagate, PassAll, Met, TargetIn, Tame, PlanOf, PlanBefore, Inside, EndsWith, Leaves, Schedule, MetWell, Due;
    var request := f.signal.request;
    var met := Met(k, request, true).frames;
    PropagateIsFold(f, k);
    MetBare(k, request, true);
    NothingSaved();
    RaisePass(f, met, rest);
    GivesMeans(met, request, None, f.policy);
    DuePlan(k, request, f.policy, rest);
  }

  lemma EvalHands(m: Machine, ch: Choice)
    requires Inv(m) && m.flow.signal.Eval? && Ordinary(ch)
    ensures HandsOver(m, Step(m, ch))
  {
    hide ScopesIn, NestedIn, TopIn, OccurrencesIn, Mirrored, Leaves, PushFrames, StackLeaves, TargetIn, PlanOf, Inv, EndsWith, Entries;
    var f := m.flow;
    var k := SavedCont(f, ch);
    var m' := Step(m, ch);
    var below := PushFrames(m.stack, Leaves(k));
    var top := m'.stack[|m'.stack| - 1];
    assert m'.stack == below + [top] && Target(IntoContinuation(top)) == None;
    EvalOuter(m, ch);
    assert m'.stack[..|m'.stack| - 1] == below;
    PopLeaves(m'.stack);
    Itself(Plan(m));
    PlanFront(f.signal.cont, StackLeaves(m.stack), f.policy);
    SavedPlans(f, ch, StackLeaves(m.stack), m'.flow.policy);
    PlanFront(k, StackLeaves(m.stack), m'.flow.policy);
    PlanFront(IntoContinuation(top), StackLeaves(below), m'.flow.policy);
    PlanFront(SignalCont(ch.emission), StackLeaves(m'.stack), m'.flow.policy);
    EndsTwice(Plan(m'), PlanOf(StackLeaves(m'.stack), m'.flow.policy), Plan(m));
  }

  lemma EndsTwice(whole: seq<Entry>, middle: seq<Entry>, tail: seq<Entry>)
    requires EndsWith(whole, middle) && EndsWith(middle, tail)
    ensures EndsWith(whole, tail)
  {
  }

  /** What a limited call saves hands its caller's frames the caller's policy. */
  lemma SavedPlans(f: Flow, ch: Choice, rest: seq<Cont>, policy: nat)
    requires f.signal.Eval?
    requires policy == if f.signal.kind.EvalCall? && ch.policy.Some? then ch.policy.value else f.policy
    ensures PlanBefore(SavedCont(f, ch), rest, policy) == PlanBefore(f.signal.cont, rest, f.policy)
  {
    hide PlanOf;
  }

  lemma StayHands(m: Machine, ch: Choice)
    requires m.flow.signal.HostCall? || m.flow.signal.Fault? || m.flow.signal.Done? || m.flow.signal.Uncaught?
    ensures HandsOver(m, Step(m, ch))
  {
    hide PlanOf, EndsWith, Leaves, StackLeaves, HandApply, HandRaise;
    Itself(Plan(m));
    assert Frames(Step(m, ch)) == Frames(m) && Step(m, ch).flow.policy == m.flow.policy;
  }

  lemma StepHands(m: Machine, ch: Choice)
    requires Inv(m) && TameState(m) && Ordinary(ch)
    ensures HandsOver(m, Step(m, ch))
  {
    hide *;
    match m.flow.signal
    case Apply(_, _) => ApplyHands(m, ch);
    case Eval(_, _) => EvalHands(m, ch);
    case Performed(_, _) => PerformHands(m, ch);
    case HostCall(_) => StayHands(m, ch);
    case Fault(_) => StayHands(m, ch);
    case Done(_) => StayHands(m, ch);
    case Uncaught(_, _) => StayHands(m, ch);
    case _ => PopHands(m, ch);
  }

  lemma EvalOuter(m: Machine, ch: Choice)
    requires Inv(m) && m.flow.signal.Eval?
    ensures var k := SavedCont(m.flow, ch);
            StackLeaves(PushFrames(m.stack, Leaves(k))) == Leaves(k) + StackLeaves(m.stack)
  {
    hide ScopesIn, NestedIn, TopIn, OccurrencesIn, Mirrored, Leaves, PushFrames, StackLeaves;
    var k := SavedCont(m.flow, ch);
    SavedKeeps(m, ch);
    LeavesCallsQuiet(k, StackLeaves(m.stack), m.flow.handlers, m.next);
    PushLeaves(m.stack, Leaves(k));
    LeavesOfLeaves(Leaves(k));
  }

  /** Every frame left to be run will be entered under the same policy after the step as
      before, exactly when the step throws no restoration away that differs from the policy in
      force, or no frame runs before the next restoration anyway. */
  lemma StepPlansExactly(m: Machine, ch: Choice)
    requires Inv(m) && TameState(m) && Ordinary(ch)
    ensures var n, r := Left(m), Step(m, ch);
            && 0 < n <= |Plan(m)| && n <= |Plan(r)|
            && (forall i | 0 <= i < n :: Last(Plan(r), n)[i].0 == Last(Plan(m), n)[i].0)
            && (Last(Plan(r), n) == Last(Plan(m), n) <==> Restores(m) || FencedIn(Hands(m).rest))
  {
    hide *;
    var h := Hands(m);
    StepHands(m, ch);
    HandsExactly(m);
    HandedExactly(h.rest, h.due, h.got);
    LeftMeans(m, Step(m, ch));
  }

  /** The policy under which `rest` from frame `i` on is entered when `handed` reaches its
      first frame; a restoration counts as a frame here. */
  function EnteredUnder(rest: seq<Cont>, i: nat, handed: nat): nat
    requires i <= |rest|
  {
    After(TargetIn(rest[..i]), handed)
  }

  /** Counting restorations as frames, a step keeps the policy under which every suffix of what
      it leaves to be run is entered exactly when it throws no restoration away that differs
      from the policy in force, whatever stands further out. */
  lemma StepEntersExactly(m: Machine, ch: Choice)
    requires Inv(m) && TameState(m) && Ordinary(ch)
    ensures HandsOver(m, Step(m, ch))
    ensures var h := Hands(m);
            (forall i | 0 <= i <= |h.rest| :: EnteredUnder(h.rest, i, h.got) == EnteredUnder(h.rest, i, h.due))
            <==> Restores(m)
  {
    hide *;
    StepHands(m, ch);
    HandsExactly(m);
    SuffixesExactly(Hands(m).rest, Hands(m).got, Hands(m).due);
  }

  lemma SuffixesExactly(rest: seq<Cont>, a: nat, b: nat)
    ensures (forall i | 0 <= i <= |rest| :: EnteredUnder(rest, i, a) == EnteredUnder(rest, i, b)) <==> a == b
  {
    hide TargetIn;
    assert rest[..0] == [];
    assert EnteredUnder(rest, 0, a) == a && EnteredUnder(rest, 0, b) == b by {
      NothingMet();
    }
  }

  /** How many of the frames of a state the next step leaves to be run. */
  function Left(m: Machine): nat {
    |PlanOf(Hands(m).rest, 0)|
  }

  function Last(plan: seq<Entry>, n: nat): seq<Entry>
    requires n <= |plan|
  {
    plan[|plan| - n..]
  }

  lemma LeftMeans(m: Machine, r: Machine)
    requires HandsOver(m, r)
    ensures var n, h := Left(m), Hands(m);
            && 0 < n <= |Plan(m)| && n <= |Plan(r)|
            && Last(Plan(m), n) == PlanOf(h.rest, h.due) && Last(Plan(r), n) == PlanOf(h.rest, h.got)
            && (forall i | 0 <= i < n :: Last(Plan(r), n)[i].0 == Last(Plan(m), n)[i].0)
  {
    hide Hands, Plan, FencedIn, Entries, TargetIn;
    var h := Hands(m);
    PlanFrom(h.rest, 0, h.due);
    PlanFrom(h.rest, h.due, h.got);
  }

  // ------------------------------------------------- states stay tame

  lemma {:induction false} TameLeaves(k: Cont)
    requires Tame(k)
    ensures TameIn(Leaves(k)) && TameIn(Raw(k))
  {
    match k
    case Chain(inner, outer) =>
      TameLeaves(inner);
      TameLeaves(outer);
    case _ =>
  }

  predicate TameStack(stack: seq<Frame>) {
    forall i | 0 <= i < |stack| :: Tame(IntoContinuation(stack[i]))
  }

  lemma {:induction false} PushTame(stack: seq<Frame>, conts: seq<Cont>)
    requires TameStack(stack) && TameIn(conts)
    ensures TameStack(PushFrames(stack, conts))
    decreases |conts|
  {
    hide Tame;
    if conts != [] {
      PushTame(stack, conts[1..]);
      assert IntoContinuation(FromContinuation(conts[0])) == conts[0];
    }
  }

  lemma FrameTame(f: Flow, first: Cont, input: Input, ch: Choice, next: nat)
    requires Tame(first) && Ordinary(ch)
    ensures var signal := ApplyFrame(f, first, input, ch, next).signal;
            Tame(SignalCont(signal)) && (signal.Eval? && signal.kind.EvalCall? ==> Target(signal.cont).None?)
  {
    hide ApplyValue, ApplyReturn, ApplyResume, ApplyFinish;
    match input
    case OnValue(v) => ValueTame(f, first, v, ch, next);
    case OnReturn(v) => ReturnTame(f, first, v);
    case OnResume(v) => ResumeTame(f, first, v);
    case OnFinish(v) => FinishTame(f, first, v);
    case _ =>
  }

  lemma ValueTame(f: Flow, first: Cont, v: Value, ch: Choice, next: nat)
    requires Tame(first) && Ordinary(ch)
    ensures var signal := ApplyValue(f, first, v, ch, next).signal;
            Tame(SignalCont(signal)) && (signal.Eval? && signal.kind.EvalCall? ==> Target(signal.cont).None?)
  {
    hide Target, Compose;
    WrappersTame(f, first);
    match first
    case Boundary(_, _, _) =>
    case _ =>
  }

  lemma WrappersTame(f: Flow, first: Cont)
    requires Tame(first)
    ensures first.ScopedPolicy? ==> Tame(Compose(first.inner, RestorePolicy(f.policy, BlockValue)))
    ensures first.Boundary? ==> Tame(Compose(first.inner, Boundary(first.id, BlockValue, first.arms)))
  {
  }

  lemma ReturnTame(f: Flow, first: Cont, v: Value)
    requires Tame(first)
    ensures var signal := ApplyReturn(f, first, v).signal; Tame(SignalCont(signal)) && !signal.Eval?
  {
    hide Target, Compose;
    WrappersTame(f, first);
  }

  lemma ResumeTame(f: Flow, first: Cont, v: Value)
    requires Tame(first)
    ensures var signal := ApplyResume(f, first, v).signal; Tame(SignalCont(signal)) && !signal.Eval?
  {
    hide Target, Compose;
    WrappersTame(f, first);
  }

  lemma FinishTame(f: Flow, first: Cont, v: Value)
    requires Tame(first)
    ensures var signal := ApplyFinish(f, first, v).signal; Tame(SignalCont(signal)) && !signal.Eval?
  {
    hide Target;
  }

  lemma ApplyTame(m: Machine, ch: Choice)
    requires m.flow.signal.Apply? && TameState(m) && Ordinary(ch)
    ensures TameState(Step(m, ch))
  {
    hide Tame, Target, ApplyFrame, PushFrames, Ordinary;
    var k := m.flow.signal.cont;
    var outer := Raw(k)[1..];
    TameLeaves(k);
    assert forall i | 0 <= i < |outer| :: outer[i] == Raw(k)[i + 1];
    PushTame(m.stack, outer);
    FrameTame(m.flow, Raw(k)[0], m.flow.signal.input, ch, m.next);
  }

  lemma EvalTame(m: Machine, ch: Choice)
    requires Inv(m) && m.flow.signal.Eval? && TameState(m) && Ordinary(ch)
    ensures TameState(Step(m, ch))
  {
    hide PushFrames, Mirrored, Frames;
    var k := SavedCont(m.flow, ch);
    assert Tame(k);
    TameLeaves(k);
    PushTame(m.stack, Leaves(k));
    assert Step(m, ch).stack[..|Step(m, ch).stack| - 1] == PushFrames(m.stack, Leaves(k));
  }

  lemma PerformTame(m: Machine, ch: Choice)
    requires Inv(m) && m.flow.signal.Performed? && TameState(m)
    ensures TameState(Step(m, ch))
  {
    hide Inv, Tame, Propagate, Handled, HandsOver;
    PerformHands(m, ch);
    StepPerformKeeps(m, ch);
    if m.stack != [] {
      PropagateStepKeeps(m);
    }
  }

  lemma PopTame(m: Machine, ch: Choice)
    requires TameState(m)
    requires m.flow.signal.Completed? || m.flow.signal.Returned? || m.flow.signal.Resumed? || m.flow.signal.Finished?
          || m.flow.signal.BreakLoop? || m.flow.signal.ContinueLoop?
    ensures TameState(Step(m, ch))
  {
    hide Target;
  }

  lemma StepTame(m: Machine, ch: Choice)
    requires Inv(m) && TameState(m) && Ordinary(ch)
    ensures TameState(Step(m, ch))
  {
    hide *;
    match m.flow.signal
    case Apply(_, _) => ApplyTame(m, ch);
    case Eval(_, _) => EvalTame(m, ch);
    case Performed(_, _) => PerformTame(m, ch);
    case HostCall(_) => StayTame(m, ch);
    case Fault(_) => StayTame(m, ch);
    case Done(_) => StayTame(m, ch);
    case Uncaught(_, _) => StayTame(m, ch);
    case _ => PopTame(m, ch);
  }

  lemma StayTame(m: Machine, ch: Choice)
    requires TameState(m)
    requires m.flow.signal.HostCall? || m.flow.signal.Fault? || m.flow.signal.Done? || m.flow.signal.Uncaught?
    ensures TameState(Step(m, ch))
  {
    hide Tame, Target;
  }

  // ------------------------------------------------------------ whole runs

  /** A step does no harm to the frames it leaves. */
  predicate Spares(m: Machine) {
    Restores(m) || FencedIn(Hands(m).rest)
  }

  predicate AllSpare(m: Machine, choices: seq<Choice>)
    decreases |choices|
  {
    choices == [] || (Spares(m) && AllSpare(Step(m, choices[0]), choices[1..]))
  }

  predicate AllOrdinary(choices: seq<Choice>) {
    forall i | 0 <= i < |choices| :: Ordinary(choices[i])
  }

  /** How many frames of the first state every step of the run leaves to be run. */
  function Surviving(m: Machine, choices: seq<Choice>): nat
    decreases |choices|
  {
    if choices == [] then |Plan(m)|
    else
      var later := Surviving(Step(m, choices[0]), choices[1..]);
      if later < Left(m) then later else Left(m)
  }

  /** The frames that survive the run will be entered under the policies they would have been
      entered under at its start; so will whatever follows the program. */
  ghost predicate AsPlanned(m: Machine, choices: seq<Choice>) {
    var n, r := Surviving(m, choices), Run(m, choices);
    0 < n <= |Plan(m)| && n <= |Plan(r)| && Last(Plan(r), n) == Last(Plan(m), n)
  }

  lemma LastOfLast(plan: seq<Entry>, n: nat, k: nat)
    requires k <= n <= |plan|
    ensures Last(Last(plan, n), k) == Last(plan, k)
  {
  }

  lemma PlanNotEmpty(m: Machine)
    ensures |Plan(m)| > 0
  {
  }

  /** The premises of a step hold again after it. */
  lemma Onwards(m: Machine, choices: seq<Choice>)
    requires choices != [] && Inv(m) && TameState(m) && NoLeak(m, choices) && AllOrdinary(choices)
    ensures var next := Step(m, choices[0]);
            Inv(next) && TameState(next) && NoLeak(next, choices[1..]) && AllOrdinary(choices[1..]) && Ordinary(choices[0])
  {
    hide Inv, TameState, Leaks, Step, Ordinary;
    StepKeeps(m, choices[0]);
    StepTame(m, choices[0]);
  }

  lemma {:induction false} RunSpares(m: Machine, choices: seq<Choice>)
    requires Inv(m) && TameState(m) && NoLeak(m, choices) && AllOrdinary(choices) && AllSpare(m, choices)
    ensures AsPlanned(m, choices)
    decreases |choices|
  {
    hide Inv, TameState, NoLeak, AllOrdinary, Ordinary, Step, Plan, Left, Restores, Hands, FencedIn;
    PlanNotEmpty(m);
    if choices != [] {
      var next, rest := Step(m, choices[0]), choices[1..];
      Onwards(m, choices);
      StepPlansExactly(m, choices[0]);
      RunSpares(next, rest);
      var n := Surviving(m, choices);
      LastOfLast(Plan(next), Surviving(next, rest), n);
      LastOfLast(Plan(Run(next, rest)), Surviving(next, rest), n);
      LastOfLast(Plan(next), Left(m), n);
      LastOfLast(Plan(m), Left(m), n);
    }
  }

  /** A single step of a run goes as planned exactly when it spares the frames it leaves. */
  lemma OneSpares(m: Machine, ch: Choice)
    requires Inv(m) && TameState(m) && Ordinary(ch)
    ensures AsPlanned(m, [ch]) <==> Spares(m)
  {
    hide Inv, TameState, Ordinary, Step, Plan, Left, Restores, Hands, FencedIn;
    assert [ch][1..] == [];
    assert Run(m, [ch]) == Run(Step(m, ch), []) == Step(m, ch);
    assert Surviving(Step(m, ch), []) == |Plan(Step(m, ch))|;
    StepPlansExactly(m, ch);
  }

  /** Every part of a run goes as planned exactly when every step of it spares the frames it
      leaves: no caller's frame is ever entered under a policy other than its own. */
  lemma {:induction false} RunPlansExactly(m: Machine, choices: seq<Choice>)
    requires Inv(m) && TameState(m) && NoLeak(m, choices) && AllOrdinary(choices)
    ensures (forall i, j | 0 <= i <= j <= |choices| :: AsPlanned(Run(m, choices[..i]), choices[i..j])) <==> AllSpare(m, choices)
    decreases |choices|
  {
    hide Inv, TameState, Ordinary, Step, AsPlanned, Spares, Leaks;
    if choices == [] {
      RunSpares(m, choices);
      assert choices[..0] == [] && choices[0..0] == [];
    } else {
      var next, rest := Step(m, choices[0]), choices[1..];
      Onwards(m, choices);
      RunPlansExactly(next, rest);
      OneSpares(m, choices[0]);
      assert choices[..0] == [] && choices[0..1] == [choices[0]];
      forall i, j | 0 <= i <= j <= |rest|
        ensures Run(m, choices[..i + 1]) == Run(next, rest[..i]) && choices[i + 1..j + 1] == rest[i..j]
      {
        assert choices[..i + 1][1..] == rest[..i];
      }
      if AllSpare(m, choices) {
        forall i, j | 0 <= i <= j <= |choices| ensures AsPlanned(Run(m, choices[..i]), choices[i..j]) {
          if i == 0 {
            SparesPrefix(m, choices, j);
            assert choices[0..j] == choices[..j];
            RunSpares(m, choices[..j]);
          } else {
            assert AsPlanned(Run(next, rest[..i - 1]), rest[i - 1..j - 1]);
          }
        }
      } else if !Spares(m) {
        assert !AsPlanned(Run(m, choices[..0]), choices[0..1]);
      } else {
        var i, j :| 0 <= i <= j <= |rest| && !AsPlanned(Run(next, rest[..i]), rest[i..j]);
        assert !AsPlanned(Run(m, choices[..i + 1]), choices[i + 1..j + 1]);
      }
    }
  }

  lemma {:induction false} SparesPrefix(m: Machine, choices: seq<Choice>, n: nat)
    requires NoLeak(m, choices) && AllOrdinary(choices) && AllSpare(m, choices) && n <= |choices|
    ensures NoLeak(m, choices[..n]) && AllOrdinary(choices[..n]) && AllSpare(m, choices[..n])
    decreases n
  {
    hide Step, Spares, Leaks, Ordinary;
    if n > 0 {
      SparesPrefix(Step(m, choices[0]), choices[1..], n - 1);
      assert choices[..n][1..] == choices[1..][..n - 1];
    }
  }

  /** Frames that run code of the program. */
  predicate Runs(k: Cont) {
    k.Plain? || k.Loop? || k.TryExpr? || k.HandleHandler? || k.ExitReturn? || k.ExitResume? || k.ExitFinish?
  }

  /** After a limited call, with any nesting of limits, the caller's continuation runs under
      the caller's policy: a value that reaches a frame which was there before enters it under
      the policy it had in the plan then, if every step in between spares the frames it leaves. */
  lemma EnteredAsPlanned(m: Machine, choices: seq<Choice>, first: Cont, outer: seq<Cont>)
    requires Inv(m) && TameState(m) && NoLeak(m, choices) && AllOrdinary(choices) && AllSpare(m, choices)
    requires var r := Run(m, choices);
             && r.flow.signal.Apply? && r.flow.signal.input.OnValue?
             && Raw(r.flow.signal.cont)[0] == first && Runs(first)
             && |Plan(r)| <= Surviving(m, choices)
    ensures var r := Run(m, choices);
            |Plan(r)| <= |Plan(m)| && Plan(m)[|Plan(m)| - |Plan(r)|] == (first, r.flow.policy)
  {
    hide Inv, TameState, NoLeak, AllOrdinary, AllSpare, Run, Surviving, Plan;
    RunKeeps(m, choices);
    RunSpares(m, choices);
    FrontOfPlan(Run(m, choices), first);
  }

  lemma FrontOfPlan(r: Machine, first: Cont)
    requires Inv(r) && r.flow.signal.Apply? && Raw(r.flow.signal.cont)[0] == first && Runs(first)
    ensures |Plan(r)| > 0 && Plan(r)[0] == (first, r.flow.policy)
  {
    hide *;
    var outer := LeavesOf(Raw(r.flow.signal.cont)[1..]) + StackLeaves(r.stack);
    AppliedOuter(r);
    PlanFront(first, outer, r.flow.policy);
    FirstOfPlan(r, first, outer);
  }

  lemma FirstOfPlan(r: Machine, first: Cont, outer: seq<Cont>)
    requires Runs(first) && Frames(r) == Leaves(first) + outer
    requires PlanOf(Leaves(first) + outer, r.flow.policy) == PlanBefore(first, outer, r.flow.policy)
    ensures |Plan(r)| > 0 && Plan(r)[0] == (first, r.flow.policy)
  {
    hide PlanOf, Frames, Leaves, Target;
    assert Schedule(first, r.flow.policy) == [(first, r.flow.policy)];
  }

  /** The limited call itself: whatever its callee does first, the caller's frames are planned
      as they were before the limit. */
  lemma LimitedCallPlans(m: Machine, ch: Choice)
    requires Inv(m) && TameState(m) && Ordinary(ch) && m.flow.signal.Eval? && m.flow.signal.kind.EvalCall? && ch.policy.Some?
    ensures var r := Step(m, ch);
            && r.flow.policy == ch.policy.value && Left(m) == |Plan(m)| && EndsWith(Plan(r), Plan(m))
  {
    hide Inv, TameState, Ordinary, PlanOf, Frames;
    EvalHands(m, ch);
    PlanFrom(Frames(m), 0, m.flow.policy);
  }

  /** A program that ends has the policy it started with, however many limited calls it
      made and however they were left. */
  lemma DoneRestores(m: Machine, choices: seq<Choice>)
    requires Initial(m) && NoLeak(m, choices) && AllOrdinary(choices) && AllSpare(m, choices)
    requires TameState(m) && Target(SignalCont(m.flow.signal)).None?
    ensures var r := Run(m, choices);
            && Plan(r)[|Plan(r)| - 1] == (BlockValue, m.flow.policy)
            && (r.flow.signal.Done? ==> r.flow.policy == m.flow.policy)
  {
    hide Inv, TameState, NoLeak, AllOrdinary, AllSpare, Run, Surviving, PlanOf, Initial, Frames;
    InitialInv(m);
    RunSpares(m, choices);
    RunKeeps(m, choices);
    var r := Run(m, choices);
    PlanEnd(m);
    PlanEnd(r);
    InitialFrames(m);
    if r.flow.signal.Done? {
      DoneIsEmpty(r);
    }
  }

  lemma PlanEnd(m: Machine)
    ensures |Plan(m)| > 0 && Plan(m)[|Plan(m)| - 1] == (BlockValue, After(TargetIn(Frames(m)), m.flow.policy))
  {
  }

  lemma InitialFrames(m: Machine)
    requires Initial(m)
    ensures TargetIn(Frames(m)) == Target(SignalCont(m.flow.signal))
  {
    hide Leaves, Target;
    TargetFront(SignalCont(m.flow.signal), []);
    assert Frames(m) == Leaves(SignalCont(m.flow.signal)) + [];
  }

  lemma DoneIsEmpty(m: Machine)
    requires Inv(m) && m.flow.signal.Done?
    ensures Frames(m) == []
  {
  }

  /** Leaving an arm by finish, return, break or continue: the continuation saved at the
      perform is thrown away with its restoration, the policy of the arm stays, and the frames
      outside the handler are entered under the wrong one unless the two are equal. */
  lemma LeavingArm(m: Machine, ch: Choice, id: nat, saved: Cont, arms: seq<Arm>, input: Input)
    requires Inv(m) && TameState(m) && Ordinary(ch) && m.flow.signal == Apply(Boundary(id, Dispatch(saved), arms), input)
    requires !input.OnValue? && !input.OnResume?
    ensures var r, rest, policy := Step(m, ch), StackLeaves(m.stack), m.flow.policy;
            && r.flow.policy == policy
            && Plan(r) == PlanOf(rest, policy)
            && EndsWith(Plan(m), PlanOf(rest, After(Target(saved), policy)))
            && (After(Target(saved), policy) == policy <==> Harmless(Target(saved), policy))
            && (EndsWith(Plan(m), Plan(r)) <==> Harmless(Target(saved), policy) || FencedIn(rest))
  {
    hide Inv, StackLeaves, FencedIn, Ordinary, TameState, Entries, TargetIn, Schedule;
    var rest, policy := StackLeaves(m.stack), m.flow.policy;
    var k := Boundary(id, Dispatch(saved), arms);
    LeavesArm(m, ch, id, saved, arms, input);
    PlanFront(k, rest, policy);
    assert Target(k) == Target(Dispatch(saved)) == Target(saved);
    PlanFrom(rest, After(Target(saved), policy), policy);
    HandedExactly(rest, After(Target(saved), policy), policy);
  }

  lemma LeavesArm(m: Machine, ch: Choice, id: nat, saved: Cont, arms: seq<Arm>, input: Input)
    requires Inv(m) && m.flow.signal == Apply(Boundary(id, Dispatch(saved), arms), input)
    requires !input.OnValue? && !input.OnResume?
    ensures Frames(m) == Leaves(m.flow.signal.cont) + StackLeaves(m.stack)
    ensures Frames(Step(m, ch)) == StackLeaves(m.stack) && Step(m, ch).flow.policy == m.flow.policy
  {
    hide Inv, StackLeaves, Mirrored, PushFrames;
    var k := m.flow.signal.cont;
    assert Raw(k) == [k] && Raw(k)[1..] == [];
    NoFaultApplying(m, ch);
    EmptyLeaves();
    assert PushFrames(m.stack, []) == m.stack by {
      PushNone(m.stack);
    }
  }

  lemma PushNone(stack: seq<Frame>)
    ensures PushFrames(stack, []) == stack
  {
  }
}
