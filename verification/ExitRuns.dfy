/** Values, returns, resumes and finishes on their way: what they carry and where each stops.
    A return reaches its caller through every frame of the call. */
module ExitRuns {
  import opened Continuations
  import opened HandlerMachine
  import opened HandlerMirror
  import opened HandlerRuns

  /** Code of one call: it holds no call boundary that a return could stop at. */
  predicate Local(k: Cont) {
    match k
    case Chain(inner, outer) => Local(inner) && Local(outer)
    case CallBoundary(_) => false
    case RestorePolicy(_, inner) => Local(inner)
    case ScopedPolicy(_, inner) => Local(inner)
    case _ => true
  }

  /** `v` is being returned from a call whose caller continues with `caller`, over `below`. */
  predicate Returning(m: Machine, below: seq<Frame>, caller: Cont, v: Value) {
    && |below| < |m.stack| && m.stack[..|below|] == below && m.stack[|below|] == CallFrame(caller)
    && (forall i | |below| < i < |m.stack| :: !m.stack[i].CallFrame? && Local(IntoContinuation(m.stack[i])))
    && (m.flow.signal == Returned(v)
        || (m.flow.signal.Apply? && m.flow.signal.input == OnReturn(v) && Local(m.flow.signal.cont)))
  }

  // ----------------------------------------------------------- termination

  function Bulk(k: Cont): nat {
    match k
    case Chain(inner, outer) => 1 + Bulk(inner) + Bulk(outer)
    case RestorePolicy(_, inner) => 1 + Bulk(inner)
    case ScopedPolicy(_, inner) => 5 + Bulk(inner)
    case _ => 1
  }

  function Sum(frames: seq<Cont>): nat {
    if frames == [] then 0 else 2 * Bulk(frames[0]) + 1 + Sum(frames[1..])
  }

  function StackBulk(stack: seq<Frame>): nat {
    if stack == [] then 0 else 2 * Bulk(IntoContinuation(stack[|stack| - 1])) + 1 + StackBulk(stack[..|stack| - 1])
  }

  function Distance(m: Machine): nat {
    StackBulk(m.stack) + if m.flow.signal.Apply? then 2 * Bulk(m.flow.signal.cont) else 0
  }

  lemma {:induction false} RawBulk(k: Cont)
    ensures Sum(Raw(k)) <= 2 * Bulk(k) + 1 && (Local(k) ==> forall leaf <- Raw(k) :: Local(leaf))
  {
    match k
    case Chain(inner, outer) =>
      RawBulk(inner);
      RawBulk(outer);
      SumConcat(Raw(inner), Raw(outer));
    case _ => assert [k][1..] == [];
  }

  lemma {:induction false} SumConcat(left: seq<Cont>, right: seq<Cont>)
    ensures Sum(left + right) == Sum(left) + Sum(right)
  {
    hide Bulk;
    if left == [] {
      assert left + right == right;
    } else {
      assert (left + right)[1..] == left[1..] + right;
      SumConcat(left[1..], right);
    }
  }

  lemma {:induction false} PushBulk(stack: seq<Frame>, conts: seq<Cont>)
    ensures |PushFrames(stack, conts)| == |stack| + |conts| && PushFrames(stack, conts)[..|stack|] == stack
    ensures StackBulk(PushFrames(stack, conts)) == StackBulk(stack) + Sum(conts)
    ensures (forall k <- conts :: Local(k)) ==>
              forall i | |stack| <= i < |PushFrames(stack, conts)| ::
                !PushFrames(stack, conts)[i].CallFrame? && Local(IntoContinuation(PushFrames(stack, conts)[i]))
    decreases |conts|
  {
    hide Bulk;
    if conts != [] {
      PushBulk(stack, conts[1..]);
      var below, top := PushFrames(stack, conts[1..]), FromContinuation(conts[0]);
      assert (below + [top])[..|below|] == below;
      assert IntoContinuation(top) == conts[0];
      assert Local(conts[0]) ==> !top.CallFrame?;
    }
  }

  // -------------------------------------------------------------- one step

  /** One step brings the return closer, or hands its value to the caller. */
  lemma StepReturns(m: Machine, below: seq<Frame>, caller: Cont, v: Value, ch: Choice)
    requires Inv(m) && Returning(m, below, caller, v)
    ensures var r := Step(m, ch);
            && Inv(r) && r.next == m.next
            && if r.flow.signal.Apply? && r.flow.signal.input.OnValue?
               then r.stack == below && r.flow.signal == Apply(caller, OnValue(v))
               else Returning(r, below, caller, v) && Distance(r) < Distance(m)
  {
    hide Inv, Leaks;
    ReturnStaysInside(m);
    StepKeeps(m, ch);
    if m.flow.signal.Apply? {
      ApplyReturns(m, below, caller, v, ch);
    } else {
      PopReturns(m, below, caller, v, ch);
    }
  }

  lemma ReturnStaysInside(m: Machine)
    requires m.flow.signal.Returned? || (m.flow.signal.Apply? && m.flow.signal.input.OnReturn?)
    ensures !Leaks(m)
  {
  }

  lemma PopReturns(m: Machine, below: seq<Frame>, caller: Cont, v: Value, ch: Choice)
    requires Returning(m, below, caller, v) && m.flow.signal == Returned(v)
    ensures var r := Step(m, ch);
            && r.next == m.next
            && if r.flow.signal.Apply? && r.flow.signal.input.OnValue?
               then r.stack == below && r.flow.signal == Apply(caller, OnValue(v))
               else Returning(r, below, caller, v) && Distance(r) < Distance(m)
  {
    hide Bulk, Local;
    var rest := m.stack[..|m.stack| - 1];
    if |m.stack| == |below| + 1 {
      assert rest == below;
    } else {
      assert rest[..|below|] == below;
    }
  }

  lemma ApplyReturns(m: Machine, below: seq<Frame>, caller: Cont, v: Value, ch: Choice)
    requires Returning(m, below, caller, v) && m.flow.signal.Apply? && Inv(Step(m, ch))
    ensures var r := Step(m, ch); r.next == m.next && Returning(r, below, caller, v) && Distance(r) < Distance(m)
  {
    hide Inv, PushFrames, StackBulk, Raw, Local;
    var k := m.flow.signal.cont;
    var raw := Raw(k);
    RawBulk(k);
    assert forall leaf <- raw[1..] :: leaf in raw;
    PushBulk(m.stack, raw[1..]);
    var r := Step(m, ch);
    assert Local(raw[0]) && r.stack == PushFrames(m.stack, raw[1..]);
    assert r.flow == ApplyReturn(m.flow, raw[0], v);
    NoFault(r);
    FrameReturns(m.flow, raw[0], v);
    KeepsBelow(m.stack, r.stack, below, caller);
  }

  lemma NoFault(m: Machine)
    requires Inv(m)
    ensures m.flow.signal.Fault? ==> !IsScopeFault(m.flow.signal.fault)
  {
  }

  lemma KeepsBelow(stack: seq<Frame>, more: seq<Frame>, below: seq<Frame>, caller: Cont)
    requires |below| < |stack| <= |more| && more[..|stack|] == stack
    requires stack[..|below|] == below && stack[|below|] == CallFrame(caller)
    requires forall i | |below| < i < |stack| :: !stack[i].CallFrame? && Local(IntoContinuation(stack[i]))
    requires forall i | |stack| <= i < |more| :: !more[i].CallFrame? && Local(IntoContinuation(more[i]))
    ensures more[..|below|] == below && more[|below|] == CallFrame(caller)
    ensures forall i | |below| < i < |more| :: !more[i].CallFrame? && Local(IntoContinuation(more[i]))
  {
    hide Local, IntoContinuation;
    assert forall i | 0 <= i < |stack| :: more[i] == stack[i];
    assert more[..|below|] == stack[..|below|];
  }

  lemma BareBulk(bare: Cont)
    requires bare.RestorePolicy? && bare.inner.BlockValue?
    ensures Local(bare) && Bulk(bare) == 2
  {
    assert Bulk(bare.inner) == 1 && Local(bare.inner);
  }

  lemma JoinedBulk(inner: Cont, outer: Cont)
    requires Local(inner) && Local(outer)
    ensures Local(Compose(inner, outer)) && Bulk(Compose(inner, outer)) <= 1 + Bulk(inner) + Bulk(outer)
  {
  }

  lemma FrameReturns(f: Flow, first: Cont, v: Value)
    requires Local(first) && !first.Chain?
    ensures var signal := ApplyReturn(f, first, v).signal;
            (signal.Fault? && IsScopeFault(signal.fault))
            || (signal == Returned(v) && Bulk(first) >= 1)
            || (signal.Apply? && signal.input == OnReturn(v) && Local(signal.cont) && Bulk(signal.cont) < Bulk(first))
  {
    match first
    case RestorePolicy(_, _) =>
    case ScopedPolicy(_, inner) =>
      var bare := RestorePolicy(f.policy, BlockValue);
      BareBulk(bare);
      JoinedBulk(inner, bare);
    case _ =>
  }

  // ----------------------------------------------------------- the whole way

  /** From anywhere inside a call a return reaches the caller: its value goes to the caller's
      continuation, over the frames the caller left, whatever frames, handlers and policies
      the call had opened. */
  lemma {:induction false} ReturnReachesCaller(m: Machine, below: seq<Frame>, caller: Cont, v: Value, choices: seq<Choice>)
    requires Inv(m) && Returning(m, below, caller, v) && |choices| > Distance(m)
    ensures exists n :: 0 < n <= |choices| &&
              var r := Run(m, choices[..n]);
              Inv(r) && r.stack == below && r.flow.signal == Apply(caller, OnValue(v)) && r.next == m.next
    decreases Distance(m)
  {
    hide Inv, Returning, Distance, Step;
    var r := Step(m, choices[0]);
    StepReturns(m, below, caller, v, choices[0]);
    assert choices[..1][1..] == [] && Run(r, []) == r;
    assert Run(m, choices[..1]) == r;
    if !(r.flow.signal.Apply? && r.flow.signal.input.OnValue?) {
      ReturnReachesCaller(r, below, caller, v, choices[1..]);
      var n :| 0 < n <= |choices| - 1 && var last := Run(r, choices[1..][..n]);
               Inv(last) && last.stack == below && last.flow.signal == Apply(caller, OnValue(v)) && last.next == r.next;
      assert choices[..n + 1][1..] == choices[1..][..n];
      assert Run(m, choices[..n + 1]) == Run(r, choices[1..][..n]);
    }
  }

  /** A saved call boundary stops a return in the same way. */
  lemma ReturnAtBoundary(m: Machine, caller: Cont, v: Value, ch: Choice)
    requires m.flow.signal == Apply(CallBoundary(caller), OnReturn(v))
    ensures Step(m, ch) == m.(flow := m.flow.(signal := Apply(caller, OnValue(v))))
  {
    assert Raw(CallBoundary(caller))[1..] == [];
  }

  // ------------------------------------------------- what is carried, and as what

  datatype Kind = AsValue | AsReturn | AsResume | AsFinish

  datatype Load = Load(kind: Kind, v: Value)

  /** What the machine is carrying to the next frame. */
  function Carried(signal: Signal): Option<Load> {
    match signal
    case Completed(v) => Some(Load(AsValue, v))
    case Done(v) => Some(Load(AsValue, v))
    case Returned(v) => Some(Load(AsReturn, v))
    case Resumed(v) => Some(Load(AsResume, v))
    case Finished(v) => Some(Load(AsFinish, v))
    case Apply(_, OnValue(v)) => Some(Load(AsValue, v))
    case Apply(_, OnReturn(v)) => Some(Load(AsReturn, v))
    case Apply(_, OnResume(v)) => Some(Load(AsResume, v))
    case Apply(_, OnFinish(v)) => Some(Load(AsFinish, v))
    case _ => None
  }

  /** The value is given to code of the program, or opens a handler. */
  predicate GivenToCode(m: Machine) {
    && m.flow.signal.Apply? && m.flow.signal.input.OnValue?
    && var first := Raw(m.flow.signal.cont)[0]; first.Plain? || first.Loop? || first.HandleHandler?
  }

  /** The frame at which an exit of this kind becomes a plain value. */
  predicate Stops(k: Cont, kind: Kind) {
    match kind
    case AsValue => true
    case AsReturn => k.CallBoundary?
    case AsResume => k.Dispatch?
    case AsFinish => k.Boundary?
  }

  /** What a value turns into when an exit has been waiting for it. */
  function LeavesAs(k: Cont): Kind {
    match k
    case ExitReturn => AsReturn
    case ExitResume => AsResume
    case ExitFinish => AsFinish
    case _ => AsValue
  }

  /** A frame passes on the very value it is given. A return stops at a call, a resume at the
      arm's saved continuation, a finish at the handler; nothing else stops or changes one. */
  lemma FramePasses(f: Flow, first: Cont, input: Input, ch: Choice, next: nat)
    requires !first.Chain? && Carried(Apply(first, input)).Some?
    requires input.OnValue? ==> !first.Plain? && !first.Loop? && !first.HandleHandler?
    ensures var signal := ApplyFrame(f, first, input, ch, next).signal;
            var load := Carried(Apply(first, input)).value;
            signal.Fault? ||
            Carried(signal) == Some(Load(if input.OnValue? then LeavesAs(first) else if Stops(first, load.kind) then AsValue else load.kind, load.v))
  {
  }

  /** The same at a frame of the stack: every exit stops at a call. */
  lemma PopPasses(signal: Signal, top: Frame)
    requires Carried(signal).Some? && !signal.Apply? && !signal.Done?
    ensures var load := Carried(signal).value;
            Carried(PopSignal(signal, top)) == Some(Load(if top.CallFrame? then AsValue else load.kind, load.v))
  {
  }

  /** No step changes a value on its way, except by giving it to the program's code. */
  lemma ValuesKept(m: Machine, ch: Choice)
    requires Inv(m) && Carried(m.flow.signal).Some? && !GivenToCode(m)
    ensures Carried(Step(m, ch).flow.signal).Some? && Carried(Step(m, ch).flow.signal).value.v == Carried(m.flow.signal).value.v
  {
    hide Inv, ApplyFrame, PopSignal, PushFrames, Raw;
    NotLeaking(m);
    StepKeeps(m, ch);
    if m.flow.signal.Apply? {
      var first := Raw(m.flow.signal.cont)[0];
      FramePasses(m.flow, first, m.flow.signal.input, ch, m.next);
      NoFault(Step(m, ch));
      OnlyScopeFaults(m.flow, first, m.flow.signal.input, ch, m.next);
    } else if m.stack != [] && !m.flow.signal.Done? {
      PopPasses(m.flow.signal, m.stack[|m.stack| - 1]);
    }
  }

  lemma NotLeaking(m: Machine)
    requires Carried(m.flow.signal).Some?
    ensures !Leaks(m)
  {
  }

  /** Frames that run no code fault only over a broken handler stack. */
  lemma OnlyScopeFaults(f: Flow, first: Cont, input: Input, ch: Choice, next: nat)
    requires !first.Chain? && Carried(Apply(first, input)).Some?
    requires input.OnValue? ==> !first.Plain? && !first.Loop? && !first.HandleHandler?
    ensures var signal := ApplyFrame(f, first, input, ch, next).signal; signal.Fault? ==> IsScopeFault(signal.fault)
  {
  }

  /** A `try` gives its error's payload as a value exactly when it captures the error's type. */
  lemma TryCatchesExactly(m: Machine, below: seq<Frame>, captured: set<nat>, errorType: nat, v: Value, ch: Choice)
    requires m.stack == below + [ContinuationFrame(TryExpr(captured))]
    requires m.flow.signal == Performed(Raise(errorType, v), BlockValue)
    ensures Step(m, ch) == Machine(below, m.flow.(signal := if errorType in captured then Completed(v)
                                                           else Performed(Raise(errorType, v), TryExpr(captured))), m.next)
  {
    assert m.stack[..|m.stack| - 1] == below;
  }

  // ------------------------------------------------ requests, handlers and loops

  /** An action that no open scope has an arm for goes to the outside, and the answer goes to
      the continuation that performed it; nothing else changes. */
  lemma UnhandledIsAnswered(m: Machine, symbol: Option<nat>, args: Value, ch: Choice)
    requires Inv(m) && m.flow.signal.Performed? && m.flow.signal.request == Action(symbol, args)
    requires symbol.None? || forall i | 0 <= i < |m.flow.handlers| :: ActionArm(symbol) !in m.flow.handlers[i].arms
    ensures Step(m, ch) == m.(flow := m.flow.(signal := Apply(m.flow.signal.cont, OnValue(ch.answer))))
  {
    hide Inv, ScopeMatches;
    StepPerformKeeps(m, ch);
    forall i | 0 <= i < |m.flow.handlers| ensures !ScopeMatches(m.flow.signal.request, m.flow.handlers[i].arms) {
      ScopeMatchesExactly(m.flow.signal.request, m.flow.handlers[i].arms);
    }
  }

  lemma HostAnswers(m: Machine, k: Cont, ch: Choice)
    requires m.flow.signal == HostCall(k)
    ensures Step(m, ch) == m.(flow := m.flow.(signal := Apply(k, OnValue(ch.answer))))
  {
  }

  /** A handle opens a scope with the arms it was given and evaluates its body under it. */
  lemma HandleOpensItsArms(m: Machine, v: Value, ch: Choice)
    requires m.flow.signal == Apply(HandleHandler, OnValue(v))
    ensures var r := Step(m, ch);
            && r.stack == m.stack && r.next == m.next + 1
            && r.flow.handlers == m.flow.handlers + [Scope(m.next, ch.arms)]
            && r.flow.signal == Eval(EvalExpr, Boundary(m.next, BlockValue, ch.arms))
  {
    assert Raw(HandleHandler)[1..] == [];
  }

  /** A break ends the innermost loop with the unit value, a continue starts its next round,
      and both pass every other frame as they are. */
  lemma LoopControlStops(m: Machine, k: Cont, input: Input, ch: Choice)
    requires !k.Chain? && m.flow.signal == Apply(k, input) && (input.OnBreak? || input.OnContinue?)
    ensures Step(m, ch) == m.(flow := m.flow.(signal :=
              if k.Loop? then (if input.OnBreak? then Completed(0) else Apply(k, OnValue(0)))
              else if input.OnBreak? then BreakLoop else ContinueLoop))
  {
    assert Raw(k)[1..] == [];
  }
}
