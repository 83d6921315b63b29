/** The evaluation machine as a step function: frame stack, pending signal, handler stack.

    Frames that only compute are opaque, so one machine stands for every program: a
    `Choice` says what the computing frame at the front emits, which arms a handler
    value holds, and what the host answers. */
module HandlerMachine {
  import opened Continuations

  datatype Input =
    | OnValue(v: Value) | OnReturn(v: Value) | OnResume(v: Value) | OnFinish(v: Value)
    | OnBreak | OnContinue

  datatype EvalKind = EvalBlock | EvalExpr | EvalCall

  datatype FaultKind =
    | ProgramFault | LoopEscaped
    | StackEmpty | StackMismatch | ReentryOrder | MissingBoundary
    | DuplicateOwner | ForwardedOwner | LexicalOwners

  /** Faults that report a broken handler stack rather than a broken program. */
  predicate IsScopeFault(fault: FaultKind) {
    !fault.ProgramFault? && !fault.LoopEscaped?
  }

  datatype Signal =
    | Apply(cont: Cont, input: Input)
    | Completed(v: Value) | Returned(v: Value) | Resumed(v: Value) | Finished(v: Value)
    | BreakLoop | ContinueLoop
    | Eval(kind: EvalKind, cont: Cont)
    | Performed(request: Request, cont: Cont)
    | HostCall(cont: Cont)
    | Fault(fault: FaultKind)
    | Done(v: Value)
    | Uncaught(request: Request, cont: Cont)

  function SignalCont(signal: Signal): Cont {
    match signal
    case Apply(k, _) => k
    case Eval(_, k) => k
    case Performed(_, k) => k
    case HostCall(k) => k
    case Uncaught(_, k) => k
    case _ => BlockValue
  }

  datatype Frame =
    | BlockFrame(cont: Cont)
    | ExprFrame(cont: Cont)
    | CallFrame(cont: Cont)
    | ContinuationFrame(cont: Cont)
    | HandlerFrame(id: nat, inner: Cont, arms: seq<Arm>)

  function FromContinuation(k: Cont): Frame {
    match k
    case CallBoundary(outer) => CallFrame(outer)
    case Boundary(id, inner, arms) => HandlerFrame(id, inner, arms)
    case _ => ContinuationFrame(k)
  }

  /** What a popped frame contributes to the continuation of a perform. */
  function IntoContinuation(frame: Frame): Cont {
    match frame
    case CallFrame(k) => CallBoundary(k)
    case HandlerFrame(id, inner, arms) => Boundary(id, inner, arms)
    case _ => frame.cont
  }

  /** Continuations as programs build them: no handler structure inside. */
  predicate Quiet(k: Cont) {
    match k
    case Boundary(_, _, _) => false
    case Reenter(_) => false
    case Dispatch(_) => false
    case Chain(inner, outer) => Quiet(inner) && Quiet(outer)
    case CallBoundary(outer) => Quiet(outer)
    case RestorePolicy(_, inner) => Quiet(inner)
    case ScopedPolicy(_, inner) => Quiet(inner)
    case _ => true
  }

  predicate IsEmission(signal: Signal) {
    && Quiet(SignalCont(signal))
    && !signal.Done? && !signal.Uncaught?
    && (signal.Fault? ==> signal.fault.ProgramFault?)
  }

  type Emission = s: Signal | IsEmission(s) witness Completed(0)

  datatype Choice = Choice(emission: Emission, arms: seq<Arm>, answer: Value, policy: Option<nat>, pack: bool)

  /** What one continuation frame reads and writes: the signal and the task state. */
  datatype Flow = Flow(signal: Signal, handlers: seq<Scope>, policy: nat)

  datatype Machine = Machine(stack: seq<Frame>, flow: Flow, next: nat)

  // ---------------------------------------------------------- handler scopes

  function CloseScope(f: Flow, id: nat): Flow {
    if f.handlers == [] then f.(signal := Fault(StackEmpty))
    else if f.handlers[|f.handlers| - 1].id != id then f.(signal := Fault(StackMismatch))
    else f.(handlers := f.handlers[..|f.handlers| - 1])
  }

  function WithCont(signal: Signal, k: Cont): Signal {
    match signal
    case Apply(_, input) => Apply(k, input)
    case Eval(kind, _) => Eval(kind, k)
    case Performed(request, _) => Performed(request, k)
    case HostCall(_) => HostCall(k)
    case _ => signal
  }

  function WrapBoundary(f: Flow, id: nat, arms: seq<Arm>): Flow {
    var k := SignalCont(f.signal);
    if Occurrences(k, id) == 0 then f.(signal := WithCont(f.signal, Boundary(id, k, arms)))
    else if Occurrences(k, id) == 1 then f
    else f.(signal := Fault(DuplicateOwner))
  }

  function SuspendForPerform(f: Flow, id: nat, arms: seq<Arm>): Flow
    requires f.signal.Performed?
  {
    var k := f.signal.cont;
    if Occurrences(k, id) != 0 then f.(signal := Fault(ForwardedOwner))
    else
      var closed := CloseScope(f, id);
      if closed.signal.Fault? then closed
      else closed.(signal := Performed(f.signal.request, Reenter(Boundary(id, k, arms))))
  }

  function ContinueHandle(f: Flow, id: nat, arms: seq<Arm>): Flow {
    match f.signal
    case Performed(request, k) =>
      if ScopeMatches(request, arms)
      then WrapBoundary(f.(signal := Eval(EvalBlock, Dispatch(k))), id, arms)
      else SuspendForPerform(f, id, arms)
    case Apply(_, _) => WrapBoundary(f, id, arms)
    case Eval(_, _) => WrapBoundary(f, id, arms)
    case HostCall(_) => WrapBoundary(f, id, arms)
    case _ => CloseScope(f, id)
  }

  function ReenterScope(f: Flow, boundary: Cont, v: Value): Flow {
    match boundary
    case Boundary(id, _, arms) =>
      if f.handlers != [] && f.handlers[|f.handlers| - 1].id >= id
      then f.(signal := Fault(ReentryOrder))
      else f.(handlers := f.handlers + [Scope(id, arms)], signal := Apply(boundary, OnValue(v)))
    case _ => f.(signal := Fault(MissingBoundary))
  }

  // ------------------------------------------------- propagating a perform

  /** A signal that is not a perform meets the next outer frame. */
  function ContinueChain(signal: Signal, outer: Cont): Signal {
    match signal
    case Completed(v) => Apply(outer, OnValue(v))
    case Returned(v) => Apply(outer, OnReturn(v))
    case Resumed(v) => Apply(outer, OnResume(v))
    case Finished(v) => Apply(outer, OnFinish(v))
    case BreakLoop => Apply(outer, OnBreak)
    case ContinueLoop => Apply(outer, OnContinue)
    case Fault(_) => signal
    case Done(_) => signal
    case Uncaught(_, _) => signal
    case _ => WithCont(signal, Compose(SignalCont(signal), outer))
  }

  predicate Raising(signal: Signal) {
    signal.Performed? && signal.request.Raise?
  }

  predicate Captures(captured: set<nat>, request: Request) {
    match request
    case Raise(errorType, _) => errorType in captured
    case Action(_, _) => false
  }

  function Payload(request: Request): Value {
    match request
    case Raise(_, payload) => payload
    case Action(_, args) => args
  }

  /** A travelling perform meets one frame; any other signal is handed to that frame. */
  function PassLeaf(f: Flow, leaf: Cont): Flow {
    match f.signal
    case Performed(request, k) => (
      match leaf
      case Boundary(id, _, arms) => ContinueHandle(f, id, arms)
      case RestorePolicy(policy, _) =>
        if request.Raise? then f.(policy := policy)
        else f.(signal := Performed(request, Compose(k, leaf)))
      case TryExpr(captured) =>
        if Captures(captured, request) then f.(signal := Completed(Payload(request)))
        else f.(signal := Performed(request, Compose(k, leaf)))
      case _ => f.(signal := Performed(request, Compose(k, leaf)))
    )
    case _ => f.(signal := ContinueChain(f.signal, leaf))
  }

  /** A perform travels outwards through a whole continuation tree. */
  function Propagate(f: Flow, k: Cont): Flow
    decreases k
  {
    match k
    case Chain(inner, outer) => Propagate(Propagate(f, inner), outer)
    case Boundary(id, inner, arms) =>
      PassLeaf(if inner.BlockValue? then f else Propagate(f, inner), Boundary(id, BlockValue, arms))
    case RestorePolicy(policy, inner) =>
      if !inner.BlockValue? && Raising(f.signal)
      then PassLeaf(Propagate(f, inner), RestorePolicy(policy, BlockValue))
      else PassLeaf(f, k)
    case _ => PassLeaf(f, k)
  }

  // ------------------------------------------------ one frame meets one input

  function ApplyValue(f: Flow, k: Cont, v: Value, ch: Choice, next: nat): Flow {
    match k
    case BlockValue => f.(signal := Completed(v))
    case ExitReturn => f.(signal := Returned(v))
    case ExitResume => f.(signal := Resumed(v))
    case ExitFinish => f.(signal := Finished(v))
    case TryExpr(_) => f.(signal := Completed(v))
    case HandleHandler =>
      f.(handlers := f.handlers + [Scope(next, ch.arms)],
         signal := Eval(EvalExpr, Boundary(next, BlockValue, ch.arms)))
    case CallBoundary(outer) => f.(signal := Apply(outer, OnValue(v)))
    case Dispatch(outer) => f.(signal := Apply(outer, OnValue(v)))
    case Reenter(boundary) => ReenterScope(f, boundary, v)
    case Boundary(id, inner, arms) =>
      if inner.BlockValue? then ContinueHandle(f.(signal := Completed(v)), id, arms)
      else f.(signal := Apply(Compose(inner, Boundary(id, BlockValue, arms)), OnValue(v)))
    case RestorePolicy(policy, inner) => f.(policy := policy, signal := Apply(inner, OnValue(v)))
    case ScopedPolicy(policy, inner) =>
      f.(policy := policy, signal := Apply(Compose(inner, RestorePolicy(f.policy, BlockValue)), OnValue(v)))
    case _ => f.(signal := ch.emission)
  }

  function ApplyReturn(f: Flow, k: Cont, v: Value): Flow {
    match k
    case CallBoundary(outer) => f.(signal := Apply(outer, OnValue(v)))
    case Boundary(id, _, _) => CloseScope(f.(signal := Returned(v)), id)
    case RestorePolicy(policy, inner) => f.(policy := policy, signal := Apply(inner, OnReturn(v)))
    case ScopedPolicy(policy, inner) =>
      f.(policy := policy, signal := Apply(Compose(inner, RestorePolicy(f.policy, BlockValue)), OnReturn(v)))
    case _ => f.(signal := Returned(v))
  }

  function ApplyResume(f: Flow, k: Cont, v: Value): Flow {
    match k
    case Dispatch(outer) => f.(signal := Apply(outer, OnValue(v)))
    case Boundary(id, inner, arms) =>
      if inner.BlockValue? then ContinueHandle(f.(signal := Resumed(v)), id, arms)
      else f.(signal := Apply(Compose(inner, Boundary(id, BlockValue, arms)), OnResume(v)))
    case RestorePolicy(policy, inner) => f.(policy := policy, signal := Apply(inner, OnResume(v)))
    case _ => f.(signal := Resumed(v))
  }

  function ApplyFinish(f: Flow, k: Cont, v: Value): Flow {
    match k
    case Boundary(id, _, _) => CloseScope(f.(signal := Completed(v)), id)
    case RestorePolicy(policy, inner) => f.(policy := policy, signal := Apply(inner, OnFinish(v)))
    case _ => f.(signal := Finished(v))
  }

  /** Break and continue look for a loop; every other frame is passed without entering it. */
  function ApplyLoopControl(f: Flow, k: Cont, input: Input): Flow
    requires input.OnBreak? || input.OnContinue?
  {
    if k.Loop? then f.(signal := if input.OnBreak? then Completed(0) else Apply(k, OnValue(0)))
    else f.(signal := if input.OnBreak? then BreakLoop else ContinueLoop)
  }

  function ApplyFrame(f: Flow, k: Cont, input: Input, ch: Choice, next: nat): Flow {
    match input
    case OnValue(v) => ApplyValue(f, k, v, ch, next)
    case OnReturn(v) => ApplyReturn(f, k, v)
    case OnResume(v) => ApplyResume(f, k, v)
    case OnFinish(v) => ApplyFinish(f, k, v)
    case _ => ApplyLoopControl(f, k, input)
  }

  // ------------------------------------------------------------- the machine

  /** Push the frames `conts` (innermost first), outermost first. */
  function PushFrames(stack: seq<Frame>, conts: seq<Cont>): seq<Frame> {
    if conts == [] then stack
    else PushFrames(stack, conts[1..]) + [FromContinuation(conts[0])]
  }

  function FrameLeaves(frame: Frame): seq<Cont> {
    Leaves(IntoContinuation(frame))
  }

  /** Leaves of the frames on the stack, innermost (top) first. */
  function StackLeaves(stack: seq<Frame>): seq<Cont> {
    if stack == [] then []
    else FrameLeaves(stack[|stack| - 1]) + StackLeaves(stack[..|stack| - 1])
  }

  /** Everything still to be run, innermost first. */
  function Frames(m: Machine): seq<Cont> {
    Leaves(SignalCont(m.flow.signal)) + StackLeaves(m.stack)
  }

  function OccurrencesIn(frames: seq<Cont>, id: nat): nat {
    if frames == [] then 0 else Occurrences(frames[0], id) + OccurrencesIn(frames[1..], id)
  }

  /** The lexical-owner check made before the handler stack is searched. */
  predicate HasLexicalOwners(m: Machine) {
    && (forall id | 0 <= id < m.next :: OccurrencesIn(Frames(m), id) <= 1)
    && (forall i | 0 <= i < |m.flow.handlers| :: OccurrencesIn(Frames(m), m.flow.handlers[i].id) == 1)
  }

  predicate Handled(request: Request, handlers: seq<Scope>) {
    exists i :: 0 <= i < |handlers| && ScopeMatches(request, handlers[i].arms)
  }

  function PopSignal(signal: Signal, frame: Frame): Signal {
    match signal
    case Completed(v) =>
      Apply(if frame.CallFrame? then frame.cont else IntoContinuation(frame), OnValue(v))
    case BreakLoop =>
      if frame.CallFrame? then Fault(LoopEscaped) else Apply(IntoContinuation(frame), OnBreak)
    case ContinueLoop =>
      if frame.CallFrame? then Fault(LoopEscaped) else Apply(IntoContinuation(frame), OnContinue)
    case _ =>
      if frame.CallFrame? then (
        match signal
        case Returned(v) => Apply(frame.cont, OnValue(v))
        case Resumed(v) => Apply(frame.cont, OnValue(v))
        case Finished(v) => Apply(frame.cont, OnValue(v))
        case _ => signal)
      else if frame.ExprFrame? then signal
      else ContinueChain(signal, IntoContinuation(frame))
  }

  function StepPerform(m: Machine, ch: Choice): Machine
    requires m.flow.signal.Performed?
  {
    var f := m.flow;
    var request := f.signal.request;
    if request.Action? && f.handlers != [] && !HasLexicalOwners(m) then
      m.(flow := f.(signal := Fault(LexicalOwners)))
    else if request.Action? && !Handled(request, f.handlers) then
      m.(flow := f.(signal := Apply(f.signal.cont, OnValue(ch.answer))))
    else if m.stack == [] then
      if request.Action? then m.(flow := f.(signal := Apply(f.signal.cont, OnValue(ch.answer))))
      else m.(flow := f.(signal := Uncaught(request, f.signal.cont)))
    else
      var top := m.stack[|m.stack| - 1];
      var whole := Compose(f.signal.cont, IntoContinuation(top));
      Machine(m.stack[..|m.stack| - 1],
              Propagate(f.(signal := Performed(request, BlockValue)), whole),
              m.next)
  }

  function StepEval(m: Machine, ch: Choice): Machine
    requires m.flow.signal.Eval?
  {
    var f := m.flow;
    var limited := f.signal.kind.EvalCall? && ch.policy.Some?;
    var k := if limited then RestorePolicy(f.policy, f.signal.cont) else f.signal.cont;
    var frame := match f.signal.kind
      case EvalBlock => BlockFrame(BlockValue)
      case EvalExpr => ExprFrame(if ch.pack then Plain(0) else BlockValue)
      case EvalCall => CallFrame(BlockValue);
    Machine(PushFrames(m.stack, Leaves(k)) + [frame],
            f.(signal := ch.emission, policy := if limited then ch.policy.value else f.policy),
            m.next)
  }

  function StepApply(m: Machine, ch: Choice): Machine
    requires m.flow.signal.Apply?
  {
    var f := m.flow;
    var raw := Raw(f.signal.cont);
    var opens := raw[0].HandleHandler? && f.signal.input.OnValue?;
    Machine(PushFrames(m.stack, raw[1..]),
            ApplyFrame(f, raw[0], f.signal.input, ch, m.next),
            if opens then m.next + 1 else m.next)
  }

  /** One turn of the machine loop; terminal signals stay put. */
  function Step(m: Machine, ch: Choice): Machine {
    var f := m.flow;
    match f.signal
    case Apply(_, _) => StepApply(m, ch)
    case Eval(_, _) => StepEval(m, ch)
    case Performed(_, _) => StepPerform(m, ch)
    case HostCall(k) => m.(flow := f.(signal := Apply(k, OnValue(ch.answer))))
    case Fault(_) => m
    case Done(_) => m
    case Uncaught(_, _) => m
    case _ =>
      if m.stack == [] then
        m.(flow := f.(signal :=
          match f.signal
          case BreakLoop => Fault(LoopEscaped)
          case ContinueLoop => Fault(LoopEscaped)
          case Completed(v) => Done(v)
          case Returned(v) => Done(v)
          case Resumed(v) => Done(v)
          case Finished(v) => Done(v)
          case _ => f.signal))
      else
        Machine(m.stack[..|m.stack| - 1],
                f.(signal := PopSignal(f.signal, m.stack[|m.stack| - 1])),
                m.next)
  }

  function Run(m: Machine, choices: seq<Choice>): Machine
    decreases |choices|
  {
    if choices == [] then m else Run(Step(m, choices[0]), choices[1..])
  }

  /** A program start: nothing on the stack, no scope open. */
  predicate Initial(m: Machine) {
    m.stack == [] && m.flow.handlers == [] && Quiet(SignalCont(m.flow.signal)) && m.flow.signal.Eval?
  }
}
