/** Programs that run a caller's code under the policy of a limited call. */
module PolicyLoss {
  import opened Continuations
  import opened HandlerMachine
  import opened HandlerMirror
  import opened HandlerRuns
  import opened PolicyPlans
  import opened PolicyRuns

  const Arms: seq<Arm> := [ActionArm(Some(5))]
  const Ask: Request := Action(Some(5), 0)
  /** A program start under the given policy. */
  function Start(policy: nat): Machine {
    Machine([], Flow(Eval(EvalBlock, BlockValue), [], policy), 0)
  }

  /** What the perform collects: the call, the caller's restoration, the handled body. */
  const Saved: Cont := Chain(Chain(CallBoundary(BlockValue), RestorePolicy(1, BlockValue)), BlockValue)

  function Emits(signal: Emission): Choice {
    Choice(signal, Arms, 0, Some(9), false)
  }

  const Block: seq<Frame> := [BlockFrame(BlockValue)]

  /** The same block inside an outer limited call, with a frame of that call's callee. */
  const Nested: seq<Frame> :=
    Block + [ContinuationFrame(RestorePolicy(2, BlockValue)), CallFrame(BlockValue), ContinuationFrame(Plain(7))]

  const Opened: seq<Scope> := [Scope(0, Arms)]

  function At(stack: seq<Frame>, signal: Signal, policy: nat): Machine {
    Machine(stack, Flow(signal, Opened, policy), 1)
  }

  function Body(bottom: seq<Frame>): seq<Frame> {
    bottom + [HandlerFrame(0, BlockValue, Arms), ExprFrame(BlockValue)]
  }

  function Limited(bottom: seq<Frame>): seq<Frame> {
    Body(bottom) + [ContinuationFrame(RestorePolicy(1, BlockValue)), CallFrame(BlockValue)]
  }

  const Handler: Cont := Boundary(0, BlockValue, Arms)
  const Saving: Cont := Boundary(0, Dispatch(Saved), Arms)

  /** A handler has been opened under policy 1, and its body is to be evaluated. */
  function Opening(bottom: seq<Frame>): Machine {
    At(bottom, Eval(EvalExpr, Handler), 1)
  }

  /** The program opens the handler. */
  lemma Opens()
    ensures Step(Step(Start(1), Emits(Apply(HandleHandler, OnValue(0)))), Emits(Eval(EvalCall, BlockValue))) == Opening(Block)
  {
    LeafFrames(BlockValue, []);
    var m1 := Step(Start(1), Emits(Apply(HandleHandler, OnValue(0))));
    assert m1 == Machine(Block, Flow(Apply(HandleHandler, OnValue(0)), [], 1), 0);
    assert Raw(HandleHandler)[1..] == [];
  }

  /** So does the callee of an outer call that is limited to 1. */
  const Callee: Cont := Chain(HandleHandler, Plain(7))
  const CallsOut: Choice := Choice(Eval(EvalCall, BlockValue), Arms, 0, Some(1), false)
  const OpensIn: Choice := Choice(Apply(Callee, OnValue(0)), Arms, 0, Some(1), false)
  const Outer: seq<Frame> := Block + [ContinuationFrame(RestorePolicy(2, BlockValue)), CallFrame(BlockValue)]

  lemma OpensNested()
    ensures Step(Step(Step(Start(2), CallsOut), OpensIn), OpensIn) == Opening(Nested)
  {
    hide Step;
    CallsOuter();
    EntersCallee();
    OpensCallee();
  }

  lemma CallsOuter()
    ensures Step(Start(2), CallsOut) == Machine(Block, Flow(Eval(EvalCall, BlockValue), [], 2), 0)
  {
    LeafFrames(BlockValue, []);
  }

  lemma EntersCallee()
    ensures Step(Machine(Block, Flow(Eval(EvalCall, BlockValue), [], 2), 0), OpensIn)
         == Machine(Outer, Flow(Apply(Callee, OnValue(0)), [], 1), 0)
  {
    LeafFrames(RestorePolicy(2, BlockValue), Block);
  }

  lemma OpensCallee()
    ensures Step(Machine(Outer, Flow(Apply(Callee, OnValue(0)), [], 1), 0), OpensIn) == Opening(Nested)
  {
    assert Raw(Callee) == [HandleHandler, Plain(7)] && Raw(Callee)[1..] == [Plain(7)];
    PushPlain(Outer);
  }

  lemma OrdinaryNested()
    ensures Ordinary(CallsOut) && Ordinary(OpensIn)
  {
  }

  lemma PushPlain(stack: seq<Frame>)
    ensures PushFrames(stack, [Plain(7)]) == stack + [ContinuationFrame(Plain(7))]
  {
    assert [Plain(7)][1..] == [];
    assert PushFrames(stack, []) == stack;
  }

  lemma Evaluates(bottom: seq<Frame>)
    ensures Step(Opening(bottom), Emits(Eval(EvalCall, BlockValue))) == At(Body(bottom), Eval(EvalCall, BlockValue), 1)
  {
    LeafFrames(Handler, bottom);
  }

  /** The call narrows the policy to 9 and performs the action. */
  lemma Calls(bottom: seq<Frame>)
    ensures Step(At(Body(bottom), Eval(EvalCall, BlockValue), 1), Emits(Performed(Ask, BlockValue)))
         == At(Limited(bottom), Performed(Ask, BlockValue), 9)
  {
    LeafFrames(RestorePolicy(1, BlockValue), Body(bottom));
  }

  lemma LeafFrames(k: Cont, stack: seq<Frame>)
    requires !k.Chain?
    ensures PushFrames(stack, Leaves(k)) == if k.BlockValue? then stack else stack + [FromContinuation(k)]
  {
    if !k.BlockValue? {
      assert [k][1..] == [];
      assert PushFrames(stack, []) == stack;
    }
  }

  lemma AskHandled()
    ensures ScopeMatches(Ask, Arms) && Handled(Ask, Opened)
  {
    assert ArmMatches(Ask, Arms[0]);
    assert ScopeMatches(Ask, Opened[0].arms);
  }

  /** One pop of the travelling action. */
  lemma AskPops(stack: seq<Frame>, top: Frame, k: Cont, ch: Choice)
    requires Inv(At(stack + [top], Performed(Ask, k), 9))
    ensures var m := Step(At(stack + [top], Performed(Ask, k), 9), ch);
            Inv(m) && m == Machine(stack, Propagate(Asking(BlockValue), Compose(k, IntoContinuation(top))), 1)
  {
    hide Inv, Propagate;
    AskHandled();
    StepPerformKeeps(At(stack + [top], Performed(Ask, k), 9), ch);
    assert (stack + [top])[..|stack|] == stack;
  }

  function Asking(k: Cont): Flow {
    Flow(Performed(Ask, k), Opened, 9)
  }

  const Call: Cont := CallBoundary(BlockValue)
  const Restore: Cont := RestorePolicy(1, BlockValue)

  lemma Passes(k: Cont, leaf: Cont)
    requires leaf.CallBoundary? || leaf.RestorePolicy? || leaf.BlockValue?
    ensures Propagate(Asking(k), leaf) == Asking(Compose(k, leaf))
  {
    hide Propagate;
    PropagateLeaf(Asking(k), leaf);
  }

  lemma Collects()
    ensures Propagate(Asking(BlockValue), Call) == Asking(Call)
    ensures Propagate(Asking(BlockValue), Chain(Call, Restore)) == Asking(Chain(Call, Restore))
    ensures Propagate(Asking(BlockValue), Saved) == Asking(Saved)
  {
    hide Propagate, Asking;
    Passes(BlockValue, Call);
    Passes(Call, Restore);
    Passes(Chain(Call, Restore), BlockValue);
    PropagateChain(Asking(BlockValue), Call, Restore);
    PropagateChain(Asking(BlockValue), Chain(Call, Restore), BlockValue);
  }

  lemma Dispatches()
    ensures Propagate(Asking(BlockValue), Chain(Saved, Boundary(0, BlockValue, Arms)))
         == Flow(Eval(EvalBlock, Boundary(0, Dispatch(Saved), Arms)), Opened, 9)
  {
    hide Propagate, ContinueHandle;
    Collects();
    Matches();
    PropagateChain(Asking(BlockValue), Saved, Boundary(0, BlockValue, Arms));
    PropagateBoundary(Asking(Saved), 0, BlockValue, Arms);
    assert PassLeaf(Asking(Saved), Boundary(0, BlockValue, Arms)) == ContinueHandle(Asking(Saved), 0, Arms);
  }

  lemma Matches()
    ensures ContinueHandle(Asking(Saved), 0, Arms) == Flow(Eval(EvalBlock, Boundary(0, Dispatch(Saved), Arms)), Opened, 9)
  {
    hide ContinueHandle, Occurrences, Quiet;
    AskHandled();
    SavedQuiet();
    QuietSummary(Saved, -1);
    Handles(Asking(Saved), 0, Arms);
  }

  lemma SavedQuiet()
    ensures Quiet(Saved)
  {
    assert Quiet(Chain(CallBoundary(BlockValue), RestorePolicy(1, BlockValue)));
  }

  lemma Handles(f: Flow, id: nat, arms: seq<Arm>)
    requires f.signal.Performed? && ScopeMatches(f.signal.request, arms) && Occurrences(f.signal.cont, id) == 0
    ensures ContinueHandle(f, id, arms) == f.(signal := Eval(EvalBlock, Boundary(id, Dispatch(f.signal.cont), arms)))
  {
    hide ScopeMatches;
  }

  /** The action reaches the handler, which saves what it crossed and evaluates the arm. */
  lemma Asks(bottom: seq<Frame>, ch: Choice)
    requires Inv(At(Limited(bottom), Performed(Ask, BlockValue), 9))
    ensures Step(Step(Step(Step(At(Limited(bottom), Performed(Ask, BlockValue), 9), ch), ch), ch), ch)
         == At(bottom, Eval(EvalBlock, Saving), 9)
  {
    hide Inv, Propagate, Step;
    Collects();
    Dispatches();
    var body, below := Body(bottom), bottom + [HandlerFrame(0, BlockValue, Arms)];
    assert body + [ContinuationFrame(Restore)] + [CallFrame(BlockValue)] == Limited(bottom);
    AskPops(body + [ContinuationFrame(Restore)], CallFrame(BlockValue), BlockValue, ch);
    AskPops(body, ContinuationFrame(Restore), Call, ch);
    assert below + [ExprFrame(BlockValue)] == body;
    AskPops(below, ExprFrame(BlockValue), Chain(Call, Restore), ch);
    AskPops(bottom, HandlerFrame(0, BlockValue, Arms), Saved, ch);
  }

  /** The arm finishes: the scope closes, and what was saved is gone. */
  lemma Finishes(bottom: seq<Frame>, ch: Choice)
    requires ch == Emits(Finished(3))
    ensures Step(Step(Step(At(bottom, Eval(EvalBlock, Saving), 9), ch), ch), ch)
         == At(bottom + [HandlerFrame(0, Dispatch(Saved), Arms)], Finished(3), 9)
  {
    var below := bottom + [HandlerFrame(0, Dispatch(Saved), Arms)];
    LeafFrames(Saving, bottom);
    var m1 := Step(At(bottom, Eval(EvalBlock, Saving), 9), ch);
    assert m1 == At(below + [BlockFrame(BlockValue)], Finished(3), 9);
    var m2 := Step(m1, ch);
    assert (below + [BlockFrame(BlockValue)])[..|below|] == below;
    assert m2 == At(below, Apply(BlockValue, OnFinish(3)), 9);
    assert Raw(BlockValue)[1..] == [];
  }

  lemma Closes(bottom: seq<Frame>, ch: Choice)
    ensures Step(Step(At(bottom + [HandlerFrame(0, Dispatch(Saved), Arms)], Finished(3), 9), ch), ch)
         == Machine(bottom, Flow(Completed(3), [], 9), 1)
  {
    var below := bottom + [HandlerFrame(0, Dispatch(Saved), Arms)];
    var m1 := Step(At(below, Finished(3), 9), ch);
    assert below[..|bottom|] == bottom;
    assert m1 == At(bottom, Apply(Saving, OnFinish(3)), 9);
    assert Raw(Saving)[1..] == [];
  }

  lemma Stops(ch: Choice)
    ensures Step(Step(Step(Machine(Block, Flow(Completed(3), [], 9), 1), ch), ch), ch)
         == Machine([], Flow(Done(3), [], 9), 1)
  {
    var m1 := Step(Machine(Block, Flow(Completed(3), [], 9), 1), ch);
    assert m1 == Machine([], Flow(Apply(BlockValue, OnValue(3)), [], 9), 1);
    assert Raw(BlockValue)[1..] == [];
  }

  /** Some run of the program gets from one state to the other. */
  ghost predicate Reaches(m: Machine, r: Machine) {
    exists choices :: AllOrdinary(choices) && Run(m, choices) == r
  }

  lemma StepReaches(m: Machine, ch: Choice)
    requires Ordinary(ch)
    ensures Reaches(m, Step(m, ch))
  {
    hide Step;
    assert [ch][1..] == [] && Run(Step(m, ch), []) == Step(m, ch);
    assert Run(m, [ch]) == Step(m, ch);
    assert AllOrdinary([ch]);
  }

  lemma ReachesOn(m: Machine, mid: Machine, r: Machine)
    requires Reaches(m, mid) && Reaches(mid, r)
    ensures Reaches(m, r)
  {
    hide Step, Run, Ordinary;
    var first :| AllOrdinary(first) && Run(m, first) == mid;
    var second :| AllOrdinary(second) && Run(mid, second) == r;
    RunConcat(m, first, second);
    assert AllOrdinary(first + second);
  }

  lemma TwoReach(m: Machine, a: Choice, b: Choice)
    requires Ordinary(a) && Ordinary(b)
    ensures Reaches(m, Step(Step(m, a), b))
  {
    hide Step, Reaches, Ordinary;
    StepReaches(m, a);
    StepReaches(Step(m, a), b);
    ReachesOn(m, Step(m, a), Step(Step(m, a), b));
  }

  lemma ThreeReach(m: Machine, ch: Choice)
    requires Ordinary(ch)
    ensures Reaches(m, Step(Step(Step(m, ch), ch), ch))
  {
    hide Step, Reaches, Ordinary;
    TwoReach(m, ch, ch);
    StepReaches(Step(Step(m, ch), ch), ch);
    ReachesOn(m, Step(Step(m, ch), ch), Step(Step(Step(m, ch), ch), ch));
  }

  /** The state when the call performs is mirrored, as every reachable one is. */
  lemma LimitedInv(bottom: seq<Frame>)
    requires Inv(Opening(bottom))
    ensures Inv(At(Limited(bottom), Performed(Ask, BlockValue), 9))
  {
    hide Inv, Step;
    Evaluates(bottom);
    Calls(bottom);
    StepKeeps(Opening(bottom), Emits(Eval(EvalCall, BlockValue)));
    StepKeeps(At(Body(bottom), Eval(EvalCall, BlockValue), 1), Emits(Performed(Ask, BlockValue)));
  }

  lemma OpeningInv()
    ensures Initial(Start(1)) && Inv(Opening(Block)) && Initial(Start(2)) && Inv(Opening(Nested))
  {
    hide Inv, Step;
    var opens, calls := Emits(Apply(HandleHandler, OnValue(0))), Emits(Eval(EvalCall, BlockValue));
    InitialInv(Start(1));
    Opens();
    StepKeeps(Start(1), opens);
    EntersBody(opens);
    StepKeeps(Step(Start(1), opens), calls);
    InitialInv(Start(2));
    OpensNested();
    StepKeeps(Start(2), CallsOut);
    EntersNested();
    StepKeeps(Step(Start(2), CallsOut), OpensIn);
    StepKeeps(Step(Step(Start(2), CallsOut), OpensIn), OpensIn);
  }

  lemma EntersBody(opens: Choice)
    requires opens == Emits(Apply(HandleHandler, OnValue(0)))
    ensures !Leaks(Step(Start(1), opens))
  {
  }

  lemma EntersNested()
    ensures !Leaks(Step(Start(2), CallsOut)) && !Leaks(Step(Step(Start(2), CallsOut), OpensIn))
  {
  }

  lemma OrdinaryChoices()
    ensures Ordinary(Emits(Apply(HandleHandler, OnValue(0)))) && Ordinary(Emits(Eval(EvalCall, BlockValue)))
    ensures Ordinary(Emits(Performed(Ask, BlockValue))) && Ordinary(Emits(Finished(3)))
  {
  }

  /** Over any stack: the body of the handler is a call limited to 9 that performs the action,
      and the arm finishes. What the handler gives its value to runs under 9, not 1. */
  lemma Loses(bottom: seq<Frame>)
    requires Inv(Opening(bottom))
    ensures Reaches(Opening(bottom), Machine(bottom, Flow(Completed(3), [], 9), 1))
  {
    hide Step, Run, Reaches, Ordinary, Inv, PushFrames, Leaves, Propagate;
    var calls, asks, ends := Emits(Eval(EvalCall, BlockValue)), Emits(Performed(Ask, BlockValue)), Emits(Finished(3));
    var asked, armed := At(Limited(bottom), Performed(Ask, BlockValue), 9), At(bottom, Eval(EvalBlock, Saving), 9);
    var left := At(bottom + [HandlerFrame(0, Dispatch(Saved), Arms)], Finished(3), 9);
    OrdinaryChoices();
    Evaluates(bottom);
    Calls(bottom);
    TwoReach(Opening(bottom), calls, asks);
    LimitedInv(bottom);
    Asks(bottom, ends);
    ThreeReach(asked, ends);
    StepReaches(Step(Step(Step(asked, ends), ends), ends), ends);
    ReachesOn(asked, Step(Step(Step(asked, ends), ends), ends), armed);
    ReachesOn(Opening(bottom), asked, armed);
    Finishes(bottom, ends);
    ThreeReach(armed, ends);
    ReachesOn(Opening(bottom), armed, left);
    Closes(bottom, ends);
    TwoReach(left, ends, ends);
    ReachesOn(Opening(bottom), left, Machine(bottom, Flow(Completed(3), [], 9), 1));
  }

  /** A limited call performs an action whose arm finishes: the program ends normally, and
      the policy of the call stays in force instead of the one it started with. */
  lemma LimitOutlivesCall()
    ensures Initial(Start(1)) && Reaches(Start(1), Machine([], Flow(Done(3), [], 9), 1))
  {
    hide Step, Run, Reaches, Ordinary, Inv, PushFrames, Leaves, Propagate, Initial;
    var opens, calls, ends := Emits(Apply(HandleHandler, OnValue(0))), Emits(Eval(EvalCall, BlockValue)), Emits(Finished(3));
    var closed, done := Machine(Block, Flow(Completed(3), [], 9), 1), Machine([], Flow(Done(3), [], 9), 1);
    OrdinaryChoices();
    OpeningInv();
    Opens();
    TwoReach(Start(1), opens, calls);
    Loses(Block);
    ReachesOn(Start(1), Opening(Block), closed);
    Stops(ends);
    ThreeReach(closed, ends);
    ReachesOn(Start(1), closed, done);
  }

  /** The same inside an outer limited call. Its callee's frame `Plain(7)`, pushed under policy
      1, is entered under 9; the restoration to 2 that stands further out comes too late. */
  lemma LimitOutlivesNestedCall()
    ensures Initial(Start(2)) && Reaches(Start(2), Opening(Nested))
    ensures Opening(Nested).flow.policy == 1 && Nested[|Nested| - 1] == ContinuationFrame(Plain(7))
    ensures Reaches(Opening(Nested), Machine(Outer, Flow(Apply(Plain(7), OnValue(3)), [], 9), 1))
  {
    hide Step, Run, Reaches, Ordinary, Inv, PushFrames, Leaves, Propagate, Initial;
    var ends := Emits(Finished(3));
    var closed := Machine(Nested, Flow(Completed(3), [], 9), 1);
    OrdinaryChoices();
    OpeningInv();
    NestedOpening();
    Loses(Nested);
    EntersPlain(ends);
    StepReaches(closed, ends);
    ReachesOn(Opening(Nested), closed, Machine(Outer, Flow(Apply(Plain(7), OnValue(3)), [], 9), 1));
  }

  lemma NestedOpening()
    ensures Reaches(Start(2), Opening(Nested))
  {
    hide Step, Run, Reaches, Ordinary, Inv, PushFrames, Leaves, Propagate, Initial;
    OrdinaryNested();
    OpensNested();
    TwoReach(Start(2), CallsOut, OpensIn);
    var before := Step(Step(Start(2), CallsOut), OpensIn);
    StepReaches(before, OpensIn);
    ReachesOn(Start(2), before, Opening(Nested));
  }

  lemma EntersPlain(ch: Choice)
    ensures Step(Machine(Nested, Flow(Completed(3), [], 9), 1), ch) == Machine(Outer, Flow(Apply(Plain(7), OnValue(3)), [], 9), 1)
  {
    assert Nested[..|Nested| - 1] == Outer;
  }

  // --------------------------------------- an error caught in the caller's own code

  /** The caller's continuation: a `try` around the limited call, and what follows it. */
  const Caller: Cont := Chain(TryExpr({0}), Plain(7))
  const Caught: Cont := Chain(Plain(7), RestorePolicy(1, BlockValue))
  const Fails: Request := Raise(0, 3)
  const Throwing: seq<Frame> := Block + [ContinuationFrame(RestorePolicy(1, Caller)), CallFrame(BlockValue)]
  const Thrown: Cont := Chain(CallBoundary(BlockValue), RestorePolicy(1, Caller))

  function Raised(k: Cont): Flow {
    Flow(Performed(Fails, k), [], 9)
  }

  /** A limited call raises an error that a `try` right around it captures. The error opens
      the caller's restoration, meets the `try` inside it, and what follows the `try` runs
      under the policy of the call; only then does the restoration act. */
  lemma CaughtUnderLimit()
    ensures Initial(Start(1)) && Reaches(Start(1), Machine(Block, Flow(Apply(Caught, OnValue(3)), [], 9), 0))
  {
    hide Step, Run, Reaches, Ordinary, Inv, PushFrames, Leaves, Propagate;
    var calls, raises := Emits(Eval(EvalCall, Caller)), Emits(Performed(Fails, BlockValue));
    OrdinaryThrow();
    Throws();
    TwoReach(Start(1), calls, raises);
    var thrown := Machine(Throwing, Raised(BlockValue), 0);
    Catches(raises);
    TwoReach(thrown, raises, raises);
    ReachesOn(Start(1), thrown, Machine(Block, Flow(Apply(Caught, OnValue(3)), [], 9), 0));
  }

  lemma OrdinaryThrow()
    ensures Quiet(Caller) && Ordinary(Emits(Eval(EvalCall, Caller))) && Ordinary(Emits(Performed(Fails, BlockValue)))
  {
  }

  lemma Throws()
    ensures Step(Step(Start(1), Emits(Eval(EvalCall, Caller))), Emits(Performed(Fails, BlockValue)))
         == Machine(Throwing, Raised(BlockValue), 0)
  {
    hide Step;
    CallsCaller();
    ThrowsIn();
  }

  lemma CallsCaller()
    ensures Step(Start(1), Emits(Eval(EvalCall, Caller))) == Machine(Block, Flow(Eval(EvalCall, Caller), [], 1), 0)
  {
    LeafFrames(BlockValue, []);
  }

  lemma ThrowsIn()
    ensures Step(Machine(Block, Flow(Eval(EvalCall, Caller), [], 1), 0), Emits(Performed(Fails, BlockValue)))
         == Machine(Throwing, Raised(BlockValue), 0)
  {
    LeafFrames(RestorePolicy(1, Caller), Block);
  }

  lemma Catches(ch: Choice)
    ensures Step(Step(Machine(Throwing, Raised(BlockValue), 0), ch), ch) == Machine(Block, Flow(Apply(Caught, OnValue(3)), [], 9), 0)
  {
    hide Propagate;
    Throwns();
    assert Throwing[..2] == Block + [ContinuationFrame(RestorePolicy(1, Caller))];
    var m1 := Step(Machine(Throwing, Raised(BlockValue), 0), ch);
    assert m1 == Machine(Throwing[..2], Raised(CallBoundary(BlockValue)), 0);
    assert Throwing[..2][..1] == Block;
  }

  lemma Throwns()
    ensures Propagate(Raised(BlockValue), CallBoundary(BlockValue)) == Raised(CallBoundary(BlockValue))
    ensures Propagate(Raised(BlockValue), Thrown) == Flow(Apply(Caught, OnValue(3)), [], 9)
  {
    hide Propagate, PassLeaf;
    var call, restore := CallBoundary(BlockValue), RestorePolicy(1, Caller);
    PropagateLeaf(Raised(BlockValue), call);
    PropagateChain(Raised(BlockValue), call, restore);
    PropagateLeaf(Raised(call), restore);
    PropagateChain(Raised(call), TryExpr({0}), Plain(7));
    PropagateLeaf(Raised(call), TryExpr({0}));
    PropagateLeaf(Flow(Completed(3), [], 9), Plain(7));
    ThrownFrames();
  }

  lemma ThrownFrames()
    ensures PassLeaf(Raised(BlockValue), CallBoundary(BlockValue)) == Raised(CallBoundary(BlockValue))
    ensures PassLeaf(Raised(CallBoundary(BlockValue)), TryExpr({0})) == Flow(Completed(3), [], 9)
    ensures PassLeaf(Flow(Completed(3), [], 9), Plain(7)) == Flow(Apply(Plain(7), OnValue(3)), [], 9)
    ensures PassLeaf(Flow(Apply(Plain(7), OnValue(3)), [], 9), RestorePolicy(1, BlockValue)) == Flow(Apply(Caught, OnValue(3)), [], 9)
  {
  }
}
