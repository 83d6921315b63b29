/** The one way the handler stack stops mirroring the boundaries, on a concrete program:
    a loop whose body opens a handler and breaks inside it. */
module HandlerLeak {
  import opened Continuations
  import opened HandlerMachine
  import opened HandlerMirror
  import opened HandlerRuns

  const LoopBody: Cont := Chain(HandleHandler, Loop(0))
  const Opened: seq<Scope> := [Scope(0, [])]
  const Start: Machine := Machine([], Flow(Eval(EvalBlock, BlockValue), [], 0), 0)

  function Emits(signal: Emission): Choice {
    Choice(signal, [], 0, None, false)
  }

  /** The machine right after the body has executed `break`. */
  const Broke: Machine :=
    Machine([BlockFrame(BlockValue), ContinuationFrame(Loop(0)), HandlerFrame(0, BlockValue, []), ExprFrame(BlockValue)],
            Flow(BreakLoop, Opened, 0), 1)

  /** The machine once the loop has caught the break. */
  const Caught: Machine := Machine([BlockFrame(BlockValue)], Flow(Completed(0), Opened, 0), 1)

  /** The machine before and after the body opens its handler. */
  const Entering: Machine := Machine([BlockFrame(BlockValue)], Flow(Apply(LoopBody, OnValue(0)), [], 0), 0)
  const Opening: Machine :=
    Machine([BlockFrame(BlockValue), ContinuationFrame(Loop(0))],
            Flow(Eval(EvalExpr, Boundary(0, BlockValue, [])), Opened, 0), 1)

  lemma Enter()
    ensures Step(Start, Emits(Apply(LoopBody, OnValue(0)))) == Entering
  {
    assert PushFrames([], Leaves(BlockValue)) == [];
  }

  lemma Open(ch: Choice)
    requires ch.arms == []
    ensures Step(Entering, ch) == Opening
  {
    assert Raw(LoopBody)[1..] == [Loop(0)];
    assert PushFrames([BlockFrame(BlockValue)], [Loop(0)]) == Opening.stack by {
      assert [Loop(0)][1..] == [];
      assert PushFrames([BlockFrame(BlockValue)], []) == [BlockFrame(BlockValue)];
    }
  }

  lemma Break()
    ensures Step(Opening, Emits(BreakLoop)) == Broke
  {
    var boundary := Boundary(0, BlockValue, []);
    assert Leaves(boundary) == [boundary];
    assert PushFrames(Opening.stack, [boundary]) == Opening.stack + [HandlerFrame(0, BlockValue, [])] by {
      assert [boundary][1..] == [];
      assert PushFrames(Opening.stack, []) == Opening.stack;
    }
  }

  /** From `Broke` the break travels out to the loop: six steps. */
  lemma Leave(ch: Choice)
    ensures var at := Step(Step(Step(Broke, ch), ch), ch);
            Leaks(at) && Step(Step(Step(at, ch), ch), ch) == Caught
  {
    var stack := Broke.stack;
    var m1 := Step(Broke, ch);
    assert m1 == Machine(stack[..3], Flow(Apply(BlockValue, OnBreak), Opened, 0), 1);
    var m2 := Step(m1, ch);
    assert Raw(BlockValue)[1..] == [];
    assert m2 == Machine(stack[..3], Flow(BreakLoop, Opened, 0), 1);
    var m3 := Step(m2, ch);
    assert m3 == Machine(stack[..2], Flow(Apply(Boundary(0, BlockValue, []), OnBreak), Opened, 0), 1);
    var m4 := Step(m3, ch);
    assert Raw(Boundary(0, BlockValue, []))[1..] == [];
    assert m4 == Machine(stack[..2], Flow(BreakLoop, Opened, 0), 1);
    var m5 := Step(m4, ch);
    assert m5 == Machine(stack[..1], Flow(Apply(Loop(0), OnBreak), Opened, 0), 1);
    assert Raw(Loop(0))[1..] == [];
  }

  lemma Finish(ch: Choice)
    ensures Step(Step(Step(Caught, ch), ch), ch) == Machine([], Flow(Done(0), Opened, 0), 1)
  {
    var m1 := Step(Caught, ch);
    assert m1 == Machine([], Flow(Apply(BlockValue, OnValue(0)), Opened, 0), 1);
    assert Raw(BlockValue)[1..] == [];
  }

  /** A program that ends normally with a scope still open. */
  lemma BreakLeavesScopeOpen()
    ensures Initial(Start)
    ensures exists choices :: Run(Start, choices) == Machine([], Flow(Done(0), [Scope(0, [])], 0), 1)
  {
    hide Step;
    var idle := Emits(Completed(0));
    var enter := [Emits(Apply(LoopBody, OnValue(0))), idle, Emits(BreakLoop)];
    var three := [idle, idle, idle];
    Enter();
    Open(idle);
    Break();
    Leave(idle);
    Finish(idle);
    RunThree(Start, enter);
    RunThree(Broke, three);
    var at := Run(Broke, three);
    RunThree(at, three);
    RunThree(Caught, three);
    RunConcat(Caught, three, []);
    RunConcat(at, three, three);
    RunConcat(Broke, three, three + three);
    RunConcat(Start, enter, three + (three + three));
    assert Run(Start, enter + (three + (three + three))) == Machine([], Flow(Done(0), Opened, 0), 1);
  }

  lemma RunThree(m: Machine, c: seq<Choice>)
    requires |c| == 3
    ensures Run(m, c) == Step(Step(Step(m, c[0]), c[1]), c[2])
  {
    hide Step;
    var r := Step(m, c[0]);
    assert c[1..][1..] == c[2..];
    assert Run(r, c[1..]) == Run(Step(r, c[1]), c[2..]);
    assert Run(Step(r, c[1]), c[2..]) == Run(Step(Step(r, c[1]), c[2]), c[2..][1..]);
    assert c[2..][1..] == [];
  }
}
