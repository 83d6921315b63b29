/** Suspension is transparent: however evaluation is cut up, the machine finishes and
    computes what the direct evaluator computes, with the same requests in the same order. */
module Transparency {
  import opened Language
  import opened DirectEval
  import opened SuspendEval
  import opened ContainedCode

  /** The machine ends with this result and the stack it was given. */
  ghost predicate Lands(h: Host, m: Machine, stack: seq<Cont>, out: Result) {
    exists n: nat, t: nat :: Run(h, m, n) == Machine(Done(out.outcome), stack, out.st, t)
  }

  /** A construct's answer, whether finished on the spot or suspended, leads to `out`. */
  ghost predicate Computes(h: Host, r: Res, stack: seq<Cont>, out: Result) {
    && (r.signal.Done? ==> Result(r.signal.outcome, r.st) == out)
    && Lands(h, Start(r, stack), stack, out)
  }

  /** Either everything suspends, as in the interpreter, or no loop condition lets a break out. */
  ghost predicate Fits(h: Host, steady: bool) {
    AlwaysSuspends(h) || steady
  }

  lemma {:induction false} RunOn(h: Host, m: Machine, a: nat, b: nat)
    ensures Run(h, m, a + b) == Run(h, Run(h, m, a), b)
    decreases a
  {
    hide Step;
    if a > 0 {
      RunOn(h, Step(h, m), a - 1, b);
    }
  }

  lemma Finishes(h: Host, outcome: Outcome, st: State, t: nat, stack: seq<Cont>)
    ensures Computes(h, Ends(outcome, st, t), stack, Result(outcome, st))
  {
    assert Run(h, Start(Ends(outcome, st, t), stack), 0) == Machine(Done(outcome), stack, st, t);
  }

  /** A step into something that computes `out`. */
  lemma StepsInto(h: Host, m: Machine, r: Res, stack: seq<Cont>, out: Result)
    requires Step(h, m) == Start(r, stack) && Computes(h, r, stack, out)
    ensures Lands(h, m, stack, out)
  {
    hide Step;
    var n: nat, t: nat :| Run(h, Start(r, stack), n) == Machine(Done(out.outcome), stack, out.st, t);
    assert Run(h, m, n + 1) == Machine(Done(out.outcome), stack, out.st, t);
  }

  /** One construct inside another: `r0` is the part, `k` what is saved for the rest. */
  lemma Sequel(h: Host, r0: Res, k: Cont, stack: seq<Cont>, out0: Result, r: Res, out: Result)
    requires Computes(h, r0, [k] + stack, out0)
    requires r0.signal.Done? ==> Computes(h, r, stack, out)
    requires r0.signal.Pending? ==> r == Through(r0, k)
    requires r0.signal.Pending? ==> forall t: nat :: Computes(h, Meet(h, k, out0.outcome, out0.st, t), stack, out)
    ensures Computes(h, r, stack, out)
  {
    hide Meet;
    if r0.signal.Pending? {
      var inner := Start(r0, [k] + stack);
      var outer := Start(r, stack);
      var n: nat, t: nat :| Run(h, inner, n) == Machine(Done(out0.outcome), [k] + stack, out0.st, t);
      SameStep(h, r0, k, stack);
      assert Run(h, outer, n) == Run(h, inner, n);
      var mid := Run(h, inner, n);
      var met := Meet(h, k, out0.outcome, out0.st, t);
      assert ([k] + stack)[1..] == stack;
      assert Step(h, mid) == Start(met, stack);
      StepsInto(h, mid, met, stack, out);
      var n2: nat, t2: nat :| Run(h, mid, n2) == Machine(Done(out.outcome), stack, out.st, t2);
      RunOn(h, outer, n, n2);
    }
  }

  lemma SameStep(h: Host, r0: Res, k: Cont, stack: seq<Cont>)
    requires r0.signal.Pending?
    ensures Step(h, Start(Through(r0, k), stack)) == Step(h, Start(r0, [k] + stack))
  {
    hide EvalFrame, BlockFrame;
    assert (r0.signal.frames + [k]) + stack == r0.signal.frames + ([k] + stack);
  }

  /** The usual case: `k` takes values and passes everything else. */
  lemma Then(h: Host, r0: Res, k: Cont, stack: seq<Cont>, out0: Result, now: Res, r: Res, out: Result)
    requires Computes(h, r0, [k] + stack, out0) && !IsLoop(k)
    requires r == if IsVal(r0) then now else Through(r0, k)
    requires IsVal(r0) ==> Computes(h, now, stack, out)
    requires out0.outcome.Val? ==> forall t: nat :: Computes(h, Resume(h, k, out0.outcome.v, out0.st, t), stack, out)
    requires !out0.outcome.Val? ==> out == out0
    ensures Computes(h, r, stack, out)
  {
    hide Resume;
    if r0.signal.Done? {
      if !IsVal(r0) {
        Finishes(h, r0.signal.outcome, r0.st, r0.tick, stack);
      }
    } else {
      forall t: nat ensures Computes(h, Meet(h, k, out0.outcome, out0.st, t), stack, out) {
        if !out0.outcome.Val? {
          Finishes(h, out0.outcome, out0.st, t, stack);
        }
      }
    }
    hide Computes, Meet;
    Sequel(h, r0, k, stack, out0, r, out);
  }

  // ----------------------------------------------------------- expressions

  lemma {:induction false} EvalComputes(h: Host, e: Expr, st: State, t: nat, stack: seq<Cont>)
    requires Fits(h, SteadyExpr(e))
    ensures Computes(h, Eval(h, e, st, t), stack, RunExpr(h.answer, e, st))
    decreases e, 2, 0
  {
    hide EvalFrame, RunExpr, SteadyExpr;
    FrameComputes(h, e, st, t + 1, stack);
    if h.suspends(t) {
      assert [] + stack == stack;
      StepsInto(h, Start(Eval(h, e, st, t), stack), EvalFrame(h, e, st, t + 1), stack, RunExpr(h.answer, e, st));
    }
  }

  lemma {:induction false} FrameComputes(h: Host, e: Expr, st: State, t: nat, stack: seq<Cont>)
    requires Fits(h, SteadyExpr(e))
    ensures Computes(h, EvalFrame(h, e, st, t), stack, RunExpr(h.answer, e, st))
    decreases e, 1, 0
  {
    hide Computes, Eval, ResumeListed, ResumeFields, ResumeEntries, MatchArms, Execute, Branch,
         RunListed, RunFields, RunEntries, RunArms, RunElse, RunBlock, Meet;
    match e
    case Literal(v) => Finishes(h, Val(v), st, t, stack);
    case Path(x) => Finishes(h, ReadPath(x, st), st, t, stack);
    case Record(_) => FieldsCompute(h, e, 0, [], st, t, stack);
    case MapLiteral(_) => EntriesCompute(h, e, 0, [], st, t, stack);
    case Cons(head, tail) => ConsComputes(h, head, tail, st, t, stack);
    case Range(start, end) => RangeComputes(h, start, end, st, t, stack);
    case If(cond, consequence, otherwise) => IfComputes(h, e, st, t, stack);
    case Match(scrutinee, arms) => MatchComputes(h, e, st, t, stack);
    case Aggregate(_, _) => ListedCompute(h, e, 0, [], st, t, stack);
    case Perform(_, _) => ListedCompute(h, e, 0, [], st, t, stack);
    case Call(_, _, _) => ListedCompute(h, e, 0, [], st, t, stack);
  }

  lemma {:induction false} ListedCompute(h: Host, e: Expr, i: nat, values: seq<Value>, st: State, t: nat, stack: seq<Cont>)
    requires Fits(h, SteadyExpr(e)) && (e.Aggregate? || e.Perform? || e.Call?) && i <= |Listed(e)|
    ensures Computes(h, ResumeListed(h, e, i, values, st, t), stack, RunListed(h.answer, e, i, values, st))
    decreases e, 0, Remaining(|Listed(e)|, i)
  {
    hide Computes, Eval, RunExpr, Meet, FinishListed;
    if i == |Listed(e)| {
      FinishedComputes(h, FinishListed(e, values), st, t, stack);
    } else {
      var k := ListedElement(e, i + 1, values);
      var r := Eval(h, Listed(e)[i], st, t);
      var out := RunExpr(h.answer, Listed(e)[i], st);
      EvalComputes(h, Listed(e)[i], st, t, [k] + stack);
      if IsVal(r) {
        SameValue(h, r, [k] + stack, out);
        ListedCompute(h, e, i + 1, values + [ValOf(r)], r.st, r.tick, stack);
      }
      if out.outcome.Val? {
        forall t': nat ensures Computes(h, Resume(h, k, out.outcome.v, out.st, t'), stack, RunListed(h.answer, e, i, values, st)) {
          ListedCompute(h, e, i + 1, values + [out.outcome.v], out.st, t', stack);
        }
      }
      var now := if IsVal(r) then ResumeListed(h, e, i + 1, values + [ValOf(r)], r.st, r.tick) else r;
      Then(h, r, k, stack, out, now, ResumeListed(h, e, i, values, st, t), RunListed(h.answer, e, i, values, st));
    }
  }

  lemma SameValue(h: Host, r: Res, stack: seq<Cont>, out: Result)
    requires Computes(h, r, stack, out) && r.signal.Done?
    ensures out == Result(r.signal.outcome, r.st)
  {
  }

  /** A finished list is a value at once, or a request answered in one step. */
  lemma FinishedComputes(h: Host, finished: Finished, st: State, t: nat, stack: seq<Cont>)
    ensures finished.Built? ==> Computes(h, Ends(finished.outcome, st, t), stack, Result(finished.outcome, st))
    ensures finished.Asks? ==> Computes(h, Res(Pending(Asking(finished.event), []), st, t), stack, Request(h.answer, finished.event, st))
  {
    if finished.Built? {
      Finishes(h, finished.outcome, st, t, stack);
    } else {
      var out := Request(h.answer, finished.event, st);
      var m := Start(Res(Pending(Asking(finished.event), []), st, t), stack);
      assert [] + stack == stack;
      Finishes(h, out.outcome, out.st, t, stack);
      StepsInto(h, m, Ends(out.outcome, out.st, t), stack, out);
    }
  }

  lemma {:induction false} FieldsCompute(h: Host, e: Expr, i: nat, values: seq<(nat, Value)>, st: State, t: nat, stack: seq<Cont>)
    requires Fits(h, SteadyExpr(e)) && e.Record? && i <= |e.fields|
    ensures Computes(h, ResumeFields(h, e, i, values, st, t), stack, RunFields(h.answer, e, i, values, st))
    decreases e, 0, Remaining(|e.fields|, i)
  {
    hide Computes, Eval, RunExpr, Meet;
    if i == |e.fields| {
      Finishes(h, Val(RecordV(values)), st, t, stack);
    } else if e.fields[i].Shorthand? {
      var read := ReadPath(e.fields[i].x, st);
      if read.Val? {
        FieldsCompute(h, e, i + 1, values + [(e.fields[i].name, read.v)], st, t, stack);
      } else {
        Finishes(h, read, st, t, stack);
      }
    } else {
      var name, init := e.fields[i].name, e.fields[i].init;
      var k := RecordField(e, i + 1, values);
      var r := Eval(h, init, st, t);
      var out := RunExpr(h.answer, init, st);
      EvalComputes(h, init, st, t, [k] + stack);
      if IsVal(r) {
        SameValue(h, r, [k] + stack, out);
        FieldsCompute(h, e, i + 1, values + [(name, ValOf(r))], r.st, r.tick, stack);
      }
      if out.outcome.Val? {
        forall t': nat ensures Computes(h, Resume(h, k, out.outcome.v, out.st, t'), stack, RunFields(h.answer, e, i, values, st)) {
          FieldsCompute(h, e, i + 1, values + [(name, out.outcome.v)], out.st, t', stack);
        }
      }
      var now := if IsVal(r) then ResumeFields(h, e, i + 1, values + [(name, ValOf(r))], r.st, r.tick) else r;
      Then(h, r, k, stack, out, now, ResumeFields(h, e, i, values, st, t), RunFields(h.answer, e, i, values, st));
    }
  }

  lemma {:induction false} EntriesCompute(h: Host, e: Expr, i: nat, values: seq<(Value, Value)>, st: State, t: nat, stack: seq<Cont>)
    requires Fits(h, SteadyExpr(e)) && e.MapLiteral? && i <= |e.entries|
    ensures Computes(h, ResumeEntries(h, e, i, values, st, t), stack, RunEntries(h.answer, e, i, values, st))
    decreases e, 0, 2 * Remaining(|e.entries|, i)
  {
    hide Computes, Eval, RunExpr, Meet, ResumeMapKey, RunItem;
    if i == |e.entries| {
      Finishes(h, Val(MapV(values)), st, t, stack);
    } else {
      var k := MapKey(e, i, values);
      var r := Eval(h, e.entries[i].key, st, t);
      var out := RunExpr(h.answer, e.entries[i].key, st);
      EvalComputes(h, e.entries[i].key, st, t, [k] + stack);
      EntriesRun(h, e, i, values, st);
      if IsVal(r) {
        SameValue(h, r, [k] + stack, out);
        ItemComputes(h, e, i, values, ValOf(r), r.st, r.tick, stack);
      }
      if out.outcome.Val? {
        forall t': nat ensures Computes(h, Resume(h, k, out.outcome.v, out.st, t'), stack, RunEntries(h.answer, e, i, values, st)) {
          ItemComputes(h, e, i, values, out.outcome.v, out.st, t', stack);
        }
      }
      var now := if IsVal(r) then ResumeMapKey(h, e, i, values, ValOf(r), r.st, r.tick) else r;
      Then(h, r, k, stack, out, now, ResumeEntries(h, e, i, values, st, t), RunEntries(h.answer, e, i, values, st));
    }
  }

  /** The direct evaluator between a key and its value. */
  function RunItem(h: Host, e: Expr, i: nat, values: seq<(Value, Value)>, key: Value, st: State): Result
    requires e.MapLiteral? && i < |e.entries|
  {
    var s := RunExpr(h.answer, e.entries[i].item, st);
    if !s.outcome.Val? then s else RunEntries(h.answer, e, i + 1, values + [(key, s.outcome.v)], s.st)
  }

  lemma EntriesRun(h: Host, e: Expr, i: nat, values: seq<(Value, Value)>, st: State)
    requires e.MapLiteral? && i < |e.entries|
    ensures var r := RunExpr(h.answer, e.entries[i].key, st);
            RunEntries(h.answer, e, i, values, st) == if r.outcome.Val? then RunItem(h, e, i, values, r.outcome.v, r.st) else r
  {
    hide RunExpr;
  }

  lemma {:induction false} ItemComputes(h: Host, e: Expr, i: nat, values: seq<(Value, Value)>, key: Value, st: State, t: nat, stack: seq<Cont>)
    requires Fits(h, SteadyExpr(e)) && e.MapLiteral? && i < |e.entries|
    ensures Computes(h, ResumeMapKey(h, e, i, values, key, st, t), stack, RunItem(h, e, i, values, key, st))
    decreases e, 0, 2 * Remaining(|e.entries|, i) - 1
  {
    hide Computes, Eval, RunExpr, Meet, ResumeEntries, RunEntries;
    var k := MapValue(e, i, key, values);
    var r := Eval(h, e.entries[i].item, st, t);
    var out := RunExpr(h.answer, e.entries[i].item, st);
    EvalComputes(h, e.entries[i].item, st, t, [k] + stack);
    if IsVal(r) {
      SameValue(h, r, [k] + stack, out);
      EntriesCompute(h, e, i + 1, values + [(key, ValOf(r))], r.st, r.tick, stack);
    }
    if out.outcome.Val? {
      forall t': nat ensures Computes(h, Resume(h, k, out.outcome.v, out.st, t'), stack, RunItem(h, e, i, values, key, st)) {
        EntriesCompute(h, e, i + 1, values + [(key, out.outcome.v)], out.st, t', stack);
      }
    }
    var now := if IsVal(r) then ResumeEntries(h, e, i + 1, values + [(key, ValOf(r))], r.st, r.tick) else r;
    Then(h, r, k, stack, out, now, ResumeMapKey(h, e, i, values, key, st, t), RunItem(h, e, i, values, key, st));
  }

  lemma {:induction false} ConsComputes(h: Host, head: Expr, tail: Expr, st: State, t: nat, stack: seq<Cont>)
    requires Fits(h, SteadyExpr(Cons(head, tail)))
    ensures Computes(h, EvalFrame(h, Cons(head, tail), st, t), stack, RunExpr(h.answer, Cons(head, tail), st))
    decreases Cons(head, tail), 0, 0
  {
    hide Computes, Eval, Meet, ResumeConsHead;
    var k := ListConsHead(tail);
    var r := Eval(h, head, st, t);
    var out := RunExpr(h.answer, head, st);
    var whole := RunExpr(h.answer, Cons(head, tail), st);
    EvalComputes(h, head, st, t, [k] + stack);
    assert whole == if out.outcome.Val? then RunTail(h, out.outcome.v, tail, out.st) else out;
    assert EvalFrame(h, Cons(head, tail), st, t)
        == if IsVal(r) then ResumeConsHead(h, ValOf(r), tail, r.st, r.tick) else Through(r, k);
    hide RunExpr, EvalFrame, RunTail;
    if IsVal(r) {
      SameValue(h, r, [k] + stack, out);
      TailComputes(h, ValOf(r), tail, r.st, r.tick, stack);
    }
    if out.outcome.Val? {
      forall t': nat ensures Computes(h, Resume(h, k, out.outcome.v, out.st, t'), stack, whole) {
        TailComputes(h, out.outcome.v, tail, out.st, t', stack);
      }
    }
    var now := if IsVal(r) then ResumeConsHead(h, ValOf(r), tail, r.st, r.tick) else r;
    Then(h, r, k, stack, out, now, EvalFrame(h, Cons(head, tail), st, t), whole);
  }

  function RunTail(h: Host, head: Value, tail: Expr, st: State): Result {
    var s := RunExpr(h.answer, tail, st);
    if !s.outcome.Val? then s else Result(FinishCons(head, s.outcome.v), s.st)
  }

  lemma {:induction false} TailComputes(h: Host, head: Value, tail: Expr, st: State, t: nat, stack: seq<Cont>)
    requires Fits(h, SteadyExpr(tail))
    ensures Computes(h, ResumeConsHead(h, head, tail, st, t), stack, RunTail(h, head, tail, st))
    decreases tail, 3, 0
  {
    hide Computes, Eval, RunExpr, Meet, FinishCons, SteadyExpr;
    var k := ListConsTail(head);
    var r := Eval(h, tail, st, t);
    var out := RunExpr(h.answer, tail, st);
    EvalComputes(h, tail, st, t, [k] + stack);
    if IsVal(r) {
      SameValue(h, r, [k] + stack, out);
      Finishes(h, FinishCons(head, ValOf(r)), r.st, r.tick, stack);
    }
    if out.outcome.Val? {
      forall t': nat ensures Computes(h, Resume(h, k, out.outcome.v, out.st, t'), stack, RunTail(h, head, tail, st)) {
        Finishes(h, FinishCons(head, out.outcome.v), out.st, t', stack);
      }
    }
    var now := if IsVal(r) then Ends(FinishCons(head, ValOf(r)), r.st, r.tick) else r;
    Then(h, r, k, stack, out, now, ResumeConsHead(h, head, tail, st, t), RunTail(h, head, tail, st));
  }

  lemma {:induction false} RangeComputes(h: Host, start: Expr, end: Expr, st: State, t: nat, stack: seq<Cont>)
    requires Fits(h, SteadyExpr(Range(start, end)))
    ensures Computes(h, EvalFrame(h, Range(start, end), st, t), stack, RunExpr(h.answer, Range(start, end), st))
    decreases Range(start, end), 0, 0
  {
    hide Computes, Eval, Meet, ResumeRangeStart;
    var k := RangeStart(end);
    var r := Eval(h, start, st, t);
    var out := RunExpr(h.answer, start, st);
    var whole := RunExpr(h.answer, Range(start, end), st);
    EvalComputes(h, start, st, t, [k] + stack);
    assert whole == if out.outcome.Val? then RunEnd(h, out.outcome.v, end, out.st) else out;
    assert EvalFrame(h, Range(start, end), st, t)
        == if IsVal(r) then ResumeRangeStart(h, ValOf(r), end, r.st, r.tick) else Through(r, k);
    hide RunExpr, EvalFrame, RunEnd;
    if IsVal(r) {
      SameValue(h, r, [k] + stack, out);
      EndComputes(h, ValOf(r), end, r.st, r.tick, stack);
    }
    if out.outcome.Val? {
      forall t': nat ensures Computes(h, Resume(h, k, out.outcome.v, out.st, t'), stack, whole) {
        EndComputes(h, out.outcome.v, end, out.st, t', stack);
      }
    }
    var now := if IsVal(r) then ResumeRangeStart(h, ValOf(r), end, r.st, r.tick) else r;
    Then(h, r, k, stack, out, now, EvalFrame(h, Range(start, end), st, t), whole);
  }

  function RunEnd(h: Host, start: Value, end: Expr, st: State): Result {
    var s := RunExpr(h.answer, end, st);
    if !s.outcome.Val? then s else Result(Val(RangeV(start, s.outcome.v)), s.st)
  }

  lemma {:induction false} EndComputes(h: Host, start: Value, end: Expr, st: State, t: nat, stack: seq<Cont>)
    requires Fits(h, SteadyExpr(end))
    ensures Computes(h, ResumeRangeStart(h, start, end, st, t), stack, RunEnd(h, start, end, st))
    decreases end, 3, 0
  {
    hide Computes, Eval, RunExpr, Meet, SteadyExpr;
    var k := RangeEnd(start);
    var r := Eval(h, end, st, t);
    var out := RunExpr(h.answer, end, st);
    EvalComputes(h, end, st, t, [k] + stack);
    if IsVal(r) {
      SameValue(h, r, [k] + stack, out);
      Finishes(h, Val(RangeV(start, ValOf(r))), r.st, r.tick, stack);
    }
    if out.outcome.Val? {
      forall t': nat ensures Computes(h, Resume(h, k, out.outcome.v, out.st, t'), stack, RunEnd(h, start, end, st)) {
        Finishes(h, Val(RangeV(start, out.outcome.v)), out.st, t', stack);
      }
    }
    var now := if IsVal(r) then Ends(Val(RangeV(start, ValOf(r))), r.st, r.tick) else r;
    Then(h, r, k, stack, out, now, ResumeRangeStart(h, start, end, st, t), RunEnd(h, start, end, st));
  }

  // -------------------------------------------------------------- branches

  function RunIf(h: Host, v: Value, consequence: Block, otherwise: Else, st: State): Result {
    if !v.BoolV? then Result(Failed(NotBoolean), st)
    else if v.b then RunBlock(h.answer, consequence, 0, st)
    else RunElse(h.answer, otherwise, st)
  }

  lemma {:induction false} BranchComputes(h: Host, otherwise: Else, st: State, t: nat, stack: seq<Cont>)
    requires Fits(h, SteadyElse(otherwise))
    ensures Computes(h, Branch(h, otherwise, st, t), stack, RunElse(h.answer, otherwise, st))
    decreases otherwise, 0, 0
  {
    hide Computes, Execute, Eval, RunBlock, RunExpr;
    match otherwise
    case NoElse => Finishes(h, Val(UnitV), st, t, stack);
    case ElseBlock(block) => ExecuteComputes(h, block, 0, st, t, stack);
    case ElseIf(expr) => EvalComputes(h, expr, st, t, stack);
  }

  lemma {:induction false} ArmsCompute(h: Host, arms: Arms, v: Value, st: State, t: nat, stack: seq<Cont>)
    requires Fits(h, SteadyArms(arms))
    ensures Computes(h, MatchArms(h, arms, v, st, t), stack, RunArms(h.answer, arms, v, st))
    decreases arms, 0, 0
  {
    hide Computes, Branch, RunElse;
    match arms
    case NoArms => Finishes(h, Failed(NoMatchingArm), st, t, stack);
    case Arm(pattern, body, rest) =>
      var matched := MatchPattern(pattern, v, st);
      if matched.Some? {
        BranchComputes(h, body, matched.value, t, stack);
      } else {
        ArmsCompute(h, rest, v, st, t, stack);
      }
  }

  /** The chosen branch of an `if`. */
  lemma IfBranch(h: Host, v: Value, consequence: Block, otherwise: Else, st: State, t: nat, stack: seq<Cont>)
    requires Computes(h, Execute(h, consequence, 0, st, t), stack, RunBlock(h.answer, consequence, 0, st))
    requires Computes(h, Branch(h, otherwise, st, t), stack, RunElse(h.answer, otherwise, st))
    ensures Computes(h, ResumeIf(h, v, consequence, otherwise, st, t), stack, RunIf(h, v, consequence, otherwise, st))
  {
    hide Computes, Execute, Branch, RunBlock, RunElse;
    if !v.BoolV? {
      Finishes(h, Failed(NotBoolean), st, t, stack);
    }
  }

  lemma {:induction false} IfComputes(h: Host, e: Expr, st: State, t: nat, stack: seq<Cont>)
    requires Fits(h, SteadyExpr(e)) && e.If?
    ensures Computes(h, EvalFrame(h, e, st, t), stack, RunExpr(h.answer, e, st))
    decreases e, 0, 0
  {
    hide Computes, Eval, Meet, Execute, Branch, RunBlock, RunElse;
    var k := IfExpr(e.consequence, e.otherwise);
    var r := Eval(h, e.cond, st, t);
    var out := RunExpr(h.answer, e.cond, st);
    var whole := RunExpr(h.answer, e, st);
    var now := if IsVal(r) then ResumeIf(h, ValOf(r), e.consequence, e.otherwise, r.st, r.tick) else r;
    EvalComputes(h, e.cond, st, t, [k] + stack);
    assert whole == if out.outcome.Val? then RunIf(h, out.outcome.v, e.consequence, e.otherwise, out.st) else out;
    assert EvalFrame(h, e, st, t) == if IsVal(r) then now else Through(r, k);
    hide RunExpr, EvalFrame, RunIf, ResumeIf;
    if IsVal(r) {
      SameValue(h, r, [k] + stack, out);
      ExecuteComputes(h, e.consequence, 0, r.st, r.tick, stack);
      BranchComputes(h, e.otherwise, r.st, r.tick, stack);
      IfBranch(h, ValOf(r), e.consequence, e.otherwise, r.st, r.tick, stack);
    }
    if out.outcome.Val? {
      forall t': nat ensures Computes(h, Resume(h, k, out.outcome.v, out.st, t'), stack, whole) {
        ExecuteComputes(h, e.consequence, 0, out.st, t', stack);
        BranchComputes(h, e.otherwise, out.st, t', stack);
        IfBranch(h, out.outcome.v, e.consequence, e.otherwise, out.st, t', stack);
      }
    }
    Then(h, r, k, stack, out, now, EvalFrame(h, e, st, t), whole);
  }

  lemma {:induction false} MatchComputes(h: Host, e: Expr, st: State, t: nat, stack: seq<Cont>)
    requires Fits(h, SteadyExpr(e)) && e.Match?
    ensures Computes(h, EvalFrame(h, e, st, t), stack, RunExpr(h.answer, e, st))
    decreases e, 0, 0
  {
    hide Computes, Eval, Meet, MatchArms, RunArms;
    var k := MatchExpr(e.arms);
    var r := Eval(h, e.scrutinee, st, t);
    var out := RunExpr(h.answer, e.scrutinee, st);
    var whole := RunExpr(h.answer, e, st);
    var now := if IsVal(r) then MatchArms(h, e.arms, ValOf(r), r.st, r.tick) else r;
    EvalComputes(h, e.scrutinee, st, t, [k] + stack);
    assert whole == if out.outcome.Val? then RunArms(h.answer, e.arms, out.outcome.v, out.st) else out;
    assert EvalFrame(h, e, st, t) == if IsVal(r) then now else Through(r, k);
    hide RunExpr, EvalFrame;
    if IsVal(r) {
      SameValue(h, r, [k] + stack, out);
      ArmsCompute(h, e.arms, ValOf(r), r.st, r.tick, stack);
    }
    if out.outcome.Val? {
      forall t': nat ensures Computes(h, Resume(h, k, out.outcome.v, out.st, t'), stack, whole) {
        ArmsCompute(h, e.arms, out.outcome.v, out.st, t', stack);
      }
    }
    Then(h, r, k, stack, out, now, EvalFrame(h, e, st, t), whole);
  }

  // ---------------------------------------------------------------- blocks

  lemma {:induction false} ExecuteComputes(h: Host, b: Block, i: nat, st: State, t: nat, stack: seq<Cont>)
    requires Fits(h, SteadyBlock(b)) && i <= |b.stmts|
    ensures Computes(h, Execute(h, b, i, st, t), stack, RunBlock(h.answer, b, i, st))
    decreases b, 3 * Remaining(|b.stmts|, i) + 2, 0
  {
    hide BlockFrame, RunBlock, SteadyBlock;
    BlockComputes(h, b, i, st, t + 1, stack);
    if h.suspends(t) {
      assert [] + stack == stack;
      StepsInto(h, Start(Execute(h, b, i, st, t), stack), BlockFrame(h, b, i, st, t + 1), stack, RunBlock(h.answer, b, i, st));
    }
  }

  lemma {:induction false} BlockComputes(h: Host, b: Block, i: nat, st: State, t: nat, stack: seq<Cont>)
    requires Fits(h, SteadyBlock(b)) && i <= |b.stmts|
    ensures Computes(h, BlockFrame(h, b, i, st, t), stack, RunBlock(h.answer, b, i, st))
    decreases b, 3 * Remaining(|b.stmts|, i) + 1, 0
  {
    if i == |b.stmts| {
      hide Computes, Eval, RunExpr;
      if b.final.None? {
        Finishes(h, Val(UnitV), st, t, stack);
      } else {
        EvalComputes(h, b.final.value, st, t, stack);
      }
    } else {
      hide *;
      match b.stmts[i]
      case Bind(_, _) => BindComputes(h, b, i, st, t, stack);
      case Assign(_, _) => AssignComputes(h, b, i, st, t, stack);
      case Discard(_) => DiscardComputes(h, b, i, st, t, stack);
      case ExitWith(_, _) => ExitComputes(h, b, i, st, t, stack);
      case Break => JumpComputes(h, b, i, st, t, stack);
      case Continue => JumpComputes(h, b, i, st, t, stack);
      case While(_, _, _) => LoopComputes(h, b, i, st, t, stack);
      case For(_, _, _, _) => LoopComputes(h, b, i, st, t, stack);
      case IfStmt(_, _, _) => IfStmtComputes(h, b, i, st, t, stack);
      case MatchStmt(_, _) => MatchStmtComputes(h, b, i, st, t, stack);
    }
  }

  lemma JumpComputes(h: Host, b: Block, i: nat, st: State, t: nat, stack: seq<Cont>)
    requires i < |b.stmts| && (b.stmts[i].Break? || b.stmts[i].Continue?)
    ensures Computes(h, BlockFrame(h, b, i, st, t), stack, RunBlock(h.answer, b, i, st))
  {
    Finishes(h, if b.stmts[i].Break? then Broke else Continued, st, t, stack);
  }

  lemma {:induction false} BindComputes(h: Host, b: Block, i: nat, st: State, t: nat, stack: seq<Cont>)
    requires Fits(h, SteadyBlock(b)) && i < |b.stmts| && b.stmts[i].Bind?
    ensures Computes(h, BlockFrame(h, b, i, st, t), stack, RunBlock(h.answer, b, i, st))
    decreases b, 3 * Remaining(|b.stmts|, i), 0
  {
    hide Computes, Eval, Meet, Execute, RunExpr;
    var x, init := b.stmts[i].x, b.stmts[i].init;
    var k := BindFrame(b, i + 1, x);
    var r := Eval(h, init, st, t);
    var out := RunExpr(h.answer, init, st);
    var whole := RunBlock(h.answer, b, i, st);
    var now := if IsVal(r) then BlockFrame(h, b, i + 1, Write(r.st, x, ValOf(r)), r.tick) else r;
    EvalComputes(h, init, st, t, [k] + stack);
    var one := RunStmt(h.answer, b.stmts[i], st);
    assert whole == if one.outcome.Val? then RunBlock(h.answer, b, i + 1, one.st) else one;
    assert whole == if out.outcome.Val? then RunBlock(h.answer, b, i + 1, Write(out.st, x, out.outcome.v)) else out;
    assert BlockFrame(h, b, i, st, t) == if IsVal(r) then now else Through(r, k);
    hide RunBlock, BlockFrame, SteadyBlock;
    if IsVal(r) {
      SameValue(h, r, [k] + stack, out);
      BlockComputes(h, b, i + 1, Write(r.st, x, ValOf(r)), r.tick, stack);
    }
    if out.outcome.Val? {
      forall t': nat ensures Computes(h, Resume(h, k, out.outcome.v, out.st, t'), stack, whole) {
        ExecuteComputes(h, b, i + 1, Write(out.st, x, out.outcome.v), t', stack);
      }
    }
    Then(h, r, k, stack, out, now, BlockFrame(h, b, i, st, t), whole);
  }

  lemma {:induction false} AssignComputes(h: Host, b: Block, i: nat, st: State, t: nat, stack: seq<Cont>)
    requires Fits(h, SteadyBlock(b)) && i < |b.stmts| && b.stmts[i].Assign?
    ensures Computes(h, BlockFrame(h, b, i, st, t), stack, RunBlock(h.answer, b, i, st))
    decreases b, 3 * Remaining(|b.stmts|, i), 0
  {
    hide Computes, Eval, Meet, Execute, RunExpr;
    var x, init := b.stmts[i].x, b.stmts[i].init;
    var k := AssignFrame(b, i + 1, x);
    var r := Eval(h, init, st, t);
    var out := RunExpr(h.answer, init, st);
    var whole := RunBlock(h.answer, b, i, st);
    var now := if !IsVal(r) then r
               else if x !in r.st.env then Ends(Failed(UnboundName), r.st, r.tick)
               else BlockFrame(h, b, i + 1, Write(r.st, x, ValOf(r)), r.tick);
    EvalComputes(h, init, st, t, [k] + stack);
    var one := RunStmt(h.answer, b.stmts[i], st);
    assert whole == if one.outcome.Val? then RunBlock(h.answer, b, i + 1, one.st) else one;
    assert whole == if !out.outcome.Val? then out
                    else if x !in out.st.env then Result(Failed(UnboundName), out.st)
                    else RunBlock(h.answer, b, i + 1, Write(out.st, x, out.outcome.v));
    assert BlockFrame(h, b, i, st, t) == if IsVal(r) then now else Through(r, k);
    hide RunBlock, BlockFrame, SteadyBlock;
    if IsVal(r) {
      SameValue(h, r, [k] + stack, out);
      Finishes(h, Failed(UnboundName), r.st, r.tick, stack);
      BlockComputes(h, b, i + 1, Write(r.st, x, ValOf(r)), r.tick, stack);
    }
    if out.outcome.Val? {
      forall t': nat ensures Computes(h, Resume(h, k, out.outcome.v, out.st, t'), stack, whole) {
        Finishes(h, Failed(UnboundName), out.st, t', stack);
        ExecuteComputes(h, b, i + 1, Write(out.st, x, out.outcome.v), t', stack);
      }
    }
    Then(h, r, k, stack, out, now, BlockFrame(h, b, i, st, t), whole);
  }

  lemma {:induction false} DiscardComputes(h: Host, b: Block, i: nat, st: State, t: nat, stack: seq<Cont>)
    requires Fits(h, SteadyBlock(b)) && i < |b.stmts| && b.stmts[i].Discard?
    ensures Computes(h, BlockFrame(h, b, i, st, t), stack, RunBlock(h.answer, b, i, st))
    decreases b, 3 * Remaining(|b.stmts|, i), 0
  {
    var k := ContinueBlock(b, i + 1);
    assert SteadyBlock(b) ==> SteadyStmt(b.stmts[i]);
    EvalComputes(h, b.stmts[i].init, st, t, [k] + stack);
    NextStmt(h, b, i, Eval(h, b.stmts[i].init, st, t), st, stack, BlockFrame(h, b, i, st, t));
  }

  lemma {:induction false} LoopComputes(h: Host, b: Block, i: nat, st: State, t: nat, stack: seq<Cont>)
    requires Fits(h, SteadyBlock(b)) && i < |b.stmts| && (b.stmts[i].While? || b.stmts[i].For?)
    ensures Computes(h, BlockFrame(h, b, i, st, t), stack, RunBlock(h.answer, b, i, st))
    decreases b, 3 * Remaining(|b.stmts|, i), 0
  {
    var s := b.stmts[i];
    var k := ContinueBlock(b, i + 1);
    if s.While? {
      StartWhileComputes(h, s, st, t, [k] + stack);
      NextStmt(h, b, i, StartWhile(h, s, st, t), st, stack, BlockFrame(h, b, i, st, t));
    } else {
      StartForComputes(h, s, st, t, [k] + stack);
      NextStmt(h, b, i, StartFor(h, s, st, t), st, stack, BlockFrame(h, b, i, st, t));
    }
  }

  /** A statement whose value is dropped, and the statements after it. */
  lemma {:induction false} NextStmt(h: Host, b: Block, i: nat, r: Res, st: State, stack: seq<Cont>, all: Res)
    requires Fits(h, SteadyBlock(b)) && i < |b.stmts|
    requires Computes(h, r, [ContinueBlock(b, i + 1)] + stack, RunStmt(h.answer, b.stmts[i], st))
    requires all == if IsVal(r) then BlockFrame(h, b, i + 1, r.st, r.tick) else Through(r, ContinueBlock(b, i + 1))
    ensures Computes(h, all, stack, RunBlock(h.answer, b, i, st))
    decreases b, 3 * Remaining(|b.stmts|, i) - 1, 1
  {
    hide Computes, Meet, Execute, RunStmt, BlockFrame, SteadyBlock;
    var k := ContinueBlock(b, i + 1);
    var out := RunStmt(h.answer, b.stmts[i], st);
    var whole := RunBlock(h.answer, b, i, st);
    var now := if IsVal(r) then BlockFrame(h, b, i + 1, r.st, r.tick) else r;
    assert whole == if out.outcome.Val? then RunBlock(h.answer, b, i + 1, out.st) else out;
    hide RunBlock;
    if IsVal(r) {
      SameValue(h, r, [k] + stack, out);
      BlockComputes(h, b, i + 1, r.st, r.tick, stack);
    }
    if out.outcome.Val? {
      forall t': nat ensures Computes(h, Resume(h, k, out.outcome.v, out.st, t'), stack, whole) {
        ExecuteComputes(h, b, i + 1, out.st, t', stack);
      }
    }
    Then(h, r, k, stack, out, now, all, whole);
  }

  lemma {:induction false} ExitComputes(h: Host, b: Block, i: nat, st: State, t: nat, stack: seq<Cont>)
    requires Fits(h, SteadyBlock(b)) && i < |b.stmts| && b.stmts[i].ExitWith?
    ensures Computes(h, BlockFrame(h, b, i, st, t), stack, RunBlock(h.answer, b, i, st))
    decreases b, 3 * Remaining(|b.stmts|, i), 0
  {
    hide Computes, Eval, Meet, RunExpr;
    var exit, result := b.stmts[i].exit, b.stmts[i].result;
    if result.None? {
      Finishes(h, Left(exit, UnitV), st, t, stack);
    } else {
      var k := ExitFrame(exit);
      var r := Eval(h, result.value, st, t);
      var out := RunExpr(h.answer, result.value, st);
      var whole := RunBlock(h.answer, b, i, st);
      var now := if IsVal(r) then Ends(Left(exit, ValOf(r)), r.st, r.tick) else r;
      EvalComputes(h, result.value, st, t, [k] + stack);
      var one := RunStmt(h.answer, b.stmts[i], st);
      assert !one.outcome.Val? && whole == one;
      assert whole == if out.outcome.Val? then Result(Left(exit, out.outcome.v), out.st) else out;
      assert BlockFrame(h, b, i, st, t) == if IsVal(r) then now else Through(r, k);
      hide RunBlock, BlockFrame;
      if IsVal(r) {
        SameValue(h, r, [k] + stack, out);
        Finishes(h, Left(exit, ValOf(r)), r.st, r.tick, stack);
      }
      if out.outcome.Val? {
        forall t': nat ensures Computes(h, Resume(h, k, out.outcome.v, out.st, t'), stack, whole) {
          Finishes(h, Left(exit, out.outcome.v), out.st, t', stack);
        }
      }
      Then(h, r, k, stack, out, now, BlockFrame(h, b, i, st, t), whole);
    }
  }

  /** The chosen branch of a conditional statement, then the rest of the block. */
  lemma {:induction false} AfterBranchComputes(h: Host, b: Block, i: nat, r: Res, out: Result, stack: seq<Cont>)
    requires Fits(h, SteadyBlock(b)) && i < |b.stmts|
    requires Computes(h, r, [ContinueBlock(b, i + 1)] + stack, out)
    ensures Computes(h, AfterBranch(h, r, b, i + 1), stack,
                     if out.outcome.Val? then RunBlock(h.answer, b, i + 1, out.st) else out)
    decreases b, 3 * Remaining(|b.stmts|, i) - 1, 1
  {
    hide Computes, Meet, Execute, RunBlock, SteadyBlock;
    var k := ContinueBlock(b, i + 1);
    var whole := if out.outcome.Val? then RunBlock(h.answer, b, i + 1, out.st) else out;
    var now := if IsVal(r) then Execute(h, b, i + 1, r.st, r.tick) else r;
    if IsVal(r) {
      SameValue(h, r, [k] + stack, out);
      ExecuteComputes(h, b, i + 1, r.st, r.tick, stack);
    }
    if out.outcome.Val? {
      forall t': nat ensures Computes(h, Resume(h, k, out.outcome.v, out.st, t'), stack, whole) {
        ExecuteComputes(h, b, i + 1, out.st, t', stack);
      }
    }
    Then(h, r, k, stack, out, now, AfterBranch(h, r, b, i + 1), whole);
  }

  lemma {:induction false} IfStmtComputes(h: Host, b: Block, i: nat, st: State, t: nat, stack: seq<Cont>)
    requires Fits(h, SteadyBlock(b)) && i < |b.stmts| && b.stmts[i].IfStmt?
    ensures Computes(h, BlockFrame(h, b, i, st, t), stack, RunBlock(h.answer, b, i, st))
    decreases b, 3 * Remaining(|b.stmts|, i), 0
  {
    hide Computes, Eval, Meet, Execute, Branch, RunExpr, RunElse;
    var IfStmt(cond, consequence, otherwise) := b.stmts[i];
    var k := IfStmtFrame(b, i + 1, consequence, otherwise);
    var r := Eval(h, cond, st, t);
    var out := RunExpr(h.answer, cond, st);
    var whole := RunBlock(h.answer, b, i, st);
    var now := if IsVal(r) then AfterBranch(h, ResumeIf(h, ValOf(r), consequence, otherwise, r.st, r.tick), b, i + 1) else r;
    EvalComputes(h, cond, st, t, [k] + stack);
    var one := RunStmt(h.answer, b.stmts[i], st);
    assert whole == if one.outcome.Val? then RunBlock(h.answer, b, i + 1, one.st) else one;
    assert whole == if out.outcome.Val? then AfterIf(h, out.outcome.v, b, i, out.st) else out;
    assert BlockFrame(h, b, i, st, t) == if IsVal(r) then now else Through(r, k);
    hide RunBlock, BlockFrame, SteadyBlock, ResumeIf, AfterBranch, AfterIf;
    if IsVal(r) {
      SameValue(h, r, [k] + stack, out);
      IfThenRest(h, ValOf(r), b, i, r.st, r.tick, stack);
    }
    if out.outcome.Val? {
      forall t': nat ensures Computes(h, Resume(h, k, out.outcome.v, out.st, t'), stack, whole) {
        IfThenRest(h, out.outcome.v, b, i, out.st, t', stack);
      }
    }
    Then(h, r, k, stack, out, now, BlockFrame(h, b, i, st, t), whole);
  }

  function AfterIf(h: Host, v: Value, b: Block, i: nat, st: State): Result
    requires i < |b.stmts| && b.stmts[i].IfStmt?
  {
    var branch := RunIf(h, v, b.stmts[i].consequence, b.stmts[i].otherwise, st);
    if branch.outcome.Val? then RunBlock(h.answer, b, i + 1, branch.st) else branch
  }

  lemma {:induction false} IfThenRest(h: Host, v: Value, b: Block, i: nat, st: State, t: nat, stack: seq<Cont>)
    requires Fits(h, SteadyBlock(b)) && i < |b.stmts| && b.stmts[i].IfStmt?
    ensures Computes(h, AfterBranch(h, ResumeIf(h, v, b.stmts[i].consequence, b.stmts[i].otherwise, st, t), b, i + 1), stack,
                     AfterIf(h, v, b, i, st))
    decreases b, 3 * Remaining(|b.stmts|, i) - 1, 2
  {
    hide Computes, Execute, Branch, RunBlock, RunElse, ResumeIf, RunIf, AfterBranch;
    var IfStmt(_, consequence, otherwise) := b.stmts[i];
    var inner := [ContinueBlock(b, i + 1)] + stack;
    ExecuteComputes(h, consequence, 0, st, t, inner);
    BranchComputes(h, otherwise, st, t, inner);
    IfBranch(h, v, consequence, otherwise, st, t, inner);
    AfterBranchComputes(h, b, i, ResumeIf(h, v, consequence, otherwise, st, t),
                        RunIf(h, v, consequence, otherwise, st), stack);
  }

  lemma {:induction false} MatchStmtComputes(h: Host, b: Block, i: nat, st: State, t: nat, stack: seq<Cont>)
    requires Fits(h, SteadyBlock(b)) && i < |b.stmts| && b.stmts[i].MatchStmt?
    ensures Computes(h, BlockFrame(h, b, i, st, t), stack, RunBlock(h.answer, b, i, st))
    decreases b, 3 * Remaining(|b.stmts|, i), 0
  {
    hide Computes, Eval, Meet, Execute, MatchArms, RunExpr, RunArms;
    var MatchStmt(scrutinee, arms) := b.stmts[i];
    var k := MatchStmtFrame(b, i + 1, arms);
    var r := Eval(h, scrutinee, st, t);
    var out := RunExpr(h.answer, scrutinee, st);
    var whole := RunBlock(h.answer, b, i, st);
    var now := if IsVal(r) then AfterBranch(h, MatchArms(h, arms, ValOf(r), r.st, r.tick), b, i + 1) else r;
    EvalComputes(h, scrutinee, st, t, [k] + stack);
    var one := RunStmt(h.answer, b.stmts[i], st);
    assert whole == if one.outcome.Val? then RunBlock(h.answer, b, i + 1, one.st) else one;
    assert whole == if out.outcome.Val? then AfterMatch(h, out.outcome.v, b, i, out.st) else out;
    assert BlockFrame(h, b, i, st, t) == if IsVal(r) then now else Through(r, k);
    hide RunBlock, BlockFrame, SteadyBlock, AfterBranch, AfterMatch;
    if IsVal(r) {
      SameValue(h, r, [k] + stack, out);
      MatchThenRest(h, ValOf(r), b, i, r.st, r.tick, stack);
    }
    if out.outcome.Val? {
      forall t': nat ensures Computes(h, Resume(h, k, out.outcome.v, out.st, t'), stack, whole) {
        MatchThenRest(h, out.outcome.v, b, i, out.st, t', stack);
      }
    }
    Then(h, r, k, stack, out, now, BlockFrame(h, b, i, st, t), whole);
  }

  function AfterMatch(h: Host, v: Value, b: Block, i: nat, st: State): Result
    requires i < |b.stmts| && b.stmts[i].MatchStmt?
  {
    var arm := RunArms(h.answer, b.stmts[i].arms, v, st);
    if arm.outcome.Val? then RunBlock(h.answer, b, i + 1, arm.st) else arm
  }

  lemma {:induction false} MatchThenRest(h: Host, v: Value, b: Block, i: nat, st: State, t: nat, stack: seq<Cont>)
    requires Fits(h, SteadyBlock(b)) && i < |b.stmts| && b.stmts[i].MatchStmt?
    ensures Computes(h, AfterBranch(h, MatchArms(h, b.stmts[i].arms, v, st, t), b, i + 1), stack, AfterMatch(h, v, b, i, st))
    decreases b, 3 * Remaining(|b.stmts|, i) - 1, 2
  {
    hide Computes, MatchArms, RunArms, RunBlock, AfterBranch;
    ArmsCompute(h, b.stmts[i].arms, v, st, t, [ContinueBlock(b, i + 1)] + stack);
    AfterBranchComputes(h, b, i, MatchArms(h, b.stmts[i].arms, v, st, t), RunArms(h.answer, b.stmts[i].arms, v, st), stack);
  }

  // ----------------------------------------------------------------- loops

  lemma {:induction false} StartWhileComputes(h: Host, s: Stmt, st: State, t: nat, stack: seq<Cont>)
    requires Fits(h, SteadyStmt(s)) && s.While?
    ensures Computes(h, StartWhile(h, s, st, t), stack, RunStmt(h.answer, s, st))
    decreases s, 1, 0
  {
    hide Computes, ContinueWhile, RunWhile;
    if LoopIterations(s.limit).None? {
      Finishes(h, LimitFault(s.limit), st, t, stack);
    } else {
      WhileComputes(h, s, 0, LoopIterations(s.limit).value, st, t, stack);
    }
  }

  function RunWhileBody(h: Host, s: Stmt, v: Value, i: nat, n: nat, st: State): Result
    requires s.While? && i < n
  {
    if !v.BoolV? then Result(Failed(NotBoolean), st)
    else if !v.b then Result(Val(UnitV), st)
    else
      var body := RunBlock(h.answer, s.body, 0, st);
      if body.outcome.Val? || body.outcome.Continued? then RunWhile(h.answer, s, i + 1, n, body.st)
      else if body.outcome.Broke? then Result(Val(UnitV), body.st)
      else body
  }

  /** A loop suspended in its condition passes the condition's outcome on exactly as the
      loop running on the spot would, except for a break or a continue. */
  lemma {:induction false} WhileComputes(h: Host, s: Stmt, i: U32, n: U32, st: State, t: nat, stack: seq<Cont>)
    requires Fits(h, SteadyStmt(s)) && s.While? && i <= n
    ensures Computes(h, ContinueWhile(h, s, i, n, st, t), stack, RunWhile(h.answer, s, i, n, st))
    decreases s, 0, 2 * Remaining(n, i) + 1
  {
    hide Computes, Eval, RunExpr, WhileBody, RunWhileBody;
    var whole := RunWhile(h.answer, s, i, n, st);
    if i == n {
      Finishes(h, Val(UnitV), st, t, stack);
    } else {
      var k := WhileLoop(s, i, n, false);
      var r := Eval(h, s.cond, st, t);
      var out := RunExpr(h.answer, s.cond, st);
      EvalComputes(h, s.cond, st, t, [k] + stack);
      WhileRuns(h, s, i, n, st);
      hide RunWhile, SteadyStmt;
      if r.signal.Done? {
        SameValue(h, r, [k] + stack, out);
        ImmediateContained(h, s.cond, st, t, SteadyStmt(s));
        if IsVal(r) {
          WhileBodyComputes(h, s, ValOf(r), i, n, r.st, r.tick, stack);
        } else {
          Finishes(h, r.signal.outcome, r.st, r.tick, stack);
        }
      } else {
        forall t': nat ensures Computes(h, Meet(h, k, out.outcome, out.st, t'), stack, whole) {
          if out.outcome.Val? {
            WhileBodyComputes(h, s, out.outcome.v, i, n, out.st, t', stack);
          } else {
            WhileBodyComputes(h, s, UnitV, i, n, out.st, t', stack);
            Finishes(h, if out.outcome.Broke? then Val(UnitV) else out.outcome, out.st, t', stack);
          }
        }
      }
      hide Meet;
      Sequel(h, r, k, stack, out, ContinueWhile(h, s, i, n, st, t), whole);
    }
  }

  lemma WhileRuns(h: Host, s: Stmt, i: nat, n: nat, st: State)
    requires s.While? && i < n
    ensures var r := RunExpr(h.answer, s.cond, st);
            RunWhile(h.answer, s, i, n, st)
            == if r.outcome.Val? then RunWhileBody(h, s, r.outcome.v, i, n, r.st)
               else if r.outcome.Broke? then Result(Val(UnitV), r.st)
               else if r.outcome.Continued? then RunWhileBody(h, s, UnitV, i, n, r.st)
               else r
  {
    hide RunExpr, RunBlock;
  }

  /** An expression answered on the spot in steady code neither breaks nor continues. */
  lemma ImmediateContained(h: Host, e: Expr, st: State, t: nat, steady: bool)
    requires Fits(h, steady) && (steady ==> ContainedExpr(e))
    requires Eval(h, e, st, t).signal.Done?
    ensures !Escapes(RunExpr(h.answer, e, st).outcome)
  {
    assert !h.suspends(t);
    ExprContains(h.answer, e, st);
  }

  lemma {:induction false} WhileBodyComputes(h: Host, s: Stmt, v: Value, i: U32, n: U32, st: State, t: nat, stack: seq<Cont>)
    requires Fits(h, SteadyStmt(s)) && s.While? && i < n
    ensures Computes(h, WhileBody(h, s, v, i, n, st, t), stack, RunWhileBody(h, s, v, i, n, st))
    decreases s, 0, 2 * Remaining(n, i)
  {
    hide Computes, Execute, RunBlock, ContinueWhile, RunWhile;
    var whole := RunWhileBody(h, s, v, i, n, st);
    if !v.BoolV? {
      Finishes(h, Failed(NotBoolean), st, t, stack);
    } else if !v.b {
      Finishes(h, Val(UnitV), st, t, stack);
    } else {
      var k := WhileLoop(s, i, n, true);
      var r := Execute(h, s.body, 0, st, t);
      var out := RunBlock(h.answer, s.body, 0, st);
      ExecuteComputes(h, s.body, 0, st, t, [k] + stack);
      if r.signal.Done? {
        SameValue(h, r, [k] + stack, out);
        WhileComputes(h, s, i + 1, n, r.st, r.tick, stack);
        Finishes(h, if r.signal.outcome.Broke? then Val(UnitV) else r.signal.outcome, r.st, r.tick, stack);
      } else {
        forall t': nat ensures Computes(h, Meet(h, k, out.outcome, out.st, t'), stack, whole) {
          WhileComputes(h, s, i + 1, n, out.st, t', stack);
          Finishes(h, if out.outcome.Broke? then Val(UnitV) else out.outcome, out.st, t', stack);
        }
      }
      hide Meet;
      Sequel(h, r, k, stack, out, WhileBody(h, s, v, i, n, st, t), whole);
    }
  }

  lemma {:induction false} StartForComputes(h: Host, s: Stmt, st: State, t: nat, stack: seq<Cont>)
    requires Fits(h, SteadyStmt(s)) && s.For?
    ensures Computes(h, StartFor(h, s, st, t), stack, RunStmt(h.answer, s, st))
    decreases s, 1, 0
  {
    hide Computes, Eval, ContinueFor, RunExpr, RunFor;
    if LoopIterations(s.limit).None? {
      Finishes(h, LimitFault(s.limit), st, t, stack);
    } else {
      var n := LoopIterations(s.limit).value;
      var whole := RunStmt(h.answer, s, st);
      var k := ForLoop(s, None, 0, n);
      var r := Eval(h, s.iter, st, t);
      var out := RunExpr(h.answer, s.iter, st);
      EvalComputes(h, s.iter, st, t, [k] + stack);
      if r.signal.Done? {
        SameValue(h, r, [k] + stack, out);
        ImmediateContained(h, s.iter, st, t, SteadyStmt(s));
        if IsVal(r) && IterationSource(ValOf(r)).Some? {
          ForComputes(h, s, IterationSource(ValOf(r)).value, 0, n, r.st, r.tick, stack);
        } else {
          Finishes(h, if IsVal(r) then Failed(NotIterable) else r.signal.outcome, r.st, r.tick, stack);
        }
      } else {
        forall t': nat ensures Computes(h, Meet(h, k, out.outcome, out.st, t'), stack, whole) {
          if out.outcome.Val? && IterationSource(out.outcome.v).Some? {
            ForComputes(h, s, IterationSource(out.outcome.v).value, 0, n, out.st, t', stack);
          } else {
            Finishes(h, if out.outcome.Val? || out.outcome.Continued? then Failed(NotIterable)
                        else if out.outcome.Broke? then Val(UnitV) else out.outcome, out.st, t', stack);
          }
        }
      }
      hide Meet;
      Sequel(h, r, k, stack, out, StartFor(h, s, st, t), whole);
    }
  }

  lemma {:induction false} ForComputes(h: Host, s: Stmt, source: seq<Value>, i: nat, n: nat, st: State, t: nat, stack: seq<Cont>)
    requires Fits(h, SteadyStmt(s)) && s.For? && i <= n
    ensures Computes(h, ContinueFor(h, s, source, i, n, st, t), stack, RunFor(h.answer, s, source, i, n, st))
    decreases s, 0, Remaining(n, i)
  {
    hide Computes, Execute, RunBlock;
    var whole := RunFor(h.answer, s, source, i, n, st);
    if i == n || i >= |source| {
      Finishes(h, Val(UnitV), st, t, stack);
    } else {
      var k := ForLoop(s, Some(source), i + 1, n);
      var bound := Write(st, s.x, source[i]);
      var r := Execute(h, s.body, 0, bound, t);
      var out := RunBlock(h.answer, s.body, 0, bound);
      ExecuteComputes(h, s.body, 0, bound, t, [k] + stack);
      if r.signal.Done? {
        SameValue(h, r, [k] + stack, out);
        ForComputes(h, s, source, i + 1, n, r.st, r.tick, stack);
        Finishes(h, if r.signal.outcome.Broke? then Val(UnitV) else r.signal.outcome, r.st, r.tick, stack);
      } else {
        forall t': nat ensures Computes(h, Meet(h, k, out.outcome, out.st, t'), stack, whole) {
          ForComputes(h, s, source, i + 1, n, out.st, t', stack);
          Finishes(h, if out.outcome.Broke? then Val(UnitV) else out.outcome, out.st, t', stack);
        }
      }
      hide Meet;
      Sequel(h, r, k, stack, out, ContinueFor(h, s, source, i, n, st, t), whole);
    }
  }

  // ---------------------------------------------------------- main results

  lemma {:induction false} RunStays(h: Host, m: Machine, n: nat)
    requires Stopped(m)
    ensures Run(h, m, n) == m
    decreases n
  {
    if n > 0 {
      RunStays(h, m, n - 1);
    }
  }

  lemma StartLands(h: Host, b: Block, st: State)
    requires Fits(h, SteadyBlock(b))
    ensures Lands(h, Begin(b, st), [], RunBlock(h.answer, b, 0, st))
  {
    hide Step, RunBlock, BlockFrame, SteadyBlock;
    BlockComputes(h, b, 0, st, 0, []);
    FirstStep(h, b, st);
    StepsInto(h, Begin(b, st), BlockFrame(h, b, 0, st, 0), [], RunBlock(h.answer, b, 0, st));
  }

  function Begin(b: Block, st: State): Machine {
    Machine(Pending(EvalBlock(b, 0), []), [], st, 0)
  }

  lemma FirstStep(h: Host, b: Block, st: State)
    ensures Step(h, Begin(b, st)) == Start(BlockFrame(h, b, 0, st, 0), [])
  {
    hide BlockFrame;
  }

  /** A whole block, from the start: the machine stops, and wherever it stops it has the
      direct result, whatever was suspended on the way. */
  lemma BlockIsTransparent(h: Host, b: Block, st: State)
    requires Fits(h, SteadyBlock(b))
    ensures exists n: nat :: Stopped(Run(h, Begin(b, st), n))
    ensures forall n: nat :: Stopped(Run(h, Begin(b, st), n)) ==>
              var m := Run(h, Begin(b, st), n);
              Result(m.signal.outcome, m.st) == RunBlock(h.answer, b, 0, st)
  {
    hide Step, RunBlock, SteadyBlock, Begin;
    var start := Begin(b, st);
    var out := RunBlock(h.answer, b, 0, st);
    StartLands(h, b, st);
    var k: nat, t: nat :| Run(h, start, k) == Machine(Done(out.outcome), [], out.st, t);
    forall n: nat | Stopped(Run(h, start, n))
      ensures Result(Run(h, start, n).signal.outcome, Run(h, start, n).st) == out
    {
      StopsOnce(h, start, k, n);
    }
  }

  predicate Stopped(m: Machine) {
    m.signal.Done? && m.stack == []
  }

  lemma StopsOnce(h: Host, m: Machine, a: nat, b: nat)
    requires Stopped(Run(h, m, a)) && Stopped(Run(h, m, b))
    ensures Run(h, m, a) == Run(h, m, b)
  {
    hide Step;
    if a <= b {
      RunOn(h, m, a, b - a);
      RunStays(h, Run(h, m, a), b - a);
    } else {
      RunOn(h, m, b, a - b);
      RunStays(h, Run(h, m, b), a - b);
    }
  }

  /** Two hosts that answer alike but cut evaluation differently give the same outcome, the
      same variables and the same requests in the same order. */
  lemma CutsDoNotMatter(h1: Host, h2: Host, b: Block, st: State, n1: nat, n2: nat)
    requires h1.answer == h2.answer
    requires Fits(h1, SteadyBlock(b)) && Fits(h2, SteadyBlock(b))
    requires Stopped(Run(h1, Begin(b, st), n1)) && Stopped(Run(h2, Begin(b, st), n2))
    ensures Run(h1, Begin(b, st), n1).signal == Run(h2, Begin(b, st), n2).signal
    ensures Run(h1, Begin(b, st), n1).st == Run(h2, Begin(b, st), n2).st
  {
    hide Run, RunBlock, SteadyBlock, Begin;
    BlockIsTransparent(h1, b, st);
    BlockIsTransparent(h2, b, st);
  }

  // -------------------------------------------------- why conditions matter

  const BreakingCondition: Expr := If(Literal(BoolV(true)), Block([Break], None), NoElse)
  const BreakingLoop: Block := Block([While(BreakingCondition, Some(1), Block([], None))], None)

  /** A block that is not steady: evaluated on the spot its condition's break escapes the
      loop, while the suspended loop catches it. */
  lemma BreakInConditionDiffers(answer: Answers, st: State)
    ensures Run(Host(answer, (_: nat) => false), Begin(BreakingLoop, st), 1).signal == Done(Broke)
    ensures RunBlock(answer, BreakingLoop, 0, st) == Result(Val(UnitV), st)
    ensures !SteadyBlock(BreakingLoop)
  {
    BreakOnTheSpot(answer, st);
    FirstStep(Host(answer, (_: nat) => false), BreakingLoop, st);
    BreakCaught(answer, st);
    assert !ContainedStmt(Break) && !ContainedBlock(Block([Break], None)) && !ContainedExpr(BreakingCondition) by {
      assert Block([Break], None).stmts[0] == Break;
    }
    assert BreakingLoop.stmts[0] == While(BreakingCondition, Some(1), Block([], None));
  }

  lemma BreakOnTheSpot(answer: Answers, st: State)
    ensures BlockFrame(Host(answer, (_: nat) => false), BreakingLoop, 0, st, 0) == Ends(Broke, st, 3)
  {
    var h := Host(answer, (_: nat) => false);
    var loop := BreakingLoop.stmts[0];
    assert Execute(h, Block([Break], None), 0, st, 2) == Ends(Broke, st, 3);
    assert EvalFrame(h, BreakingCondition, st, 1) == Ends(Broke, st, 3);
    assert StartWhile(h, loop, st, 0) == ContinueWhile(h, loop, 0, 1, st, 0) == Ends(Broke, st, 3);
  }

  lemma BreakCaught(answer: Answers, st: State)
    ensures RunBlock(answer, BreakingLoop, 0, st) == Result(Val(UnitV), st)
  {
    var loop := BreakingLoop.stmts[0];
    assert RunBlock(answer, Block([Break], None), 0, st) == Result(Broke, st);
    assert RunExpr(answer, BreakingCondition, st) == Result(Broke, st);
    assert RunStmt(answer, loop, st) == RunWhile(answer, loop, 0, 1, st) == Result(Val(UnitV), st);
    assert RunBlock(answer, BreakingLoop, 1, st) == Result(Val(UnitV), st);
  }
}
