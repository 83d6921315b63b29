/** What programs of the language observe: evaluation order, lists, patterns and iteration. The
    laws speak of the direct evaluator, and `OnMachine` carries them to every suspension. */
module LanguageLaws {
  import opened Language
  import opened DirectEval
  import opened SuspendEval
  import opened ContainedCode
  import opened Transparency

  /** A whole program that is one expression. */
  function Program(e: Expr): Block {
    Block([], Some(e))
  }

  lemma OnMachine(h: Host, e: Expr, st: State)
    requires Fits(h, SteadyExpr(e))
    ensures exists n: nat :: Stopped(Run(h, Begin(Program(e), st), n))
    ensures forall n: nat :: Stopped(Run(h, Begin(Program(e), st), n)) ==>
              var m := Run(h, Begin(Program(e), st), n);
              Result(m.signal.outcome, m.st) == RunExpr(h.answer, e, st)
  {
    hide Run, Begin, RunExpr, SteadyExpr;
    assert SteadyBlock(Program(e)) == SteadyExpr(e);
    BlockIsTransparent(h, Program(e), st);
  }

  // --------------------------------------------------------- left to right

  /** From `states[i]` the `i`th expression gives `values[i]` and leads to `states[i + 1]`. */
  ghost predicate LeftToRight(h: Answers, elems: seq<Expr>, values: seq<Value>, states: seq<State>) {
    && |values| == |elems| && |states| == |elems| + 1
    && forall i | 0 <= i < |elems| :: RunExpr(h, elems[i], states[i]) == Result(Val(values[i]), states[i + 1])
  }

  lemma {:induction false} ListedFrom(h: Answers, e: Expr, i: nat, values: seq<Value>, states: seq<State>)
    requires (e.Aggregate? || e.Perform? || e.Call?) && i <= |Listed(e)| && LeftToRight(h, Listed(e)[..i], values, states)
    ensures RunListed(h, e, i, values, states[i]).outcome.Val? ==>
              exists all: seq<Value>, path: seq<State> ::
                && LeftToRight(h, Listed(e), all, path) && path[0] == states[0]
                && RunListed(h, e, i, values, states[i]) == RunListed(h, e, |Listed(e)|, all, path[|Listed(e)|])
    decreases |Listed(e)| - i
  {
    hide RunExpr, FinishListed;
    var elems := Listed(e);
    if i == |elems| {
      assert elems[..i] == elems;
      assert LeftToRight(h, elems, values, states);
    } else {
      var r := RunExpr(h, elems[i], states[i]);
      if r.outcome.Val? {
        var values', states' := values + [r.outcome.v], states + [r.st];
        forall j | 0 <= j < i + 1
          ensures RunExpr(h, elems[..i + 1][j], states'[j]) == Result(Val(values'[j]), states'[j + 1])
        {
          if j < i {
            assert elems[..i + 1][j] == elems[..i][j] && states'[j] == states[j] && states'[j + 1] == states[j + 1];
            assert values'[j] == values[j];
          } else {
            assert elems[..i + 1][j] == elems[i] && states'[j] == states[i];
          }
        }
        assert LeftToRight(h, elems[..i + 1], values', states');
        ListedFrom(h, e, i + 1, values', states');
        if RunListed(h, e, i, values, states[i]).outcome.Val? {
          var all, path :| LeftToRight(h, elems, all, path) && path[0] == states'[0]
                           && RunListed(h, e, i + 1, values', states'[i + 1]) == RunListed(h, e, |elems|, all, path[|elems|]);
          assert path[0] == states[0];
        }
      }
    }
  }

  lemma ListedAll(h: Answers, e: Expr, st: State)
    requires e.Aggregate? || e.Perform? || e.Call?
    ensures RunExpr(h, e, st).outcome.Val? ==>
              exists values: seq<Value>, states: seq<State> ::
                && LeftToRight(h, Listed(e), values, states) && states[0] == st
                && RunExpr(h, e, st) == RunListed(h, e, |Listed(e)|, values, states[|Listed(e)|])
  {
    assert LeftToRight(h, Listed(e)[..0], [], [st]);
    ListedFrom(h, e, 0, [], [st]);
    assert RunExpr(h, e, st) == RunListed(h, e, 0, [], st);
  }

  /** An aggregate holds the values of its elements, evaluated left to right, in that order;
      the empty tuple is the unit value. */
  lemma AggregateInOrder(h: Answers, shape: Shape, elems: seq<Expr>, st: State)
    ensures var r := RunExpr(h, Aggregate(shape, elems), st);
            r.outcome.Val? ==>
              exists values: seq<Value>, states: seq<State> ::
                && LeftToRight(h, elems, values, states) && states[0] == st && states[|elems|] == r.st
                && r.outcome.v == if shape.TupleShape? && |elems| == 0 then UnitV else AggV(shape, values)
  {
    var e := Aggregate(shape, elems);
    ListedAll(h, e, st);
    if RunExpr(h, e, st).outcome.Val? {
      var values, states :| LeftToRight(h, elems, values, states) && states[0] == st
                            && RunExpr(h, e, st) == RunListed(h, e, |elems|, values, states[|elems|]);
    }
  }

  /** A perform evaluates its arguments left to right and then makes exactly one request, of its
      own action with those arguments; its value is the answer. */
  lemma PerformInOrder(h: Answers, action: nat, elems: seq<Expr>, st: State)
    ensures var r := RunExpr(h, Perform(action, elems), st);
            r.outcome.Val? ==>
              exists values: seq<Value>, states: seq<State> ::
                && LeftToRight(h, elems, values, states) && states[0] == st
                && r.st == states[|elems|].(trace := states[|elems|].trace + [Performed(action, values)])
                && r.outcome.v == h(states[|elems|].trace, Performed(action, values))
  {
    var e := Perform(action, elems);
    ListedAll(h, e, st);
    if RunExpr(h, e, st).outcome.Val? {
      var values, states :| LeftToRight(h, elems, values, states) && states[0] == st
                            && RunExpr(h, e, st) == RunListed(h, e, |elems|, values, states[|elems|]);
    }
  }

  /** So does a call of its own target. */
  lemma CallInOrder(h: Answers, target: nat, elems: seq<Expr>, st: State)
    ensures var r := RunExpr(h, Call(target, None, elems), st);
            r.outcome.Val? ==>
              exists values: seq<Value>, states: seq<State> ::
                && LeftToRight(h, elems, values, states) && states[0] == st
                && r.st == states[|elems|].(trace := states[|elems|].trace + [Called(target, values)])
                && r.outcome.v == h(states[|elems|].trace, Called(target, values))
  {
    var e := Call(target, None, elems);
    ListedAll(h, e, st);
    if RunExpr(h, e, st).outcome.Val? {
      var values, states :| LeftToRight(h, elems, values, states) && states[0] == st
                            && RunExpr(h, e, st) == RunListed(h, e, |elems|, values, states[|elems|]);
    }
  }

  /** A method call asks its own target with the values in their parameter slots, or faults. */
  lemma MethodCallInOrder(h: Answers, target: nat, slots: Method, elems: seq<Expr>, st: State)
    ensures var r := RunExpr(h, Call(target, Some(slots), elems), st);
            r.outcome.Val? ==>
              exists values: seq<Value>, states: seq<State> ::
                && LeftToRight(h, elems, values, states) && states[0] == st
                && OrderArguments(slots, values).Some?
                && var event := Called(target, OrderArguments(slots, values).value);
                   && r.st == states[|elems|].(trace := states[|elems|].trace + [event])
                   && r.outcome.v == h(states[|elems|].trace, event)
    ensures forall values: seq<Value>, states: seq<State> |
              LeftToRight(h, elems, values, states) && states[0] == st && OrderArguments(slots, values).None? ::
              RunExpr(h, Call(target, Some(slots), elems), st) == Result(Failed(BadArguments), states[|elems|])
  {
    var e := Call(target, Some(slots), elems);
    ListedAll(h, e, st);
    if RunExpr(h, e, st).outcome.Val? {
      var values, states :| LeftToRight(h, elems, values, states) && states[0] == st
                            && RunExpr(h, e, st) == RunListed(h, e, |elems|, values, states[|elems|]);
    }
    forall values: seq<Value>, states: seq<State> |
      LeftToRight(h, elems, values, states) && states[0] == st && OrderArguments(slots, values).None?
      ensures RunExpr(h, e, st) == Result(Failed(BadArguments), states[|elems|])
    {
      ListedAlong(h, e, 0, values, states);
      assert values[..0] == [];
    }
  }

  lemma {:induction false} ListedAlong(h: Answers, e: Expr, i: nat, values: seq<Value>, states: seq<State>)
    requires (e.Aggregate? || e.Perform? || e.Call?) && i <= |Listed(e)| && LeftToRight(h, Listed(e), values, states)
    ensures RunListed(h, e, i, values[..i], states[i]) == RunListed(h, e, |Listed(e)|, values, states[|Listed(e)|])
    decreases |Listed(e)| - i
  {
    hide RunExpr, FinishListed;
    if i < |Listed(e)| {
      assert values[..i] + [values[i]] == values[..i + 1];
      ListedAlong(h, e, i + 1, values, states);
    } else {
      assert values[..i] == values;
    }
  }

  // ------------------------------------------------------------------ lists

  /** Cons puts the value of its head before the elements of its tail, which must be a list. */
  lemma ConsInFront(h: Answers, head: Expr, tail: Expr, st: State)
    ensures var first := RunExpr(h, head, st);
            var second := RunExpr(h, tail, first.st);
            var r := RunExpr(h, Cons(head, tail), st);
            first.outcome.Val? && second.outcome.Val? ==>
              && r.st == second.st
              && if second.outcome.v.AggV? && second.outcome.v.shape == ListShape
                 then && r.outcome.Val? && r.outcome.v.AggV? && r.outcome.v.shape == ListShape
                      && |r.outcome.v.items| == 1 + |second.outcome.v.items|
                      && r.outcome.v.items[0] == first.outcome.v && r.outcome.v.items[1..] == second.outcome.v.items
                 else r.outcome == Failed(NotList)
  {
    hide *;
    ConsSplits(h, head, tail, st);
  }

  lemma ConsSplits(h: Answers, head: Expr, tail: Expr, st: State)
    ensures var first := RunExpr(h, head, st);
            var second := RunExpr(h, tail, first.st);
            var r := RunExpr(h, Cons(head, tail), st);
            first.outcome.Val? && second.outcome.Val? ==>
              r == Result(if second.outcome.v.AggV? && second.outcome.v.shape == ListShape
                          then Val(AggV(ListShape, [first.outcome.v] + second.outcome.v.items)) else Failed(NotList), second.st)
  {
    hide RunListed, RunFields, RunEntries, RunArms, RunElse, RunBlock, ReadPath;
    var first := RunExpr(h, head, st);
    if first.outcome.Val? {
      ConsUnfolds(h, head, tail, st);
    }
  }

  lemma ConsUnfolds(h: Answers, head: Expr, tail: Expr, st: State)
    requires RunExpr(h, head, st).outcome.Val?
    ensures var first := RunExpr(h, head, st);
            var second := RunExpr(h, tail, first.st);
            RunExpr(h, Cons(head, tail), st)
            == if second.outcome.Val? then Result(FinishCons(first.outcome.v, second.outcome.v), second.st) else second
  {
    hide RunListed, RunFields, RunEntries, RunArms, RunElse, RunBlock, ReadPath, FinishCons;
  }

  /** A for loop accepts arrays and lists only. */
  lemma IteratesListsAndArrays(h: Answers, x: nat, v: Value, limit: int, body: Block, st: State)
    requires limit <= U32Max
    requires !(v.AggV? && (v.shape.ArrayShape? || v.shape.ListShape?))
    ensures RunStmt(h, For(x, Literal(v), Some(limit), body), st) == Result(Failed(NotIterable), st)
  {
    assert RunExpr(h, Literal(v), st) == Result(Val(v), st);
  }

  // --------------------------------------------------------------- patterns

  /** Arms with the given patterns, in order. */
  function Cases(patterns: seq<Pattern>, bodies: seq<Expr>): Arms
    requires |patterns| == |bodies|
    decreases |patterns|
  {
    if patterns == [] then NoArms else Arm(patterns[0], ElseIf(bodies[0]), Cases(patterns[1..], bodies[1..]))
  }

  /** A literal fits only its own value; the other patterns fit everything. */
  predicate FitsValue(pattern: Pattern, v: Value) {
    pattern.Exactly? ==> pattern.v == v
  }

  predicate FirstFit(patterns: seq<Pattern>, v: Value, i: nat) {
    i < |patterns| && FitsValue(patterns[i], v) && forall j | 0 <= j < i :: !FitsValue(patterns[j], v)
  }

  lemma {:induction false} ArmsPick(h: Answers, patterns: seq<Pattern>, bodies: seq<Expr>, v: Value, st: State)
    requires |patterns| == |bodies|
    ensures forall i: nat | FirstFit(patterns, v, i) ::
              RunArms(h, Cases(patterns, bodies), v, st)
              == RunExpr(h, bodies[i], if patterns[i].Binding? then st.(env := st.env[patterns[i].x := v]) else st)
    ensures (forall i | 0 <= i < |patterns| :: !FitsValue(patterns[i], v)) ==>
              RunArms(h, Cases(patterns, bodies), v, st) == Result(Failed(NoMatchingArm), st)
    decreases |patterns|
  {
    hide RunExpr;
    if patterns != [] {
      var rest, after := patterns[1..], bodies[1..];
      ArmsPick(h, rest, after, v, st);
      assert forall j | 0 <= j < |rest| :: rest[j] == patterns[j + 1] && after[j] == bodies[j + 1];
      forall i: nat | FirstFit(patterns, v, i)
        ensures RunArms(h, Cases(patterns, bodies), v, st)
             == RunExpr(h, bodies[i], if patterns[i].Binding? then st.(env := st.env[patterns[i].x := v]) else st)
      {
        if i > 0 {
          assert FirstFit(rest, v, i - 1);
          assert !FitsValue(patterns[0], v);
        }
      }
    }
  }

  /** A match runs the first arm that fits, with its name bound to the value; a literal pattern
      fits only its own value, and without a fit the match faults. */
  lemma MatchPicksFirst(h: Answers, scrutinee: Expr, patterns: seq<Pattern>, bodies: seq<Expr>, st: State)
    requires |patterns| == |bodies| && RunExpr(h, scrutinee, st).outcome.Val?
    ensures var s := RunExpr(h, scrutinee, st);
            var r := RunExpr(h, Match(scrutinee, Cases(patterns, bodies)), st);
            && (forall i: nat | FirstFit(patterns, s.outcome.v, i) ::
                  r == RunExpr(h, bodies[i], if patterns[i].Binding? then s.st.(env := s.st.env[patterns[i].x := s.outcome.v]) else s.st))
            && ((forall i | 0 <= i < |patterns| :: !FitsValue(patterns[i], s.outcome.v)) ==> r == Result(Failed(NoMatchingArm), s.st))
  {
    hide RunArms, Cases;
    var s := RunExpr(h, scrutinee, st);
    ArmsPick(h, patterns, bodies, s.outcome.v, s.st);
    assert RunExpr(h, Match(scrutinee, Cases(patterns, bodies)), st) == RunArms(h, Cases(patterns, bodies), s.outcome.v, s.st);
  }
}
