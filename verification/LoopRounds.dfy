/** How many rounds a bounded loop makes, and over what. A limit below one still allows one. */
module LoopRounds {
  import opened Language
  import opened DirectEval
  import opened SuspendEval
  import opened ContainedCode
  import opened Transparency

  /** The rounds a limit allows. */
  function Allowed(limit: int): nat {
    if limit < 1 then 1 else limit
  }

  function Least(a: nat, b: nat): nat {
    if a < b then a else b
  }

  predicate GoesOn(outcome: Outcome) {
    outcome.Val? || outcome.Continued?
  }

  // -------------------------------------------------------------- for loops

  /** The body once for each item, in order, until it leaves. */
  function BodyOver(h: Answers, x: nat, body: Block, items: seq<Value>, st: State): Result
    decreases |items|
  {
    if items == [] then Result(Val(UnitV), st)
    else
      var r := RunBlock(h, body, 0, st.(env := st.env[x := items[0]]));
      if GoesOn(r.outcome) then BodyOver(h, x, body, items[1..], r.st)
      else if r.outcome.Broke? then Result(Val(UnitV), r.st)
      else r
  }

  lemma {:induction false} ForRounds(h: Answers, s: Stmt, source: seq<Value>, i: nat, n: nat, st: State)
    requires s.For? && i <= n && i <= |source|
    ensures RunFor(h, s, source, i, n, st) == BodyOver(h, s.x, s.body, source[i..if n < |source| && i <= n then n else |source|], st)
    decreases n - i
  {
    hide RunBlock;
    var end := if n < |source| && i <= n then n else |source|;
    if i < n && i < |source| {
      assert source[i..end][1..] == source[i + 1..end] && source[i..end][0] == source[i];
      ForRounds(h, s, source, i + 1, n, RunBlock(h, s.body, 0, Write(st, s.x, source[i])).st);
    } else {
      assert source[i..end] == [];
    }
  }

  /** A for loop over an array or a list runs its body over the first `max(1, limit)` elements,
      or over all of them if there are fewer. */
  lemma ForRunsBody(h: Answers, x: nat, iter: Expr, limit: int, body: Block, st: State)
    requires limit <= U32Max
    ensures var r := RunExpr(h, iter, st);
            r.outcome.Val? && r.outcome.v.AggV? && (r.outcome.v.shape.ArrayShape? || r.outcome.v.shape.ListShape?) ==>
              var items := r.outcome.v.items;
              RunStmt(h, For(x, iter, Some(limit), body), st)
              == BodyOver(h, x, body, items[..Least(|items|, Allowed(limit))], r.st)
  {
    hide RunExpr, RunBlock, RunFor, BodyOver;
    var r := RunExpr(h, iter, st);
    if r.outcome.Val? && r.outcome.v.AggV? && (r.outcome.v.shape.ArrayShape? || r.outcome.v.shape.ListShape?) {
      var items := r.outcome.v.items;
      ForRounds(h, For(x, iter, Some(limit), body), items, 0, Allowed(limit), r.st);
    }
  }

  /** A missing limit, or one beyond 32 bits, is a fault before anything runs. */
  lemma LimitsChecked(h: Answers, s: Stmt, st: State)
    requires s.While? || s.For?
    requires s.limit.None? || s.limit.value > U32Max
    ensures RunStmt(h, s, st) == Result(Failed(if s.limit.None? then NoIterationLimit else LimitTooLarge), st)
  {
  }

  // ------------------------------------------------------------ while loops

  /** One whole round, if the condition is true and the body goes on. */
  function Round(h: Answers, cond: Expr, body: Block, st: State): Option<State> {
    var r := RunExpr(h, cond, st);
    if r.outcome != Val(BoolV(true)) then None
    else
      var b := RunBlock(h, body, 0, r.st);
      if GoesOn(b.outcome) then Some(b.st) else None
  }

  /** How a round ends that is not followed by another. A break ends the loop normally,
      and so does a false condition. */
  function LastRound(h: Answers, cond: Expr, body: Block, st: State): Result {
    var r := RunExpr(h, cond, st);
    if r.outcome == Val(BoolV(true)) then
      var b := RunBlock(h, body, 0, r.st);
      if b.outcome.Broke? then Result(Val(UnitV), b.st) else b
    else if r.outcome == Val(BoolV(false)) || r.outcome.Broke? then Result(Val(UnitV), r.st)
    else if GoesOn(r.outcome) then Result(Failed(NotBoolean), r.st)
    else r
  }

  function Rounds(h: Answers, cond: Expr, body: Block, k: nat, st: State): Option<State> {
    if k == 0 then Some(st)
    else
      var before := Rounds(h, cond, body, k - 1, st);
      if before.None? then None else Round(h, cond, body, before.value)
  }

  /** The loop made `k` whole rounds, and then the limit, or the round after them, ended it. */
  ghost predicate EndsAfter(h: Answers, s: Stmt, n: nat, st: State, k: nat, out: Result)
    requires s.While?
  {
    var after := Rounds(h, s.cond, s.body, k, st);
    && k <= n && after.Some?
    && if k == n then out == Result(Val(UnitV), after.value)
       else Round(h, s.cond, s.body, after.value).None? && out == LastRound(h, s.cond, s.body, after.value)
  }

  lemma {:induction false} WhileRounds(h: Answers, s: Stmt, i: nat, n: nat, st: State, now: State)
    requires s.While? && i <= n && Rounds(h, s.cond, s.body, i, st) == Some(now)
    ensures exists k :: i <= k && EndsAfter(h, s, n, st, k, RunWhile(h, s, i, n, now))
    decreases n - i
  {
    hide RunExpr, RunBlock;
    if i < n && Round(h, s.cond, s.body, now).Some? {
      var next := Round(h, s.cond, s.body, now).value;
      WhileRounds(h, s, i + 1, n, st, next);
      var k :| i + 1 <= k && EndsAfter(h, s, n, st, k, RunWhile(h, s, i + 1, n, next));
    } else {
      assert EndsAfter(h, s, n, st, i, RunWhile(h, s, i, n, now));
    }
  }

  /** A while loop makes whole rounds until one does not go on, at most `max(1, limit)`;
      when its condition stays true and its body goes on, exactly that many. */
  lemma WhileRunsBody(h: Answers, s: Stmt, st: State)
    requires s.While? && s.limit.Some? && s.limit.value <= U32Max
    ensures exists k :: EndsAfter(h, s, Allowed(s.limit.value), st, k, RunStmt(h, s, st))
    ensures var all := Rounds(h, s.cond, s.body, Allowed(s.limit.value), st);
            all.Some? ==> RunStmt(h, s, st) == Result(Val(UnitV), all.value)
  {
    hide RunExpr, RunBlock, RunWhile, Round, LastRound;
    var n := Allowed(s.limit.value);
    WhileRounds(h, s, 0, n, st, st);
    var k :| EndsAfter(h, s, n, st, k, RunStmt(h, s, st));
    if Rounds(h, s.cond, s.body, n, st).Some? && k < n {
      AllRounds(h, s.cond, s.body, k + 1, n, st);
    }
  }

  lemma {:induction false} AllRounds(h: Answers, cond: Expr, body: Block, k: nat, n: nat, st: State)
    requires k <= n && Rounds(h, cond, body, n, st).Some?
    ensures Rounds(h, cond, body, k, st).Some?
    decreases n
  {
    hide Round;
    if k < n {
      AllRounds(h, cond, body, k, n - 1, st);
    }
  }

  // -------------------------------------------------------- on the machine

  /** A body that asks the outside about the loop variable, and one that just asks. */
  function AskAbout(action: nat, x: nat): Block {
    Block([Discard(Perform(action, [Path(x)]))], None)
  }

  function Ask(action: nat): Block {
    Block([Discard(Perform(action, []))], None)
  }

  lemma AsksOnce(h: Answers, action: nat, x: nat, st: State)
    requires x in st.env
    ensures RunBlock(h, AskAbout(action, x), 0, st)
         == Result(Val(UnitV), st.(trace := st.trace + [Performed(action, [st.env[x]])]))
  {
    PerformAsks(h, action, x, st);
    var r := RunStmt(h, AskAbout(action, x).stmts[0], st);
    assert RunBlock(h, AskAbout(action, x), 1, r.st) == Result(Val(UnitV), r.st);
  }

  lemma PerformAsks(h: Answers, action: nat, x: nat, st: State)
    requires x in st.env
    ensures var event := Performed(action, [st.env[x]]);
            RunExpr(h, Perform(action, [Path(x)]), st) == Result(Val(h(st.trace, event)), st.(trace := st.trace + [event]))
  {
    var e := Perform(action, [Path(x)]);
    assert RunListed(h, e, 1, [st.env[x]], st) == Request(h, Performed(action, [st.env[x]]), st);
    assert [] + [st.env[x]] == [st.env[x]];
    assert RunExpr(h, Path(x), st) == Result(Val(st.env[x]), st);
    assert RunListed(h, e, 0, [], st) == RunListed(h, e, 1, [st.env[x]], st);
  }

  function Asked(action: nat, items: seq<Value>): seq<Event> {
    seq(|items|, i requires 0 <= i < |items| => Performed(action, [items[i]]))
  }

  lemma {:induction false} OverAsks(h: Answers, action: nat, x: nat, items: seq<Value>, st: State)
    ensures var out := BodyOver(h, x, AskAbout(action, x), items, st);
            out.outcome == Val(UnitV) && out.st.trace == st.trace + Asked(action, items)
    decreases |items|
  {
    if items != [] {
      hide RunBlock;
      var inside := st.(env := st.env[x := items[0]]);
      AsksOnce(h, action, x, inside);
      OverAsks(h, action, x, items[1..], inside.(trace := st.trace + [Performed(action, [items[0]])]));
      assert Asked(action, items) == [Performed(action, [items[0]])] + Asked(action, items[1..]);
    }
  }

  function LoopOver(action: nat, x: nat, shape: Shape, items: seq<Value>, limit: int): Block {
    Block([For(x, Literal(AggV(shape, items)), Some(limit), AskAbout(action, x))], None)
  }

  function LoopWhile(action: nat, limit: int): Block {
    Block([While(Literal(BoolV(true)), Some(limit), Ask(action))], None)
  }

  /** On the machine, whatever is suspended: a for loop asks about the first `max(1, limit)`
      elements of its source, each once, in order. */
  lemma ForAsksInOrder(h: Host, action: nat, x: nat, shape: Shape, items: seq<Value>, limit: int, st: State)
    requires limit <= U32Max && (shape.ArrayShape? || shape.ListShape?)
    ensures exists n: nat :: Stopped(Run(h, Begin(LoopOver(action, x, shape, items, limit), st), n))
    ensures forall n: nat :: Stopped(Run(h, Begin(LoopOver(action, x, shape, items, limit), st), n)) ==>
              var m := Run(h, Begin(LoopOver(action, x, shape, items, limit), st), n);
              && m.signal.outcome == Val(UnitV)
              && m.st.trace == st.trace + Asked(action, items[..Least(|items|, Allowed(limit))])
  {
    hide Run, Begin, BodyOver, RunStmt;
    var b := LoopOver(action, x, shape, items, limit);
    LoopSteady(h, b.stmts[0]);
    BlockIsTransparent(h, b, st);
    ForRunsBody(h.answer, x, Literal(AggV(shape, items)), limit, AskAbout(action, x), st);
    OverAsks(h.answer, action, x, items[..Least(|items|, Allowed(limit))], st);
    LastStmt(h.answer, b, st);
  }

  /** A while loop whose condition stays true asks exactly `max(1, limit)` times. */
  lemma WhileAsksExactly(h: Host, action: nat, limit: int, st: State)
    requires limit <= U32Max
    ensures exists n: nat :: Stopped(Run(h, Begin(LoopWhile(action, limit), st), n))
    ensures forall n: nat :: Stopped(Run(h, Begin(LoopWhile(action, limit), st), n)) ==>
              var m := Run(h, Begin(LoopWhile(action, limit), st), n);
              && m.signal.outcome == Val(UnitV)
              && m.st.trace == st.trace + seq(Allowed(limit), _ => Performed(action, []))
  {
    hide Run, Begin, RunStmt;
    var b := LoopWhile(action, limit);
    LoopSteady(h, b.stmts[0]);
    BlockIsTransparent(h, b, st);
    RoundsAsk(h.answer, action, Allowed(limit), st);
    WhileRunsBody(h.answer, b.stmts[0], st);
    LastStmt(h.answer, b, st);
  }

  lemma {:induction false} RoundsAsk(h: Answers, action: nat, k: nat, st: State)
    ensures Rounds(h, Literal(BoolV(true)), Ask(action), k, st)
         == Some(st.(trace := st.trace + seq(k, _ => Performed(action, []))))
    decreases k
  {
    if k == 0 {
      assert st.trace + seq(0, _ => Performed(action, [])) == st.trace;
    } else {
      hide RunBlock;
      RoundsAsk(h, action, k - 1, st);
      var before := st.(trace := st.trace + seq(k - 1, _ => Performed(action, [])));
      OneRound(h, action, before);
      assert st.trace + seq(k, _ => Performed(action, [])) == before.trace + [Performed(action, [])];
    }
  }

  lemma OneRound(h: Answers, action: nat, st: State)
    ensures Round(h, Literal(BoolV(true)), Ask(action), st) == Some(st.(trace := st.trace + [Performed(action, [])]))
  {
    var e := Perform(action, []);
    var asked := Result(Val(h(st.trace, Performed(action, []))), st.(trace := st.trace + [Performed(action, [])]));
    assert RunListed(h, e, 0, [], st) == asked;
    assert RunExpr(h, e, st) == asked && RunExpr(h, Literal(BoolV(true)), st) == Result(Val(BoolV(true)), st);
    var r := RunStmt(h, Ask(action).stmts[0], st);
    assert RunBlock(h, Ask(action), 1, r.st) == Result(Val(UnitV), r.st);
  }

  /** Such loops have steady conditions, so the results hold for every host. */
  lemma LoopSteady(h: Host, s: Stmt)
    requires (s.For? && s.iter.Literal?) || (s.While? && s.cond.Literal?)
    requires s.body.final.None? && |s.body.stmts| == 1 && s.body.stmts[0].Discard? && s.body.stmts[0].init.Perform?
    requires forall i | 0 <= i < |s.body.stmts[0].init.elems| :: s.body.stmts[0].init.elems[i].Path?
    ensures Fits(h, SteadyBlock(Block([s], None)))
  {
    assert SteadyExpr(s.body.stmts[0].init);
    assert SteadyBlock(s.body);
    assert SteadyStmt(s);
  }

  lemma LastStmt(h: Answers, b: Block, st: State)
    requires |b.stmts| == 1 && b.final.None?
    ensures var r := RunStmt(h, b.stmts[0], st);
            RunBlock(h, b, 0, st) == if r.outcome.Val? then Result(Val(UnitV), r.st) else r
  {
    hide RunStmt;
    var r := RunStmt(h, b.stmts[0], st);
    if r.outcome.Val? {
      assert RunBlock(h, b, 1, r.st) == Result(Val(UnitV), r.st);
    }
  }
}
