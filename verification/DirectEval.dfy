/** The direct recursive evaluator: what a program means, with no suspension anywhere. */
module DirectEval {
  import opened Language

  function Request(h: Answers, event: Event, st: State): Result {
    Result(Val(h(st.trace, event)), st.(trace := st.trace + [event]))
  }

  function Listed(e: Expr): seq<Expr> {
    match e
    case Aggregate(_, elems) => elems
    case Perform(_, elems) => elems
    case Call(_, _, elems) => elems
    case _ => []
  }

  /** What an argument list is for: a value, or a request to the outside. */
  datatype Finished = Built(outcome: Outcome) | Asks(event: Event)

  function FinishListed(e: Expr, values: seq<Value>): Finished
    requires e.Aggregate? || e.Perform? || e.Call?
  {
    match e
    case Aggregate(shape, _) => Built(Val(FinishAggregate(shape, values)))
    case Perform(action, _) => Asks(Performed(action, values))
    case Call(target, slots, _) =>
      if slots.None? then Asks(Called(target, values))
      else
        var ordered := OrderArguments(slots.value, values);
        if ordered.None? then Built(Failed(BadArguments)) else Asks(Called(target, ordered.value))
  }

  function RunExpr(h: Answers, e: Expr, st: State): Result
    decreases e, 1, 0
  {
    match e
    case Literal(v) => Result(Val(v), st)
    case Path(x) => Result(ReadPath(x, st), st)
    case Record(_) => RunFields(h, e, 0, [], st)
    case MapLiteral(_) => RunEntries(h, e, 0, [], st)
    case Cons(head, tail) =>
      var r := RunExpr(h, head, st);
      if !r.outcome.Val? then r else
      var s := RunExpr(h, tail, r.st);
      if !s.outcome.Val? then s else Result(FinishCons(r.outcome.v, s.outcome.v), s.st)
    case Range(start, end) =>
      var r := RunExpr(h, start, st);
      if !r.outcome.Val? then r else
      var s := RunExpr(h, end, r.st);
      if !s.outcome.Val? then s else Result(Val(RangeV(r.outcome.v, s.outcome.v)), s.st)
    case If(cond, consequence, otherwise) =>
      var r := RunExpr(h, cond, st);
      if !r.outcome.Val? then r
      else if !r.outcome.v.BoolV? then Result(Failed(NotBoolean), r.st)
      else if r.outcome.v.b then RunBlock(h, consequence, 0, r.st)
      else RunElse(h, otherwise, r.st)
    case Match(scrutinee, arms) =>
      var r := RunExpr(h, scrutinee, st);
      if !r.outcome.Val? then r else RunArms(h, arms, r.outcome.v, r.st)
    case _ => RunListed(h, e, 0, [], st)
  }

  function RunListed(h: Answers, e: Expr, i: nat, values: seq<Value>, st: State): Result
    requires (e.Aggregate? || e.Perform? || e.Call?) && i <= |Listed(e)|
    decreases e, 0, |Listed(e)| - i
  {
    if i == |Listed(e)| then
      match FinishListed(e, values)
      case Built(outcome) => Result(outcome, st)
      case Asks(event) => Request(h, event, st)
    else
      var r := RunExpr(h, Listed(e)[i], st);
      if !r.outcome.Val? then r else RunListed(h, e, i + 1, values + [r.outcome.v], r.st)
  }

  function RunFields(h: Answers, e: Expr, i: nat, values: seq<(nat, Value)>, st: State): Result
    requires e.Record? && i <= |e.fields|
    decreases e, 0, |e.fields| - i
  {
    if i == |e.fields| then Result(Val(RecordV(values)), st)
    else
      var r := match e.fields[i]
        case Shorthand(_, x) => Result(ReadPath(x, st), st)
        case Named(_, init) => RunExpr(h, init, st);
      if !r.outcome.Val? then r else RunFields(h, e, i + 1, values + [(e.fields[i].name, r.outcome.v)], r.st)
  }

  function RunEntries(h: Answers, e: Expr, i: nat, values: seq<(Value, Value)>, st: State): Result
    requires e.MapLiteral? && i <= |e.entries|
    decreases e, 0, |e.entries| - i
  {
    if i == |e.entries| then Result(Val(MapV(values)), st)
    else
      var r := RunExpr(h, e.entries[i].key, st);
      if !r.outcome.Val? then r else
      var s := RunExpr(h, e.entries[i].item, r.st);
      if !s.outcome.Val? then s else RunEntries(h, e, i + 1, values + [(r.outcome.v, s.outcome.v)], s.st)
  }

  function RunElse(h: Answers, otherwise: Else, st: State): Result
    decreases otherwise, 0, 0
  {
    match otherwise
    case NoElse => Result(Val(UnitV), st)
    case ElseBlock(block) => RunBlock(h, block, 0, st)
    case ElseIf(expr) => RunExpr(h, expr, st)
  }

  /** The first arm whose pattern fits runs; there must be one. */
  function RunArms(h: Answers, arms: Arms, v: Value, st: State): Result
    decreases arms, 0, 0
  {
    match arms
    case NoArms => Result(Failed(NoMatchingArm), st)
    case Arm(pattern, body, rest) =>
      var matched := MatchPattern(pattern, v, st);
      if matched.Some? then RunElse(h, body, matched.value) else RunArms(h, rest, v, st)
  }

  function RunBlock(h: Answers, b: Block, i: nat, st: State): Result
    requires i <= |b.stmts|
    decreases b, 0, |b.stmts| - i
  {
    if i == |b.stmts| then
      if b.final.None? then Result(Val(UnitV), st) else RunExpr(h, b.final.value, st)
    else
      var r := RunStmt(h, b.stmts[i], st);
      if !r.outcome.Val? then r else RunBlock(h, b, i + 1, r.st)
  }

  function RunStmt(h: Answers, s: Stmt, st: State): Result
    decreases s, 1, 0
  {
    match s
    case Bind(x, init) =>
      var r := RunExpr(h, init, st);
      if !r.outcome.Val? then r else Result(Val(UnitV), Write(r.st, x, r.outcome.v))
    case Assign(x, init) =>
      var r := RunExpr(h, init, st);
      if !r.outcome.Val? then r
      else if x !in r.st.env then Result(Failed(UnboundName), r.st)
      else Result(Val(UnitV), Write(r.st, x, r.outcome.v))
    case Discard(init) => RunExpr(h, init, st)
    case ExitWith(exit, result) =>
      if result.None? then Result(Left(exit, UnitV), st)
      else
        var r := RunExpr(h, result.value, st);
        if !r.outcome.Val? then r else Result(Left(exit, r.outcome.v), r.st)
    case Break => Result(Broke, st)
    case Continue => Result(Continued, st)
    case While(_, limit, _) =>
      if LoopIterations(limit).None? then Result(LimitFault(limit), st)
      else RunWhile(h, s, 0, LoopIterations(limit).value, st)
    case For(_, iter, limit, _) =>
      if LoopIterations(limit).None? then Result(LimitFault(limit), st)
      else
        var r := RunExpr(h, iter, st);
        (match r.outcome
         case Val(v) =>
           if IterationSource(v).None? then Result(Failed(NotIterable), r.st)
           else RunFor(h, s, IterationSource(v).value, 0, LoopIterations(limit).value, r.st)
         case Broke => Result(Val(UnitV), r.st)
         case Continued => Result(Failed(NotIterable), r.st)
         case _ => r)
    case IfStmt(cond, consequence, otherwise) =>
      var r := RunExpr(h, cond, st);
      if !r.outcome.Val? then r
      else if !r.outcome.v.BoolV? then Result(Failed(NotBoolean), r.st)
      else if r.outcome.v.b then RunBlock(h, consequence, 0, r.st)
      else RunElse(h, otherwise, r.st)
    case MatchStmt(scrutinee, arms) =>
      var r := RunExpr(h, scrutinee, st);
      if !r.outcome.Val? then r else RunArms(h, arms, r.outcome.v, r.st)
  }

  /** At most `n` rounds. A break in the condition ends the loop itself; a continue there
      has no boolean to offer. */
  function RunWhile(h: Answers, s: Stmt, i: nat, n: nat, st: State): Result
    requires s.While? && i <= n
    decreases s, 0, n - i
  {
    if i == n then Result(Val(UnitV), st)
    else
      var r := RunExpr(h, s.cond, st);
      match r.outcome
      case Val(v) =>
        if !v.BoolV? then Result(Failed(NotBoolean), r.st)
        else if !v.b then Result(Val(UnitV), r.st)
        else
          var body := RunBlock(h, s.body, 0, r.st);
          (match body.outcome
           case Val(_) => RunWhile(h, s, i + 1, n, body.st)
           case Continued => RunWhile(h, s, i + 1, n, body.st)
           case Broke => Result(Val(UnitV), body.st)
           case _ => body)
      case Broke => Result(Val(UnitV), r.st)
      case Continued => Result(Failed(NotBoolean), r.st)
      case _ => r
  }

  /** One round per element, at most `n`. */
  function RunFor(h: Answers, s: Stmt, source: seq<Value>, i: nat, n: nat, st: State): Result
    requires s.For? && i <= n
    decreases s, 0, n - i
  {
    if i == n || i >= |source| then Result(Val(UnitV), st)
    else
      var body := RunBlock(h, s.body, 0, Write(st, s.x, source[i]));
      match body.outcome
      case Val(_) => RunFor(h, s, source, i + 1, n, body.st)
      case Continued => RunFor(h, s, source, i + 1, n, body.st)
      case Broke => Result(Val(UnitV), body.st)
      case _ => body
  }
}
