/** Code whose breaks and continues stay inside it, and the loops that need such conditions. */
module ContainedCode {
  import opened Language
  import opened DirectEval

  // ------------------------------------------------------------ contained code

  /** No break or continue of `e` leaves `e`. */
  predicate ContainedExpr(e: Expr) {
    match e
    case Literal(_) => true
    case Path(_) => true
    case Aggregate(_, elems) => forall i | 0 <= i < |elems| :: ContainedExpr(elems[i])
    case Perform(_, elems) => forall i | 0 <= i < |elems| :: ContainedExpr(elems[i])
    case Call(_, _, elems) => forall i | 0 <= i < |elems| :: ContainedExpr(elems[i])
    case Record(fields) => forall i | 0 <= i < |fields| :: fields[i].Named? ==> ContainedExpr(fields[i].init)
    case MapLiteral(entries) =>
      forall i | 0 <= i < |entries| :: ContainedExpr(entries[i].key) && ContainedExpr(entries[i].item)
    case Cons(head, tail) => ContainedExpr(head) && ContainedExpr(tail)
    case Range(start, end) => ContainedExpr(start) && ContainedExpr(end)
    case If(cond, consequence, otherwise) =>
      ContainedExpr(cond) && ContainedBlock(consequence) && ContainedElse(otherwise)
    case Match(scrutinee, arms) => ContainedExpr(scrutinee) && ContainedArms(arms)
  }

  predicate ContainedElse(otherwise: Else) {
    match otherwise
    case NoElse => true
    case ElseBlock(block) => ContainedBlock(block)
    case ElseIf(expr) => ContainedExpr(expr)
  }

  predicate ContainedArms(arms: Arms) {
    arms.Arm? ==> ContainedElse(arms.body) && ContainedArms(arms.rest)
  }

  predicate ContainedBlock(b: Block) {
    && (forall i | 0 <= i < |b.stmts| :: ContainedStmt(b.stmts[i]))
    && (b.final.Some? ==> ContainedExpr(b.final.value))
  }

  predicate ContainedStmt(s: Stmt) {
    match s
    case Bind(_, init) => ContainedExpr(init)
    case Assign(_, init) => ContainedExpr(init)
    case Discard(init) => ContainedExpr(init)
    case ExitWith(_, result) => result.Some? ==> ContainedExpr(result.value)
    case Break => false
    case Continue => false
    case While(_, _, _) => true
    case For(_, _, _, _) => true
    case IfStmt(cond, consequence, otherwise) =>
      ContainedExpr(cond) && ContainedBlock(consequence) && ContainedElse(otherwise)
    case MatchStmt(scrutinee, arms) => ContainedExpr(scrutinee) && ContainedArms(arms)
  }

  /** Every loop inside has a contained condition or iterable. */
  predicate SteadyExpr(e: Expr) {
    match e
    case Literal(_) => true
    case Path(_) => true
    case Aggregate(_, elems) => forall i | 0 <= i < |elems| :: SteadyExpr(elems[i])
    case Perform(_, elems) => forall i | 0 <= i < |elems| :: SteadyExpr(elems[i])
    case Call(_, _, elems) => forall i | 0 <= i < |elems| :: SteadyExpr(elems[i])
    case Record(fields) => forall i | 0 <= i < |fields| :: fields[i].Named? ==> SteadyExpr(fields[i].init)
    case MapLiteral(entries) => forall i | 0 <= i < |entries| :: SteadyExpr(entries[i].key) && SteadyExpr(entries[i].item)
    case Cons(head, tail) => SteadyExpr(head) && SteadyExpr(tail)
    case Range(start, end) => SteadyExpr(start) && SteadyExpr(end)
    case If(cond, consequence, otherwise) => SteadyExpr(cond) && SteadyBlock(consequence) && SteadyElse(otherwise)
    case Match(scrutinee, arms) => SteadyExpr(scrutinee) && SteadyArms(arms)
  }

  predicate SteadyElse(otherwise: Else) {
    match otherwise
    case NoElse => true
    case ElseBlock(block) => SteadyBlock(block)
    case ElseIf(expr) => SteadyExpr(expr)
  }

  predicate SteadyArms(arms: Arms) {
    arms.Arm? ==> SteadyElse(arms.body) && SteadyArms(arms.rest)
  }

  predicate SteadyBlock(b: Block) {
    && (forall i | 0 <= i < |b.stmts| :: SteadyStmt(b.stmts[i]))
    && (b.final.Some? ==> SteadyExpr(b.final.value))
  }

  predicate SteadyStmt(s: Stmt) {
    match s
    case Bind(_, init) => SteadyExpr(init)
    case Assign(_, init) => SteadyExpr(init)
    case Discard(init) => SteadyExpr(init)
    case ExitWith(_, result) => result.Some? ==> SteadyExpr(result.value)
    case Break => true
    case Continue => true
    case While(cond, _, body) => ContainedExpr(cond) && SteadyExpr(cond) && SteadyBlock(body)
    case For(_, iter, _, body) => ContainedExpr(iter) && SteadyExpr(iter) && SteadyBlock(body)
    case IfStmt(cond, consequence, otherwise) => SteadyExpr(cond) && SteadyBlock(consequence) && SteadyElse(otherwise)
    case MatchStmt(scrutinee, arms) => SteadyExpr(scrutinee) && SteadyArms(arms)
  }

  /** The interpreter suspends at every subexpression. */
  ghost predicate AlwaysSuspends(h: Host) {
    forall t: nat :: h.suspends(t)
  }

  predicate Escapes(outcome: Outcome) {
    outcome.Broke? || outcome.Continued?
  }

  lemma {:induction false} WhileCatches(h: Answers, s: Stmt, i: nat, n: nat, st: State)
    requires s.While? && i <= n
    ensures !Escapes(RunWhile(h, s, i, n, st).outcome)
    decreases n - i
  {
    hide RunExpr, RunBlock;
    if i < n {
      var r := RunExpr(h, s.cond, st);
      if r.outcome.Val? && r.outcome.v.BoolV? && r.outcome.v.b {
        WhileCatches(h, s, i + 1, n, RunBlock(h, s.body, 0, r.st).st);
      }
    }
  }

  lemma {:induction false} ForCatches(h: Answers, s: Stmt, source: seq<Value>, i: nat, n: nat, st: State)
    requires s.For? && i <= n
    ensures !Escapes(RunFor(h, s, source, i, n, st).outcome)
    decreases n - i
  {
    hide RunBlock;
    if i < n && i < |source| {
      ForCatches(h, s, source, i + 1, n, RunBlock(h, s.body, 0, Write(st, s.x, source[i])).st);
    }
  }

  lemma {:induction false} ExprContains(h: Answers, e: Expr, st: State)
    requires ContainedExpr(e)
    ensures !Escapes(RunExpr(h, e, st).outcome)
    decreases e, 1, 0
  {
    hide RunListed, RunFields, RunEntries, RunArms, RunElse, RunBlock;
    match e
    case Literal(_) =>
    case Path(_) =>
    case Record(_) => FieldsContain(h, e, 0, [], st);
    case MapLiteral(_) => EntriesContain(h, e, 0, [], st);
    case Cons(head, tail) =>
      ExprContains(h, head, st);
      ExprContains(h, tail, RunExpr(h, head, st).st);
    case Range(start, end) =>
      ExprContains(h, start, st);
      ExprContains(h, end, RunExpr(h, start, st).st);
    case If(cond, consequence, otherwise) =>
      ExprContains(h, cond, st);
      BlockContains(h, consequence, 0, RunExpr(h, cond, st).st);
      ElseContains(h, otherwise, RunExpr(h, cond, st).st);
    case Match(scrutinee, arms) =>
      ExprContains(h, scrutinee, st);
      var r := RunExpr(h, scrutinee, st);
      if r.outcome.Val? {
        ArmsContain(h, arms, r.outcome.v, r.st);
      }
    case Aggregate(_, _) => ListedContain(h, e, 0, [], st);
    case Perform(_, _) => ListedContain(h, e, 0, [], st);
    case Call(_, _, _) => ListedContain(h, e, 0, [], st);
  }

  lemma {:induction false} ListedContain(h: Answers, e: Expr, i: nat, values: seq<Value>, st: State)
    requires (e.Aggregate? || e.Perform? || e.Call?) && i <= |Listed(e)| && ContainedExpr(e)
    ensures !Escapes(RunListed(h, e, i, values, st).outcome)
    decreases e, 0, |Listed(e)| - i
  {
    if i < |Listed(e)| {
      ExprContains(h, Listed(e)[i], st);
      var r := RunExpr(h, Listed(e)[i], st);
      if r.outcome.Val? {
        ListedContain(h, e, i + 1, values + [r.outcome.v], r.st);
      }
    }
  }

  lemma {:induction false} FieldsContain(h: Answers, e: Expr, i: nat, values: seq<(nat, Value)>, st: State)
    requires e.Record? && i <= |e.fields| && ContainedExpr(e)
    ensures !Escapes(RunFields(h, e, i, values, st).outcome)
    decreases e, 0, |e.fields| - i
  {
    if i < |e.fields| {
      var r := match e.fields[i]
        case Shorthand(_, x) => Result(ReadPath(x, st), st)
        case Named(_, init) => RunExpr(h, init, st);
      if e.fields[i].Named? {
        ExprContains(h, e.fields[i].init, st);
      }
      if r.outcome.Val? {
        FieldsContain(h, e, i + 1, values + [(e.fields[i].name, r.outcome.v)], r.st);
      }
    }
  }

  lemma {:induction false} EntriesContain(h: Answers, e: Expr, i: nat, values: seq<(Value, Value)>, st: State)
    requires e.MapLiteral? && i <= |e.entries| && ContainedExpr(e)
    ensures !Escapes(RunEntries(h, e, i, values, st).outcome)
    decreases e, 0, |e.entries| - i
  {
    if i < |e.entries| {
      ExprContains(h, e.entries[i].key, st);
      var r := RunExpr(h, e.entries[i].key, st);
      ExprContains(h, e.entries[i].item, r.st);
      var s := RunExpr(h, e.entries[i].item, r.st);
      if r.outcome.Val? && s.outcome.Val? {
        EntriesContain(h, e, i + 1, values + [(r.outcome.v, s.outcome.v)], s.st);
      }
    }
  }

  lemma {:induction false} ElseContains(h: Answers, otherwise: Else, st: State)
    requires ContainedElse(otherwise)
    ensures !Escapes(RunElse(h, otherwise, st).outcome)
    decreases otherwise, 0, 0
  {
    match otherwise
    case NoElse =>
    case ElseBlock(block) => BlockContains(h, block, 0, st);
    case ElseIf(expr) => ExprContains(h, expr, st);
  }

  lemma {:induction false} ArmsContain(h: Answers, arms: Arms, v: Value, st: State)
    requires ContainedArms(arms)
    ensures !Escapes(RunArms(h, arms, v, st).outcome)
    decreases arms, 0, 0
  {
    if arms.Arm? {
      var matched := MatchPattern(arms.pattern, v, st);
      if matched.Some? {
        ElseContains(h, arms.body, matched.value);
      } else {
        ArmsContain(h, arms.rest, v, st);
      }
    }
  }

  lemma {:induction false} BlockContains(h: Answers, b: Block, i: nat, st: State)
    requires i <= |b.stmts| && ContainedBlock(b)
    ensures !Escapes(RunBlock(h, b, i, st).outcome)
    decreases b, 0, |b.stmts| - i
  {
    if i == |b.stmts| {
      if b.final.Some? {
        ExprContains(h, b.final.value, st);
      }
    } else {
      StmtContains(h, b.stmts[i], st);
      BlockContains(h, b, i + 1, RunStmt(h, b.stmts[i], st).st);
    }
  }

  lemma {:induction false} StmtContains(h: Answers, s: Stmt, st: State)
    requires ContainedStmt(s)
    ensures !Escapes(RunStmt(h, s, st).outcome)
    decreases s, 1, 0
  {
    hide RunWhile, RunFor, RunArms, RunElse, RunBlock, RunExpr;
    match s
    case Bind(_, init) => ExprContains(h, init, st);
    case Assign(_, init) => ExprContains(h, init, st);
    case Discard(init) => ExprContains(h, init, st);
    case ExitWith(_, result) =>
      if result.Some? {
        ExprContains(h, result.value, st);
      }
    case Break =>
    case Continue =>
    case While(_, limit, _) =>
      if LoopIterations(limit).Some? {
        WhileCatches(h, s, 0, LoopIterations(limit).value, st);
      }
    case For(_, iter, limit, _) =>
      var r := RunExpr(h, iter, st);
      if LoopIterations(limit).Some? && r.outcome.Val? && IterationSource(r.outcome.v).Some? {
        ForCatches(h, s, IterationSource(r.outcome.v).value, 0, LoopIterations(limit).value, r.st);
      }
    case IfStmt(cond, consequence, otherwise) =>
      ExprContains(h, cond, st);
      BlockContains(h, consequence, 0, RunExpr(h, cond, st).st);
      ElseContains(h, otherwise, RunExpr(h, cond, st).st);
    case MatchStmt(scrutinee, arms) =>
      ExprContains(h, scrutinee, st);
      var r := RunExpr(h, scrutinee, st);
      if r.outcome.Val? {
        ArmsContain(h, arms, r.outcome.v, r.st);
      }
  }
}
