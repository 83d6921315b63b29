/** The evaluator the interpreter uses: every construct evaluates a part, saves the rest as
    a continuation frame when that part suspends, and resumes from the frame. */
module SuspendEval {
  import opened Language
  import opened DirectEval

  datatype Saved =
    | ListedElement(e: Expr, next: nat, values: seq<Value>)
    | RecordField(e: Expr, next: nat, pairs: seq<(nat, Value)>)
    | MapKey(e: Expr, index: nat, entries: seq<(Value, Value)>)
    | MapValue(e: Expr, index: nat, key: Value, entries: seq<(Value, Value)>)
    | ListConsHead(tail: Expr) | ListConsTail(head: Value)
    | RangeStart(end: Expr) | RangeEnd(start: Value)
    | IfExpr(consequence: Block, otherwise: Else) | MatchExpr(arms: Arms)
    | BindFrame(b: Block, next: nat, x: nat) | AssignFrame(b: Block, next: nat, x: nat)
    | ContinueBlock(b: Block, next: nat)
    | IfStmtFrame(b: Block, next: nat, consequence: Block, otherwise: Else)
    | MatchStmtFrame(b: Block, next: nat, arms: Arms)
    | ExitFrame(exit: Exit)
    | WhileLoop(s: Stmt, iteration: U32, limit: U32, afterBody: bool)
    | ForLoop(s: Stmt, source: Option<seq<Value>>, next: nat, rounds: nat)

  /** A loop that suspends has its iteration below its limit. */
  predicate WithinLimit(k: Saved) {
    k.WhileLoop? ==> k.iteration < k.limit
  }

  /** Saved frames: every frame of every run is one of these. */
  type Cont = k: Saved | WithinLimit(k) witness RangeEnd(UnitV)

  /** Work handed to the machine instead of being done on the spot. */
  datatype Todo = EvalExpr(e: Expr) | EvalBlock(b: Block, i: nat) | Asking(event: Event)

  /** A finished signal, or work with the frames waiting for it, innermost first. */
  datatype Signal = Done(outcome: Outcome) | Pending(todo: Todo, frames: seq<Cont>)

  datatype Res = Res(signal: Signal, st: State, tick: nat)

  predicate IsVal(r: Res) {
    r.signal.Done? && r.signal.outcome.Val?
  }

  function ValOf(r: Res): Value
    requires IsVal(r)
  {
    r.signal.outcome.v
  }

  /** A signal on its way out of the construct that saved `k`. */
  function Through(r: Res, k: Cont): Res {
    if r.signal.Pending? then r.(signal := Pending(r.signal.todo, r.signal.frames + [k])) else r
  }

  function Ends(outcome: Outcome, st: State, t: nat): Res {
    Res(Done(outcome), st, t)
  }

  function Remaining(count: nat, i: nat): nat {
    if i < count then count - i else 0
  }

  // ----------------------------------------------------------- expressions

  function Eval(h: Host, e: Expr, st: State, t: nat): Res
    decreases e, 2, 0
  {
    if h.suspends(t) then Res(Pending(EvalExpr(e), []), st, t + 1) else EvalFrame(h, e, st, t + 1)
  }

  function EvalFrame(h: Host, e: Expr, st: State, t: nat): Res
    decreases e, 1, 0
  {
    match e
    case Literal(v) => Ends(Val(v), st, t)
    case Path(x) => Ends(ReadPath(x, st), st, t)
    case Record(_) => ResumeFields(h, e, 0, [], st, t)
    case MapLiteral(_) => ResumeEntries(h, e, 0, [], st, t)
    case Cons(head, tail) =>
      var r := Eval(h, head, st, t);
      if IsVal(r) then ResumeConsHead(h, ValOf(r), tail, r.st, r.tick) else Through(r, ListConsHead(tail))
    case Range(start, end) =>
      var r := Eval(h, start, st, t);
      if IsVal(r) then ResumeRangeStart(h, ValOf(r), end, r.st, r.tick) else Through(r, RangeStart(end))
    case If(cond, consequence, otherwise) =>
      var r := Eval(h, cond, st, t);
      if !IsVal(r) then Through(r, IfExpr(consequence, otherwise))
      else if !ValOf(r).BoolV? then Ends(Failed(NotBoolean), r.st, r.tick)
      else if ValOf(r).b then Execute(h, consequence, 0, r.st, r.tick)
      else Branch(h, otherwise, r.st, r.tick)
    case Match(scrutinee, arms) =>
      var r := Eval(h, scrutinee, st, t);
      if IsVal(r) then MatchArms(h, arms, ValOf(r), r.st, r.tick) else Through(r, MatchExpr(arms))
    case _ => ResumeListed(h, e, 0, [], st, t)
  }

  function ResumeListed(h: Host, e: Expr, i: nat, values: seq<Value>, st: State, t: nat): Res
    decreases e, 0, Remaining(|Listed(e)|, i)
  {
    if !(e.Aggregate? || e.Perform? || e.Call?) then Ends(Failed(MissingFact), st, t)
    else if i < |Listed(e)| then
      var r := Eval(h, Listed(e)[i], st, t);
      if IsVal(r) then ResumeListed(h, e, i + 1, values + [ValOf(r)], r.st, r.tick)
      else Through(r, ListedElement(e, i + 1, values))
    else
      match FinishListed(e, values)
      case Built(outcome) => Ends(outcome, st, t)
      case Asks(event) => Res(Pending(Asking(event), []), st, t)
  }

  function ResumeFields(h: Host, e: Expr, i: nat, values: seq<(nat, Value)>, st: State, t: nat): Res
    decreases e, 0, if e.Record? then Remaining(|e.fields|, i) else 0
  {
    if !e.Record? then Ends(Failed(MissingFact), st, t)
    else if i < |e.fields| then
      match e.fields[i]
      case Shorthand(name, x) =>
        var read := ReadPath(x, st);
        if read.Val? then ResumeFields(h, e, i + 1, values + [(name, read.v)], st, t) else Ends(read, st, t)
      case Named(name, init) =>
        var r := Eval(h, init, st, t);
        if IsVal(r) then ResumeFields(h, e, i + 1, values + [(name, ValOf(r))], r.st, r.tick)
        else Through(r, RecordField(e, i + 1, values))
    else Ends(Val(RecordV(values)), st, t)
  }

  function ResumeEntries(h: Host, e: Expr, i: nat, values: seq<(Value, Value)>, st: State, t: nat): Res
    decreases e, 0, if e.MapLiteral? then 2 * Remaining(|e.entries|, i) else 0
  {
    if !e.MapLiteral? then Ends(Failed(MissingFact), st, t)
    else if i < |e.entries| then
      var r := Eval(h, e.entries[i].key, st, t);
      if IsVal(r) then ResumeMapKey(h, e, i, values, ValOf(r), r.st, r.tick) else Through(r, MapKey(e, i, values))
    else Ends(Val(MapV(values)), st, t)
  }

  function ResumeMapKey(h: Host, e: Expr, i: nat, values: seq<(Value, Value)>, key: Value, st: State, t: nat): Res
    decreases e, 0, if e.MapLiteral? && i < |e.entries| then 2 * Remaining(|e.entries|, i) - 1 else 0
  {
    if !e.MapLiteral? || i >= |e.entries| then Ends(Failed(MissingFact), st, t)
    else
      var r := Eval(h, e.entries[i].item, st, t);
      if IsVal(r) then ResumeEntries(h, e, i + 1, values + [(key, ValOf(r))], r.st, r.tick)
      else Through(r, MapValue(e, i, key, values))
  }

  function ResumeConsHead(h: Host, head: Value, tail: Expr, st: State, t: nat): Res
    decreases tail, 3, 0
  {
    var r := Eval(h, tail, st, t);
    if IsVal(r) then Ends(FinishCons(head, ValOf(r)), r.st, r.tick) else Through(r, ListConsTail(head))
  }

  function ResumeRangeStart(h: Host, start: Value, end: Expr, st: State, t: nat): Res
    decreases end, 3, 0
  {
    var r := Eval(h, end, st, t);
    if IsVal(r) then Ends(Val(RangeV(start, ValOf(r))), r.st, r.tick) else Through(r, RangeEnd(start))
  }

  function Branch(h: Host, otherwise: Else, st: State, t: nat): Res
    decreases otherwise, 0, 0
  {
    match otherwise
    case NoElse => Ends(Val(UnitV), st, t)
    case ElseBlock(block) => Execute(h, block, 0, st, t)
    case ElseIf(expr) => Eval(h, expr, st, t)
  }

  function MatchArms(h: Host, arms: Arms, v: Value, st: State, t: nat): Res
    decreases arms, 0, 0
  {
    match arms
    case NoArms => Ends(Failed(NoMatchingArm), st, t)
    case Arm(pattern, body, rest) =>
      var matched := MatchPattern(pattern, v, st);
      if matched.Some? then Branch(h, body, matched.value, t) else MatchArms(h, rest, v, st, t)
  }

  // ---------------------------------------------------------------- blocks

  function Execute(h: Host, b: Block, i: nat, st: State, t: nat): Res
    decreases b, 3 * Remaining(|b.stmts|, i) + 2, 0
  {
    if h.suspends(t) then Res(Pending(EvalBlock(b, i), []), st, t + 1) else BlockFrame(h, b, i, st, t + 1)
  }

  function BlockFrame(h: Host, b: Block, i: nat, st: State, t: nat): Res
    decreases b, 3 * Remaining(|b.stmts|, i) + 1, 0
  {
    if i >= |b.stmts| then
      if b.final.None? then Ends(Val(UnitV), st, t) else Eval(h, b.final.value, st, t)
    else
      match b.stmts[i]
      case Bind(x, init) =>
        var r := Eval(h, init, st, t);
        if IsVal(r) then BlockFrame(h, b, i + 1, Write(r.st, x, ValOf(r)), r.tick) else Through(r, BindFrame(b, i + 1, x))
      case Assign(x, init) =>
        var r := Eval(h, init, st, t);
        if !IsVal(r) then Through(r, AssignFrame(b, i + 1, x))
        else if x !in r.st.env then Ends(Failed(UnboundName), r.st, r.tick)
        else BlockFrame(h, b, i + 1, Write(r.st, x, ValOf(r)), r.tick)
      case Discard(init) =>
        var r := Eval(h, init, st, t);
        if IsVal(r) then BlockFrame(h, b, i + 1, r.st, r.tick) else Through(r, ContinueBlock(b, i + 1))
      case ExitWith(exit, result) =>
        if result.None? then Ends(Left(exit, UnitV), st, t)
        else
          var r := Eval(h, result.value, st, t);
          if IsVal(r) then Ends(Left(exit, ValOf(r)), r.st, r.tick) else Through(r, ExitFrame(exit))
      case Break => Ends(Broke, st, t)
      case Continue => Ends(Continued, st, t)
      case While(_, _, _) =>
        var r := StartWhile(h, b.stmts[i], st, t);
        if IsVal(r) then BlockFrame(h, b, i + 1, r.st, r.tick) else Through(r, ContinueBlock(b, i + 1))
      case For(_, _, _, _) =>
        var r := StartFor(h, b.stmts[i], st, t);
        if IsVal(r) then BlockFrame(h, b, i + 1, r.st, r.tick) else Through(r, ContinueBlock(b, i + 1))
      case IfStmt(cond, consequence, otherwise) =>
        var r := Eval(h, cond, st, t);
        if !IsVal(r) then Through(r, IfStmtFrame(b, i + 1, consequence, otherwise))
        else
          var s := if !ValOf(r).BoolV? then Ends(Failed(NotBoolean), r.st, r.tick)
                   else if ValOf(r).b then Execute(h, consequence, 0, r.st, r.tick)
                   else Branch(h, otherwise, r.st, r.tick);
          if IsVal(s) then Execute(h, b, i + 1, s.st, s.tick) else Through(s, ContinueBlock(b, i + 1))
      case MatchStmt(scrutinee, arms) =>
        var r := Eval(h, scrutinee, st, t);
        if !IsVal(r) then Through(r, MatchStmtFrame(b, i + 1, arms))
        else
          var s := MatchArms(h, arms, ValOf(r), r.st, r.tick);
          if IsVal(s) then Execute(h, b, i + 1, s.st, s.tick) else Through(s, ContinueBlock(b, i + 1))
  }

  // ----------------------------------------------------------------- loops

  function StartWhile(h: Host, s: Stmt, st: State, t: nat): Res
    requires s.While?
    decreases s, 1, 0
  {
    if LoopIterations(s.limit).None? then Ends(LimitFault(s.limit), st, t)
    else ContinueWhile(h, s, 0, LoopIterations(s.limit).value, st, t)
  }

  function ContinueWhile(h: Host, s: Stmt, i: U32, n: U32, st: State, t: nat): Res
    requires s.While?
    decreases s, 0, 2 * Remaining(n, i) + 1
  {
    if i >= n then Ends(Val(UnitV), st, t)
    else
      var r := Eval(h, s.cond, st, t);
      if IsVal(r) then WhileBody(h, s, ValOf(r), i, n, r.st, r.tick) else Through(r, WhileLoop(s, i, n, false))
  }

  function WhileBody(h: Host, s: Stmt, v: Value, i: U32, n: U32, st: State, t: nat): Res
    requires s.While? && i < n
    decreases s, 0, 2 * Remaining(n, i)
  {
    if !v.BoolV? then Ends(Failed(NotBoolean), st, t)
    else if !v.b then Ends(Val(UnitV), st, t)
    else
      var r := Execute(h, s.body, 0, st, t);
      if r.signal.Done? && (r.signal.outcome.Val? || r.signal.outcome.Continued?) then
        ContinueWhile(h, s, NextIteration(i), n, r.st, r.tick)
      else if r.signal.Done? && r.signal.outcome.Broke? then Ends(Val(UnitV), r.st, r.tick)
      else Through(r, WhileLoop(s, i, n, true))
  }

  function StartFor(h: Host, s: Stmt, st: State, t: nat): Res
    requires s.For?
    decreases s, 1, 0
  {
    if LoopIterations(s.limit).None? then Ends(LimitFault(s.limit), st, t)
    else
      var n := LoopIterations(s.limit).value;
      var r := Eval(h, s.iter, st, t);
      if !IsVal(r) then Through(r, ForLoop(s, None, 0, n))
      else if IterationSource(ValOf(r)).None? then Ends(Failed(NotIterable), r.st, r.tick)
      else ContinueFor(h, s, IterationSource(ValOf(r)).value, 0, n, r.st, r.tick)
  }

  function ContinueFor(h: Host, s: Stmt, source: seq<Value>, i: nat, n: nat, st: State, t: nat): Res
    requires s.For?
    decreases s, 0, Remaining(n, i)
  {
    if i >= n || i >= |source| then Ends(Val(UnitV), st, t)
    else
      var r := Execute(h, s.body, 0, Write(st, s.x, source[i]), t);
      if r.signal.Done? && (r.signal.outcome.Val? || r.signal.outcome.Continued?)
      then ContinueFor(h, s, source, i + 1, n, r.st, r.tick)
      else if r.signal.Done? && r.signal.outcome.Broke? then Ends(Val(UnitV), r.st, r.tick)
      else Through(r, ForLoop(s, Some(source), i + 1, n))
  }

  // --------------------------------------------------------------- machine

  function ResumeIf(h: Host, v: Value, consequence: Block, otherwise: Else, st: State, t: nat): Res
  {
    if !v.BoolV? then Ends(Failed(NotBoolean), st, t)
    else if v.b then Execute(h, consequence, 0, st, t)
    else Branch(h, otherwise, st, t)
  }

  /** The resume table: a frame receives the value it was waiting for. */
  function Resume(h: Host, k: Cont, v: Value, st: State, t: nat): Res {
    match k
    case ListedElement(e, next, values) => ResumeListed(h, e, next, values + [v], st, t)
    case RecordField(e, next, pairs) =>
      if e.Record? && 1 <= next <= |e.fields| && e.fields[next - 1].Named?
      then ResumeFields(h, e, next, pairs + [(e.fields[next - 1].name, v)], st, t)
      else Ends(Failed(MissingFact), st, t)
    case MapKey(e, index, entries) => ResumeMapKey(h, e, index, entries, v, st, t)
    case MapValue(e, index, key, entries) => ResumeEntries(h, e, index + 1, entries + [(key, v)], st, t)
    case ListConsHead(tail) => ResumeConsHead(h, v, tail, st, t)
    case ListConsTail(head) => Ends(FinishCons(head, v), st, t)
    case RangeStart(end) => ResumeRangeStart(h, v, end, st, t)
    case RangeEnd(start) => Ends(Val(RangeV(start, v)), st, t)
    case IfExpr(consequence, otherwise) => ResumeIf(h, v, consequence, otherwise, st, t)
    case MatchExpr(arms) => MatchArms(h, arms, v, st, t)
    case BindFrame(b, next, x) => Execute(h, b, next, Write(st, x, v), t)
    case AssignFrame(b, next, x) =>
      if x !in st.env then Ends(Failed(UnboundName), st, t) else Execute(h, b, next, Write(st, x, v), t)
    case ContinueBlock(b, next) => Execute(h, b, next, st, t)
    case IfStmtFrame(b, next, consequence, otherwise) =>
      AfterBranch(h, ResumeIf(h, v, consequence, otherwise, st, t), b, next)
    case MatchStmtFrame(b, next, arms) => AfterBranch(h, MatchArms(h, arms, v, st, t), b, next)
    case ExitFrame(exit) => Ends(Left(exit, v), st, t)
    case WhileLoop(s, i, n, afterBody) =>
      if !s.While? then Ends(Failed(MissingFact), st, t)
      else if afterBody then ContinueWhile(h, s, NextIteration(i), n, st, t)
      else WhileBody(h, s, v, i, n, st, t)
    case ForLoop(s, source, next, n) =>
      if !s.For? then Ends(Failed(MissingFact), st, t)
      else if source.Some? then ContinueFor(h, s, source.value, next, n, st, t)
      else if IterationSource(v).None? then Ends(Failed(NotIterable), st, t)
      else ContinueFor(h, s, IterationSource(v).value, next, n, st, t)
  }

  /** The branch of a conditional statement is done: on with the block. */
  function AfterBranch(h: Host, r: Res, b: Block, next: nat): Res {
    if IsVal(r) then Execute(h, b, next, r.st, r.tick) else Through(r, ContinueBlock(b, next))
  }

  predicate IsLoop(k: Cont) {
    k.WhileLoop? || k.ForLoop?
  }

  /** A finished outcome meets the frame on top of the stack. Only loops stop a break. */
  function Meet(h: Host, k: Cont, outcome: Outcome, st: State, t: nat): Res {
    match outcome
    case Val(v) => Resume(h, k, v, st, t)
    case Broke => Ends(if IsLoop(k) then Val(UnitV) else Broke, st, t)
    case Continued => if IsLoop(k) then Resume(h, k, UnitV, st, t) else Ends(Continued, st, t)
    case _ => Ends(outcome, st, t)
  }

  datatype Machine = Machine(signal: Signal, stack: seq<Cont>, st: State, tick: nat)

  function Start(r: Res, stack: seq<Cont>): Machine {
    Machine(r.signal, stack, r.st, r.tick)
  }

  /** Saved frames go onto the stack; the work is done, or the outcome meets the top frame. */
  function Step(h: Host, m: Machine): Machine {
    match m.signal
    case Pending(todo, frames) =>
      var stack := frames + m.stack;
      (match todo
       case EvalExpr(e) => Start(EvalFrame(h, e, m.st, m.tick), stack)
       case EvalBlock(b, i) => Start(BlockFrame(h, b, i, m.st, m.tick), stack)
       case Asking(event) =>
         var r := Request(h.answer, event, m.st);
         Machine(Done(r.outcome), stack, r.st, m.tick))
    case Done(outcome) =>
      if m.stack == [] then m else Start(Meet(h, m.stack[0], outcome, m.st, m.tick), m.stack[1..])
  }

  function Run(h: Host, m: Machine, n: nat): Machine
    decreases n
  {
    if n == 0 then m else Run(h, Step(h, m), n - 1)
  }
}
