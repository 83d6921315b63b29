/** The part of the source language whose evaluation suspends: expressions, statements and
    blocks, with the values they compute and the effects they request. */
module Language {
  datatype Option<T> = None | Some(value: T)

  datatype Shape = TupleShape | ArrayShape | ListShape | SetShape

  datatype Value =
    | UnitV | BoolV(b: bool) | IntV(n: int)
    | AggV(shape: Shape, items: seq<Value>)
    | RecordV(fields: seq<(nat, Value)>)
    | MapV(entries: seq<(Value, Value)>)
    | RangeV(start: Value, end: Value)

  /** Where a method call puts its receiver and its arguments in the parameter list. */
  datatype RawMethod = RawMethod(params: nat, receiver: Option<nat>, slots: seq<nat>)

  predicate InRange(m: RawMethod) {
    (m.receiver.Some? ==> m.receiver.value < m.params) && forall slot <- m.slots :: slot < m.params
  }

  type Method = m: RawMethod | InRange(m) witness RawMethod(0, None, [])

  datatype Exit = ReturnExit | ResumeExit | FinishExit

  datatype Expr =
    | Literal(v: Value)
    | Path(x: nat)
    | Aggregate(shape: Shape, elems: seq<Expr>)
    | Perform(action: nat, elems: seq<Expr>)
    | Call(target: nat, slots: Option<Method>, elems: seq<Expr>)
    | Record(fields: seq<Field>)
    | MapLiteral(entries: seq<Entry>)
    | Cons(head: Expr, tail: Expr)
    | Range(start: Expr, end: Expr)
    | If(cond: Expr, consequence: Block, otherwise: Else)
    | Match(scrutinee: Expr, arms: Arms)

  datatype Field = Shorthand(name: nat, x: nat) | Named(name: nat, init: Expr)

  datatype Entry = Entry(key: Expr, item: Expr)

  datatype Else = NoElse | ElseBlock(block: Block) | ElseIf(expr: Expr)

  datatype Pattern = Wildcard | Binding(x: nat) | Exactly(v: Value)

  datatype Arms = NoArms | Arm(pattern: Pattern, body: Else, rest: Arms)

  datatype Stmt =
    | Bind(x: nat, init: Expr)
    | Assign(x: nat, init: Expr)
    | Discard(init: Expr)
    | ExitWith(exit: Exit, result: Option<Expr>)
    | Break | Continue
    | While(cond: Expr, limit: Option<int>, body: Block)
    | For(x: nat, iter: Expr, limit: Option<int>, body: Block)
    | IfStmt(cond: Expr, consequence: Block, otherwise: Else)
    | MatchStmt(scrutinee: Expr, arms: Arms)

  datatype Block = Block(stmts: seq<Stmt>, final: Option<Expr>)

  datatype Fault =
    | UnboundName | NotBoolean | NotList | NotIterable | NoMatchingArm | BadArguments | NoIterationLimit | LimitTooLarge
    | MissingFact

  /** How an expression, statement or block ends. */
  datatype Outcome =
    | Val(v: Value) | Left(exit: Exit, v: Value) | Broke | Continued | Failed(fault: Fault)

  datatype Event = Performed(action: nat, args: seq<Value>) | Called(target: nat, args: seq<Value>)

  /** The slots every clone of a frame shares, and the requests made so far, in order. */
  datatype State = State(env: map<nat, Value>, trace: seq<Event>)

  /** The outside: it answers requests, and it decides at every evaluation whether the
      subexpression is evaluated on the spot or suspended. */
  datatype Host = Host(answer: Answers, suspends: nat -> bool)

  /** What comes back for a request, given all the requests before it. */
  type Answers = (seq<Event>, Event) -> Value

  datatype Result = Result(outcome: Outcome, st: State)

  // ----------------------------------------------------- shared small steps

  const U32Max: nat := 0xffff_ffff

  type U32 = n: nat | n <= U32Max

  /** Loop counters are `u32` and the next iteration is a saturating add. */
  function NextIteration(i: U32): U32 {
    if i >= U32Max then U32Max else i + 1
  }

  /** An iteration limit below one still allows one iteration. */
  function LoopIterations(limit: Option<int>): Option<U32> {
    if limit.None? || (if limit.value < 1 then 1 else limit.value) > U32Max then None
    else Some(if limit.value < 1 then 1 else limit.value)
  }

  function LimitFault(limit: Option<int>): Outcome {
    Failed(if limit.None? then NoIterationLimit else LimitTooLarge)
  }

  function ReadPath(x: nat, st: State): Outcome {
    if x in st.env then Val(st.env[x]) else Failed(UnboundName)
  }

  function Write(st: State, x: nat, v: Value): State {
    st.(env := st.env[x := v])
  }

  function MatchPattern(pattern: Pattern, v: Value, st: State): Option<State> {
    match pattern
    case Wildcard => Some(st)
    case Binding(x) => Some(Write(st, x, v))
    case Exactly(expected) => if v == expected then Some(st) else None
  }

  function FinishCons(head: Value, tail: Value): Outcome {
    if tail.AggV? && tail.shape.ListShape? then Val(AggV(ListShape, [head] + tail.items)) else Failed(NotList)
  }

  function IterationSource(v: Value): Option<seq<Value>> {
    if v.AggV? && (v.shape.ArrayShape? || v.shape.ListShape?) then Some(v.items) else None
  }

  function FinishAggregate(shape: Shape, values: seq<Value>): Value {
    if shape.TupleShape? && values == [] then UnitV else AggV(shape, values)
  }

  // --------------------------------------------------- method slot ordering

  /** The parameter positions, in the order in which values arrive. */
  function Positions(m: Method): seq<nat> {
    (if m.receiver.Some? then [m.receiver.value] else []) + m.slots
  }

  /** The parameter list after the first `n` positions have been served. */
  function Placed(m: Method, values: seq<Value>, n: nat): (ordered: seq<Option<Value>>)
    requires n <= |Positions(m)|
    ensures |ordered| == m.params
  {
    if n == 0 then seq(m.params, _ => None)
    else
      var before := Placed(m, values, n - 1);
      assert Positions(m)[n - 1] < m.params by { PositionsInRange(m, n - 1); }
      before[Positions(m)[n - 1] := if n - 1 < |values| then Some(values[n - 1]) else None]
  }

  lemma PositionsInRange(m: Method, i: nat)
    requires i < |Positions(m)|
    ensures Positions(m)[i] < m.params
  {
    if m.receiver.None? || i > 0 {
      assert Positions(m)[i] in m.slots;
    }
  }

  /** All parameters filled and no value left over. */
  function OrderArguments(m: Method, values: seq<Value>): Option<seq<Value>> {
    var ordered := Placed(m, values, |Positions(m)|);
    if |values| <= |Positions(m)| && (forall i | 0 <= i < m.params :: ordered[i].Some?)
    then Some(seq(m.params, i requires 0 <= i < m.params => ordered[i].value))
    else None
  }

  predicate Distinct(positions: seq<nat>) {
    forall i, j | 0 <= i < j < |positions| :: positions[i] != positions[j]
  }

  /** One of the first `n` positions is parameter `p`. */
  predicate Fills(m: Method, n: nat, p: nat) {
    exists j :: 0 <= j < n && j < |Positions(m)| && Positions(m)[j] == p
  }

  lemma {:induction false} PlacedAt(m: Method, values: seq<Value>, n: nat, p: nat)
    requires n <= |Positions(m)| && p < m.params && Distinct(Positions(m))
    ensures Placed(m, values, n)[p].Some? <==> Fills(m, if n < |values| then n else |values|, p)
    ensures forall j | 0 <= j < n && j < |values| && Positions(m)[j] == p :: Placed(m, values, n)[p] == Some(values[j])
  {
    if n > 0 {
      PlacedAt(m, values, n - 1, p);
      PositionsInRange(m, n - 1);
    }
  }

  /** With distinct slots, arguments are accepted exactly when they fill every parameter,
      and then each value sits in the slot of its position. */
  lemma OrderedExactly(m: Method, values: seq<Value>)
    requires Distinct(Positions(m))
    ensures OrderArguments(m, values).Some? <==>
              |values| <= |Positions(m)| && forall p: nat | p < m.params :: Fills(m, |values|, p)
    ensures var r := OrderArguments(m, values);
            r.Some? ==> |r.value| == m.params
                        && forall j | 0 <= j < |values| :: Positions(m)[j] < m.params && r.value[Positions(m)[j]] == values[j]
  {
    var n := |Positions(m)|;
    var ordered := Placed(m, values, n);
    forall p: nat | p < m.params
      ensures |values| <= n ==> (ordered[p].Some? <==> Fills(m, |values|, p))
      ensures forall j | 0 <= j < n && j < |values| && Positions(m)[j] == p :: Placed(m, values, n)[p] == Some(values[j])
    {
      PlacedAt(m, values, n, p);
    }
    forall j | 0 <= j < |Positions(m)| ensures Positions(m)[j] < m.params {
      PositionsInRange(m, j);
    }
    if |values| <= n && forall p: nat | p < m.params :: Fills(m, |values|, p) {
      assert forall i | 0 <= i < m.params :: ordered[i].Some?;
    }
  }

  /** The two loops that fill the parameter list compute that order. */
  method FillSlots(m: Method, values: seq<Value>) returns (r: Option<seq<Value>>)
    ensures r == OrderArguments(m, values)
  {
    var ordered: seq<Option<Value>> := seq(m.params, _ => None);
    var source := 0;
    if m.receiver.Some? {
      assert Positions(m)[0] == m.receiver.value;
      ordered := ordered[m.receiver.value := if source < |values| then Some(values[source]) else None];
      source := 1;
    }
    var i := 0;
    while i < |m.slots|
      invariant 0 <= i <= |m.slots|
      invariant source == (if m.receiver.Some? then 1 else 0) + i <= |Positions(m)|
      invariant ordered == Placed(m, values, source)
    {
      assert Positions(m)[source] == m.slots[i] && m.slots[i] in m.slots;
      ordered := ordered[m.slots[i] := if source < |values| then Some(values[source]) else None];
      source := source + 1;
      i := i + 1;
    }
    if |values| > source {
      return None;
    }
    var filled: seq<Value> := [];
    var k := 0;
    while k < m.params
      invariant 0 <= k <= m.params && |filled| == k
      invariant forall j | 0 <= j < k :: ordered[j] == Some(filled[j])
    {
      if ordered[k].None? {
        return None;
      }
      filled := filled + [ordered[k].value];
      k := k + 1;
    }
    assert filled == seq(m.params, i requires 0 <= i < m.params => ordered[i].value);
    return Some(filled);
  }
}
