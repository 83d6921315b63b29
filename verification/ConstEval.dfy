/** Constant globals: evaluation with a set of symbols being visited, against big-step
    derivations that know nothing of cycles. */
module ConstEval {
  datatype Option<T> = None | Some(value: T)

  datatype Fault = Cyclic | Other(code: nat)

  datatype Result<T> = Ok(value: T) | Err(fault: Fault)

  datatype Shape = TupleShape | ArrayShape | ListShape | SetShape

  datatype Value =
    | UnitV | BoolV(b: bool) | OpaqueV(id: nat)
    | SeqV(shape: Shape, items: seq<Value>)
    | MapV(entries: seq<(Value, Value)>)
    | RecordV(names: seq<nat>, fields: seq<Value>)
    | RangeV(start: Value, end: Value)

  /** Constructs that evaluate every operand, left to right. */
  datatype Op = MakeSeq(shape: Shape) | MakeMap | MakeRecord(names: seq<nat>) | MakeRange | MakeCons | Operator(code: nat)

  datatype Expr =
    | Literal(v: Value)
    | Global(symbol: nat)
    | Strict(op: Op, operands: seq<Expr>)
    | And(lhs: Expr, rhs: Expr)
    | Or(lhs: Expr, rhs: Expr)
    | Unsupported

  /** A result that is not the cycle fault. */
  type Plain = r: Result<Value> | r != Err(Cyclic) witness Ok(UnitV)

  /** Callables, handlers, resources and variants are values of their own; a constant has an
      initializer; an import alias names another symbol. */
  datatype Definition = Ready(r: Plain) | Constant(init: Expr) | Alias(target: nat)

  datatype Program = Program(definitions: map<nat, Definition>, operate: (nat, seq<Value>) -> Plain)

  const MissingSymbol: Fault := Other(0)
  const NotBoolean: Fault := Other(1)
  const NotList: Fault := Other(2)
  const NotConstant: Fault := Other(3)
  const Malformed: Fault := Other(4)

  function Apply(p: Program, op: Op, values: seq<Value>): Plain {
    match op
    case MakeSeq(shape) => Ok(if shape.TupleShape? && values == [] then UnitV else SeqV(shape, values))
    case MakeMap => Ok(MapV(seq(|values| / 2, i requires 0 <= i < |values| / 2 => (values[2 * i], values[2 * i + 1]))))
    case MakeRecord(names) => if |names| == |values| then Ok(RecordV(names, values)) else Err(Malformed)
    case MakeRange => if |values| == 2 then Ok(RangeV(values[0], values[1])) else Err(Malformed)
    case MakeCons =>
      if |values| != 2 then Err(Malformed)
      else if values[1].SeqV? && values[1].shape.ListShape? then Ok(SeqV(ListShape, [values[0]] + values[1].items))
      else Err(NotList)
    case Operator(code) => p.operate(code, values)
  }

  function AsBool(r: Result<Value>): Result<Value> {
    if r.Ok? && !r.value.BoolV? then Err(NotBoolean) else r
  }

  /** `and` stops at false and `or` at true; both sides must be booleans. */
  predicate Decides(e: Expr, left: Result<Value>)
    requires e.And? || e.Or?
  {
    AsBool(left).Err? || left.value.b == e.Or?
  }

  // ------------------------------------------------ evaluation with the check

  function Unvisited(p: Program, visiting: set<nat>): nat {
    |p.definitions.Keys - visiting|
  }

  lemma Visiting(p: Program, visiting: set<nat>, symbol: nat)
    requires symbol in p.definitions && symbol !in visiting
    ensures Unvisited(p, visiting + {symbol}) < Unvisited(p, visiting)
  {
    var before, after := p.definitions.Keys - visiting, p.definitions.Keys - (visiting + {symbol});
    assert before == after + {symbol};
  }

  function EvalSymbol(p: Program, symbol: nat, visiting: set<nat>): Result<Value>
    decreases Unvisited(p, visiting), 0, 0, 0, 0
  {
    if symbol in visiting then Err(Cyclic)
    else if symbol !in p.definitions then Err(MissingSymbol)
    else
      match p.definitions[symbol]
      case Ready(r) => r
      case Constant(init) => (Visiting(p, visiting, symbol); EvalExpr(p, init, visiting + {symbol}))
      case Alias(target) => (Visiting(p, visiting, symbol); EvalSymbol(p, target, visiting + {symbol}))
  }

  function EvalExpr(p: Program, e: Expr, visiting: set<nat>): Result<Value>
    decreases Unvisited(p, visiting), 1, e, 1, 0
  {
    match e
    case Literal(v) => Ok(v)
    case Global(symbol) => EvalSymbol(p, symbol, visiting)
    case Strict(op, operands) =>
      var values := EvalOperands(p, e, 0, visiting);
      if values.Err? then Err(values.fault) else Apply(p, op, values.value)
    case And(lhs, rhs) =>
      var left := EvalExpr(p, lhs, visiting);
      if Decides(e, left) then AsBool(left) else AsBool(EvalExpr(p, rhs, visiting))
    case Or(lhs, rhs) =>
      var left := EvalExpr(p, lhs, visiting);
      if Decides(e, left) then AsBool(left) else AsBool(EvalExpr(p, rhs, visiting))
    case Unsupported => Err(NotConstant)
  }

  /** The operands of `e` from the `i`th on; the first fault wins. */
  function EvalOperands(p: Program, e: Expr, i: nat, visiting: set<nat>): Result<seq<Value>>
    requires e.Strict? && i <= |e.operands|
    decreases Unvisited(p, visiting), 1, e, 0, |e.operands| - i
  {
    if i == |e.operands| then Ok([])
    else
      var first := EvalExpr(p, e.operands[i], visiting);
      if first.Err? then Err(first.fault)
      else
        var rest := EvalOperands(p, e, i + 1, visiting);
        if rest.Err? then rest else Ok([first.value] + rest.value)
  }

  // ------------------------------------------------------- what constructs give

  /** The operands of `e` from `i` on have these values. */
  ghost predicate OperandsAre(p: Program, e: Expr, visiting: set<nat>, values: seq<Value>)
    requires e.Strict?
  {
    |values| == |e.operands| && forall k | 0 <= k < |values| :: EvalExpr(p, e.operands[k], visiting) == Ok(values[k])
  }

  lemma {:induction false} OperandsGive(p: Program, e: Expr, i: nat, visiting: set<nat>, values: seq<Value>)
    requires e.Strict? && OperandsAre(p, e, visiting, values) && i <= |values|
    ensures EvalOperands(p, e, i, visiting) == Ok(values[i..])
    decreases |values| - i
  {
    hide EvalExpr;
    if i < |values| {
      OperandsGive(p, e, i + 1, visiting, values);
      assert [values[i]] + values[i + 1..] == values[i..];
    } else {
      assert values[i..] == [];
    }
  }

  /** Sequences, maps, records and ranges hold the values of their operands in order; the empty
      tuple is the unit value. */
  lemma ConstructsGive(p: Program, operands: seq<Expr>, visiting: set<nat>, values: seq<Value>)
    requires |values| == |operands| && forall k | 0 <= k < |values| :: EvalExpr(p, operands[k], visiting) == Ok(values[k])
    ensures forall shape :: EvalExpr(p, Strict(MakeSeq(shape), operands), visiting)
              == Ok(if shape == TupleShape && |operands| == 0 then UnitV else SeqV(shape, values))
    ensures forall names: seq<nat> | |names| == |operands| ::
              EvalExpr(p, Strict(MakeRecord(names), operands), visiting) == Ok(RecordV(names, values))
    ensures var r := EvalExpr(p, Strict(MakeMap, operands), visiting);
            && r.Ok? && r.value.MapV? && |r.value.entries| == |operands| / 2
            && forall k | 0 <= k < |operands| / 2 :: r.value.entries[k] == (values[2 * k], values[2 * k + 1])
    ensures |operands| == 2 ==> EvalExpr(p, Strict(MakeRange, operands), visiting) == Ok(RangeV(values[0], values[1]))
  {
    forall op: Op ensures EvalExpr(p, Strict(op, operands), visiting) == Apply(p, op, values) {
      StrictGives(p, op, operands, visiting, values);
    }
    hide EvalExpr;
  }

  lemma StrictGives(p: Program, op: Op, operands: seq<Expr>, visiting: set<nat>, values: seq<Value>)
    requires OperandsAre(p, Strict(op, operands), visiting, values)
    ensures EvalExpr(p, Strict(op, operands), visiting) == Apply(p, op, values)
  {
    OperandsGive(p, Strict(op, operands), 0, visiting, values);
    assert values[0..] == values;
    hide EvalOperands, Apply;
  }

  /** Cons puts its first operand before the elements of its second, which must be a list. */
  lemma ConsGives(p: Program, head: Expr, tail: Expr, visiting: set<nat>, first: Value, second: Value)
    requires EvalExpr(p, head, visiting) == Ok(first) && EvalExpr(p, tail, visiting) == Ok(second)
    ensures var r := EvalExpr(p, Strict(MakeCons, [head, tail]), visiting);
            if second.SeqV? && second.shape == ListShape
            then && r.Ok? && r.value.SeqV? && r.value.shape == ListShape && |r.value.items| == 1 + |second.items|
                 && r.value.items[0] == first && r.value.items[1..] == second.items
            else r == Err(NotList)
  {
    var e := Strict(MakeCons, [head, tail]);
    OperandsGive(p, e, 0, visiting, [first, second]);
    assert [first, second][0..] == [first, second];
    hide EvalOperands;
  }

  /** The first operand that faults decides. */
  lemma {:induction false} FirstFaultWins(p: Program, op: Op, operands: seq<Expr>, i: nat, j: nat, visiting: set<nat>)
    requires i <= j < |operands| && EvalExpr(p, operands[j], visiting).Err?
    requires forall k | i <= k < j :: EvalExpr(p, operands[k], visiting).Ok?
    ensures EvalOperands(p, Strict(op, operands), i, visiting) == Err(EvalExpr(p, operands[j], visiting).fault)
    ensures i == 0 ==> EvalExpr(p, Strict(op, operands), visiting) == Err(EvalExpr(p, operands[j], visiting).fault)
    decreases j - i
  {
    if i < j {
      FirstFaultWins(p, op, operands, i + 1, j, visiting);
    }
  }

  /** The truth tables of `and` and `or`, which look at the right side only when the left does
      not decide and take nothing but booleans. */
  lemma LogicTables(p: Program, lhs: Expr, rhs: Expr, visiting: set<nat>)
    ensures var l, r := EvalExpr(p, lhs, visiting), EvalExpr(p, rhs, visiting);
            var both, either := EvalExpr(p, And(lhs, rhs), visiting), EvalExpr(p, Or(lhs, rhs), visiting);
            && (forall a, b | l == Ok(BoolV(a)) && r == Ok(BoolV(b)) :: both == Ok(BoolV(a && b)) && either == Ok(BoolV(a || b)))
            && (l == Ok(BoolV(false)) ==> both == l) && (l == Ok(BoolV(true)) ==> either == l)
            && (l.Err? ==> both == l && either == l)
            && (l.Ok? && !l.value.BoolV? ==> both == Err(NotBoolean) && either == Err(NotBoolean))
            && (l == Ok(BoolV(true)) && (r.Err? || !r.value.BoolV?) ==> both == if r.Err? then r else Err(NotBoolean))
            && (l == Ok(BoolV(false)) && (r.Err? || !r.value.BoolV?) ==> either == if r.Err? then r else Err(NotBoolean))
  {
  }

  // ------------------------------------------------------------ derivations

  /** The result of a derivation that unfolds at most `n` symbols on any path, if there is one. */
  function DeriveSymbol(n: nat, p: Program, symbol: nat): Option<Result<Value>>
    decreases n, 0, 0, 0, 0
  {
    if symbol !in p.definitions then Some(Err(MissingSymbol))
    else if n == 0 then None
    else
      match p.definitions[symbol]
      case Ready(r) => Some(r)
      case Constant(init) => Derive(n - 1, p, init)
      case Alias(target) => DeriveSymbol(n - 1, p, target)
  }

  function Derive(n: nat, p: Program, e: Expr): Option<Result<Value>>
    decreases n, 1, e, 1, 0
  {
    match e
    case Literal(v) => Some(Ok(v))
    case Global(symbol) => DeriveSymbol(n, p, symbol)
    case Strict(op, operands) =>
      var values := DeriveOperands(n, p, e, 0);
      if values.None? then None
      else if values.value.Err? then Some(Err(values.value.fault))
      else Some(Apply(p, op, values.value.value))
    case And(lhs, rhs) => DeriveLogical(n, p, e, Derive(n, p, lhs), Derive(n, p, rhs))
    case Or(lhs, rhs) => DeriveLogical(n, p, e, Derive(n, p, lhs), Derive(n, p, rhs))
    case Unsupported => Some(Err(NotConstant))
  }

  /** The right side is consulted only when the left does not decide. */
  function DeriveLogical(n: nat, p: Program, e: Expr, left: Option<Result<Value>>, right: Option<Result<Value>>): Option<Result<Value>>
    requires e.And? || e.Or?
  {
    if left.None? then None
    else if Decides(e, left.value) then Some(AsBool(left.value))
    else if right.None? then None
    else Some(AsBool(right.value))
  }

  function DeriveOperands(n: nat, p: Program, e: Expr, i: nat): Option<Result<seq<Value>>>
    requires e.Strict? && i <= |e.operands|
    decreases n, 1, e, 0, |e.operands| - i
  {
    if i == |e.operands| then Some(Ok([]))
    else
      var first := Derive(n, p, e.operands[i]);
      if first.None? then None
      else if first.value.Err? then Some(Err(first.value.fault))
      else
        var rest := DeriveOperands(n, p, e, i + 1);
        if rest.None? || rest.value.Err? then rest else Some(Ok([first.value.value] + rest.value.value))
  }

  // -------------------------------------------------------- more fuel

  lemma {:induction false} SymbolMoreFuel(n: nat, m: nat, p: Program, symbol: nat)
    requires n <= m && DeriveSymbol(n, p, symbol).Some?
    ensures DeriveSymbol(m, p, symbol) == DeriveSymbol(n, p, symbol)
    decreases n, 0, 0, 0, 0
  {
    if symbol in p.definitions {
      match p.definitions[symbol]
      case Ready(_) =>
      case Constant(init) => MoreFuel(n - 1, m - 1, p, init);
      case Alias(target) => SymbolMoreFuel(n - 1, m - 1, p, target);
    }
  }

  lemma {:induction false} MoreFuel(n: nat, m: nat, p: Program, e: Expr)
    requires n <= m && Derive(n, p, e).Some?
    ensures Derive(m, p, e) == Derive(n, p, e)
    decreases n, 1, e, 1, 0
  {
    match e
    case Literal(_) =>
    case Global(symbol) => SymbolMoreFuel(n, m, p, symbol);
    case Strict(_, _) => OperandsMoreFuel(n, m, p, e, 0);
    case And(lhs, rhs) =>
      MoreFuel(n, m, p, lhs);
      if Derive(n, p, rhs).Some? {
        MoreFuel(n, m, p, rhs);
      }
    case Or(lhs, rhs) =>
      MoreFuel(n, m, p, lhs);
      if Derive(n, p, rhs).Some? {
        MoreFuel(n, m, p, rhs);
      }
    case Unsupported =>
  }

  lemma {:induction false} OperandsMoreFuel(n: nat, m: nat, p: Program, e: Expr, i: nat)
    requires e.Strict? && i <= |e.operands|
    requires n <= m && DeriveOperands(n, p, e, i).Some?
    ensures DeriveOperands(m, p, e, i) == DeriveOperands(n, p, e, i)
    decreases n, 1, e, 0, |e.operands| - i
  {
    if i < |e.operands| {
      MoreFuel(n, m, p, e.operands[i]);
      if Derive(n, p, e.operands[i]).value.Ok? {
        OperandsMoreFuel(n, m, p, e, i + 1);
      }
    }
  }

  // ------------------------------------- the check never rejects a derivation

  /** No symbol being visited has a derivation within `n`. */
  ghost predicate Avoids(n: nat, p: Program, visiting: set<nat>) {
    forall symbol <- visiting :: DeriveSymbol(n, p, symbol).None?
  }

  /** The least bound at which a symbol has a derivation. */
  lemma {:induction false} LeastFuel(n: nat, p: Program, symbol: nat) returns (m: nat)
    requires DeriveSymbol(n, p, symbol).Some?
    ensures m <= n && DeriveSymbol(m, p, symbol) == DeriveSymbol(n, p, symbol)
    ensures forall k: nat :: k < m ==> DeriveSymbol(k, p, symbol).None?
  {
    m := n;
    while m > 0 && DeriveSymbol(m - 1, p, symbol).Some?
      invariant m <= n && DeriveSymbol(m, p, symbol) == DeriveSymbol(n, p, symbol)
    {
      SymbolMoreFuel(m - 1, m, p, symbol);
      m := m - 1;
    }
    forall k: nat | k < m ensures DeriveSymbol(k, p, symbol).None? {
      if DeriveSymbol(k, p, symbol).Some? {
        SymbolMoreFuel(k, m - 1, p, symbol);
      }
    }
  }

  lemma FewerAvoids(n: nat, m: nat, p: Program, visiting: set<nat>)
    requires m <= n && Avoids(n, p, visiting)
    ensures Avoids(m, p, visiting)
  {
    forall symbol | symbol in visiting ensures DeriveSymbol(m, p, symbol).None? {
      if DeriveSymbol(m, p, symbol).Some? {
        SymbolMoreFuel(m, n, p, symbol);
      }
    }
  }

  lemma {:induction false} SymbolAccepted(n: nat, p: Program, symbol: nat, visiting: set<nat>)
    requires Avoids(n, p, visiting) && DeriveSymbol(n, p, symbol).Some?
    ensures EvalSymbol(p, symbol, visiting) == DeriveSymbol(n, p, symbol).value
    decreases n, 0, 0, 0, 0
  {
    assert symbol !in visiting;
    if symbol in p.definitions && !p.definitions[symbol].Ready? {
      var m := LeastFuel(n, p, symbol);
      FewerAvoids(n, m - 1, p, visiting);
      assert Avoids(m - 1, p, visiting + {symbol});
      match p.definitions[symbol]
      case Constant(init) => Accepted(m - 1, p, init, visiting + {symbol});
      case Alias(target) => SymbolAccepted(m - 1, p, target, visiting + {symbol});
    }
  }

  lemma {:induction false} Accepted(n: nat, p: Program, e: Expr, visiting: set<nat>)
    requires Avoids(n, p, visiting) && Derive(n, p, e).Some?
    ensures EvalExpr(p, e, visiting) == Derive(n, p, e).value
    decreases n, 1, e, 1, 0
  {
    match e
    case Literal(_) =>
    case Global(symbol) => SymbolAccepted(n, p, symbol, visiting);
    case Strict(_, _) => OperandsAccepted(n, p, e, 0, visiting);
    case And(lhs, rhs) =>
      Accepted(n, p, lhs, visiting);
      if Derive(n, p, rhs).Some? {
        Accepted(n, p, rhs, visiting);
      }
    case Or(lhs, rhs) =>
      Accepted(n, p, lhs, visiting);
      if Derive(n, p, rhs).Some? {
        Accepted(n, p, rhs, visiting);
      }
    case Unsupported =>
  }

  lemma {:induction false} OperandsAccepted(n: nat, p: Program, e: Expr, i: nat, visiting: set<nat>)
    requires e.Strict? && i <= |e.operands|
    requires Avoids(n, p, visiting) && DeriveOperands(n, p, e, i).Some?
    ensures EvalOperands(p, e, i, visiting) == DeriveOperands(n, p, e, i).value
    decreases n, 1, e, 0, |e.operands| - i
  {
    if i < |e.operands| {
      Accepted(n, p, e.operands[i], visiting);
      if Derive(n, p, e.operands[i]).value.Ok? {
        OperandsAccepted(n, p, e, i + 1, visiting);
      }
    }
  }

  // ------------------------------- an answer without a cycle has a derivation

  lemma {:induction false} SymbolDerivable(p: Program, symbol: nat, visiting: set<nat>) returns (n: nat)
    requires EvalSymbol(p, symbol, visiting) != Err(Cyclic)
    ensures DeriveSymbol(n, p, symbol) == Some(EvalSymbol(p, symbol, visiting))
    decreases Unvisited(p, visiting), 0, 0, 0, 0
  {
    n := 1;
    if symbol in p.definitions && !p.definitions[symbol].Ready? {
      Visiting(p, visiting, symbol);
      match p.definitions[symbol]
      case Constant(init) =>
        var m := Derivable(p, init, visiting + {symbol});
        n := m + 1;
      case Alias(target) =>
        var m := SymbolDerivable(p, target, visiting + {symbol});
        n := m + 1;
    }
  }

  lemma {:induction false} Derivable(p: Program, e: Expr, visiting: set<nat>) returns (n: nat)
    requires EvalExpr(p, e, visiting) != Err(Cyclic)
    ensures Derive(n, p, e) == Some(EvalExpr(p, e, visiting))
    decreases Unvisited(p, visiting), 1, e, 1, 0
  {
    match e
    case Literal(_) => n := 0;
    case Global(symbol) => n := SymbolDerivable(p, symbol, visiting);
    case Strict(_, _) => n := OperandsDerivable(p, e, 0, visiting);
    case And(lhs, rhs) => n := LogicalDerivable(p, e, visiting);
    case Or(lhs, rhs) => n := LogicalDerivable(p, e, visiting);
    case Unsupported => n := 0;
  }

  lemma {:induction false} LogicalDerivable(p: Program, e: Expr, visiting: set<nat>) returns (n: nat)
    requires (e.And? || e.Or?) && EvalExpr(p, e, visiting) != Err(Cyclic)
    ensures Derive(n, p, e) == Some(EvalExpr(p, e, visiting))
    decreases Unvisited(p, visiting), 1, e, 0, 0
  {
    n := Derivable(p, e.lhs, visiting);
    if !Decides(e, EvalExpr(p, e.lhs, visiting)) {
      var m := Derivable(p, e.rhs, visiting);
      var most := if n < m then m else n;
      MoreFuel(n, most, p, e.lhs);
      MoreFuel(m, most, p, e.rhs);
      n := most;
    }
  }

  lemma {:induction false} OperandsDerivable(p: Program, e: Expr, i: nat, visiting: set<nat>) returns (n: nat)
    requires e.Strict? && i <= |e.operands|
    requires EvalOperands(p, e, i, visiting) != Err(Cyclic)
    ensures DeriveOperands(n, p, e, i) == Some(EvalOperands(p, e, i, visiting))
    decreases Unvisited(p, visiting), 1, e, 0, |e.operands| - i
  {
    n := 0;
    if i < |e.operands| {
      n := Derivable(p, e.operands[i], visiting);
      if EvalExpr(p, e.operands[i], visiting).Ok? {
        var m := OperandsDerivable(p, e, i + 1, visiting);
        var most := if n < m then m else n;
        MoreFuel(n, most, p, e.operands[i]);
        OperandsMoreFuel(m, most, p, e, i + 1);
        n := most;
      }
    }
  }

  // ---------------------------------------------------------- main results

  /** With nothing being visited, an expression evaluates to a value or an ordinary fault
      exactly when a finite derivation gives it. */
  lemma EvaluatesExactly(p: Program, e: Expr, r: Result<Value>)
    requires r != Err(Cyclic)
    ensures EvalExpr(p, e, {}) == r <==> exists n: nat :: Derive(n, p, e) == Some(r)
  {
    if EvalExpr(p, e, {}) == r {
      var n := Derivable(p, e, {});
    }
    if n: nat :| Derive(n, p, e) == Some(r) {
      Accepted(n, p, e, {});
    }
  }

  /** The cycle fault is reported exactly when there is no finite derivation. */
  lemma CyclicExactly(p: Program, symbol: nat)
    ensures EvalSymbol(p, symbol, {}) == Err(Cyclic) <==> forall n: nat :: DeriveSymbol(n, p, symbol).None?
  {
    if EvalSymbol(p, symbol, {}) != Err(Cyclic) {
      var n := SymbolDerivable(p, symbol, {});
    }
    if n: nat :| DeriveSymbol(n, p, symbol).Some? {
      SymbolAccepted(n, p, symbol, {});
      DerivedPlain(n, p, symbol);
    }
  }

  lemma {:induction false} DerivedPlain(n: nat, p: Program, symbol: nat)
    requires DeriveSymbol(n, p, symbol).Some?
    ensures DeriveSymbol(n, p, symbol).value != Err(Cyclic)
    decreases n, 0, 0, 0, 0
  {
    if symbol in p.definitions {
      match p.definitions[symbol]
      case Ready(_) =>
      case Constant(init) => DerivedExprPlain(n - 1, p, init);
      case Alias(target) => DerivedPlain(n - 1, p, target);
    }
  }

  lemma {:induction false} DerivedExprPlain(n: nat, p: Program, e: Expr)
    requires Derive(n, p, e).Some?
    ensures Derive(n, p, e).value != Err(Cyclic)
    decreases n, 1, e, 1, 0
  {
    match e
    case Literal(_) =>
    case Global(symbol) => DerivedPlain(n, p, symbol);
    case Strict(_, _) => DerivedOperandsPlain(n, p, e, 0);
    case And(lhs, rhs) =>
      DerivedExprPlain(n, p, lhs);
      if Derive(n, p, rhs).Some? {
        DerivedExprPlain(n, p, rhs);
      }
    case Or(lhs, rhs) =>
      DerivedExprPlain(n, p, lhs);
      if Derive(n, p, rhs).Some? {
        DerivedExprPlain(n, p, rhs);
      }
    case Unsupported =>
  }

  lemma {:induction false} DerivedOperandsPlain(n: nat, p: Program, e: Expr, i: nat)
    requires e.Strict? && i <= |e.operands| && DeriveOperands(n, p, e, i).Some?
    ensures DeriveOperands(n, p, e, i).value != Err(Cyclic)
    decreases n, 1, e, 0, |e.operands| - i
  {
    if i < |e.operands| {
      DerivedExprPlain(n, p, e.operands[i]);
      if Derive(n, p, e.operands[i]).value.Ok? {
        DerivedOperandsPlain(n, p, e, i + 1);
      }
    }
  }

  // -------------------------------------------------------- the evaluator

  function Prefixed(values: seq<Value>, rest: Result<seq<Value>>): (r: Result<seq<Value>>)
    ensures values == [] ==> r == rest
  {
    assert values == [] && rest.Ok? ==> values + rest.value == rest.value;
    if rest.Err? then rest else Ok(values + rest.value)
  }

  lemma PrefixedMore(p: Program, e: Expr, i: nat, visiting: set<nat>, values: seq<Value>)
    requires e.Strict? && i < |e.operands|
    ensures var first := EvalExpr(p, e.operands[i], visiting);
            Prefixed(values, EvalOperands(p, e, i, visiting))
            == if first.Err? then Err(first.fault)
               else Prefixed(values + [first.value], EvalOperands(p, e, i + 1, visiting))
  {
    var first := EvalExpr(p, e.operands[i], visiting);
    var rest := EvalOperands(p, e, i + 1, visiting);
    if first.Ok? && rest.Ok? {
      assert values + ([first.value] + rest.value) == values + [first.value] + rest.value;
    }
  }

  /** The recursion as the interpreter runs it: one visiting set, changed in place. */
  class Evaluator {
    const program: Program
    var visiting: set<nat>

    constructor (program: Program)
      ensures this.program == program && visiting == {}
    {
      this.program := program;
      visiting := {};
    }

    /** Enters the symbol, evaluates its definition, and leaves it on every path. */
    method EvalGlobalSymbol(symbol: nat) returns (r: Result<Value>)
      modifies this
      ensures visiting == old(visiting)
      ensures r == EvalSymbol(program, symbol, old(visiting))
      decreases Unvisited(program, visiting), 0, 0, 0, 0
    {
      if symbol in visiting {
        return Err(Cyclic);
      }
      ghost var before := visiting;
      if symbol in program.definitions {
        Visiting(program, visiting, symbol);
      }
      visiting := visiting + {symbol};
      if symbol !in program.definitions {
        r := Err(MissingSymbol);
      } else {
        match program.definitions[symbol] {
          case Ready(ready) => r := ready;
          case Constant(init) => r := EvalConstExpr(init);
          case Alias(target) => r := EvalGlobalSymbol(target);
        }
      }
      visiting := visiting - {symbol};
      assert visiting == before;
    }

    method EvalConstExpr(e: Expr) returns (r: Result<Value>)
      modifies this
      ensures visiting == old(visiting)
      ensures r == EvalExpr(program, e, old(visiting))
      decreases Unvisited(program, visiting), 1, e, 1, 0
    {
      match e {
        case Literal(v) => r := Ok(v);
        case Global(symbol) => r := EvalGlobalSymbol(symbol);
        case Strict(op, operands) =>
          var values: seq<Value> := [];
          var i := 0;
          while i < |operands|
            invariant 0 <= i <= |operands| && visiting == old(visiting)
            invariant EvalOperands(program, e, 0, visiting) == Prefixed(values, EvalOperands(program, e, i, visiting))
          {
            PrefixedMore(program, e, i, visiting, values);
            var next := EvalConstExpr(operands[i]);
            if next.Err? {
              return Err(next.fault);
            }
            values := values + [next.value];
            i := i + 1;
          }
          assert values + [] == values;
          r := Apply(program, op, values);
        case And(_, _) => r := EvalLogical(e);
        case Or(_, _) => r := EvalLogical(e);
        case Unsupported => r := Err(NotConstant);
      }
    }

    method EvalLogical(e: Expr) returns (r: Result<Value>)
      requires e.And? || e.Or?
      modifies this
      ensures visiting == old(visiting)
      ensures r == EvalExpr(program, e, old(visiting))
      decreases Unvisited(program, visiting), 1, e, 0, 0
    {
      var left := EvalConstExpr(e.lhs);
      if left.Ok? && !left.value.BoolV? {
        return Err(NotBoolean);
      }
      if left.Err? || left.value.b == e.Or? {
        return left;
      }
      var right := EvalConstExpr(e.rhs);
      return if right.Ok? && !right.value.BoolV? then Err(NotBoolean) else right;
    }
  }
}
