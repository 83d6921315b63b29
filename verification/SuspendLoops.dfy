/** The loops of the resume functions, in place: each pushes values until a part suspends,
    and computes the function that specifies it. */
module SuspendLoops {
  import opened Language
  import opened DirectEval
  import opened SuspendEval

  method ResumeExprSequence(h: Host, e: Expr, startIndex: nat, given: seq<Value>, st0: State, tick: nat) returns (r: Res)
    requires e.Aggregate? || e.Perform? || e.Call?
    ensures r == ResumeListed(h, e, startIndex, given, st0, tick)
  {
    var values, st, t, index := given, st0, tick, startIndex;
    while index < |Listed(e)|
      invariant ResumeListed(h, e, index, values, st, t) == ResumeListed(h, e, startIndex, given, st0, tick)
    {
      var element := Eval(h, Listed(e)[index], st, t);
      if !IsVal(element) {
        return Through(element, ListedElement(e, index + 1, values));
      }
      values, st, t := values + [ValOf(element)], element.st, element.tick;
      index := index + 1;
    }
    match FinishListed(e, values) {
      case Built(outcome) => return Ends(outcome, st, t);
      case Asks(event) => return Res(Pending(Asking(event), []), st, t);
    }
  }

  method ResumeRecordFields(h: Host, e: Expr, startIndex: nat, given: seq<(nat, Value)>, st0: State, tick: nat) returns (r: Res)
    requires e.Record?
    ensures r == ResumeFields(h, e, startIndex, given, st0, tick)
  {
    var values, st, t, index := given, st0, tick, startIndex;
    while index < |e.fields|
      invariant ResumeFields(h, e, index, values, st, t) == ResumeFields(h, e, startIndex, given, st0, tick)
    {
      match e.fields[index] {
        case Shorthand(name, x) =>
          var read := ReadPath(x, st);
          if !read.Val? {
            return Ends(read, st, t);
          }
          values := values + [(name, read.v)];
        case Named(name, init) =>
          var field := Eval(h, init, st, t);
          if !IsVal(field) {
            return Through(field, RecordField(e, index + 1, values));
          }
          values, st, t := values + [(name, ValOf(field))], field.st, field.tick;
      }
      index := index + 1;
    }
    return Ends(Val(RecordV(values)), st, t);
  }

  method ResumeMapEntries(h: Host, e: Expr, startIndex: nat, given: seq<(Value, Value)>, st0: State, tick: nat) returns (r: Res)
    requires e.MapLiteral?
    ensures r == ResumeEntries(h, e, startIndex, given, st0, tick)
  {
    var values, st, t, index := given, st0, tick, startIndex;
    while index < |e.entries|
      invariant ResumeEntries(h, e, index, values, st, t) == ResumeEntries(h, e, startIndex, given, st0, tick)
    {
      var key := Eval(h, e.entries[index].key, st, t);
      if !IsVal(key) {
        return Through(key, MapKey(e, index, values));
      }
      var item := Eval(h, e.entries[index].item, key.st, key.tick);
      if !IsVal(item) {
        return Through(item, MapValue(e, index, ValOf(key), values));
      }
      values, st, t := values + [(ValOf(key), ValOf(item))], item.st, item.tick;
      index := index + 1;
    }
    return Ends(Val(MapV(values)), st, t);
  }

  method ExecuteMatchArms(h: Host, arms: Arms, v: Value, st: State, tick: nat) returns (r: Res)
    ensures r == MatchArms(h, arms, v, st, tick)
  {
    var rest := arms;
    while rest.Arm?
      invariant MatchArms(h, rest, v, st, tick) == MatchArms(h, arms, v, st, tick)
      decreases rest
    {
      var matched := MatchPattern(rest.pattern, v, st);
      if matched.Some? {
        return Branch(h, rest.body, matched.value, tick);
      }
      rest := rest.rest;
    }
    return Ends(Failed(NoMatchingArm), st, tick);
  }

  method ContinueWhileLoop(h: Host, s: Stmt, start: U32, limit: U32, st0: State, tick: nat) returns (r: Res)
    requires s.While?
    ensures r == ContinueWhile(h, s, start, limit, st0, tick)
  {
    var iteration: U32, st, t := start, st0, tick;
    while iteration < limit
      invariant ContinueWhile(h, s, iteration, limit, st, t) == ContinueWhile(h, s, start, limit, st0, tick)
    {
      var cond := Eval(h, s.cond, st, t);
      if !IsVal(cond) {
        return Through(cond, WhileLoop(s, iteration, limit, false));
      }
      if !ValOf(cond).BoolV? {
        return Ends(Failed(NotBoolean), cond.st, cond.tick);
      }
      if !ValOf(cond).b {
        return Ends(Val(UnitV), cond.st, cond.tick);
      }
      var body := Execute(h, s.body, 0, cond.st, cond.tick);
      if body.signal.Pending? {
        return Through(body, WhileLoop(s, iteration, limit, true));
      }
      match body.signal.outcome {
        case Val(_) =>
        case Continued =>
        case Broke => return Ends(Val(UnitV), body.st, body.tick);
        case Left(_, _) => return body;
        case Failed(_) => return body;
      }
      iteration, st, t := iteration + 1, body.st, body.tick;
    }
    return Ends(Val(UnitV), st, t);
  }

  method ContinueForLoop(h: Host, s: Stmt, source: seq<Value>, nextIndex: nat, iterations: nat, st0: State, tick: nat) returns (r: Res)
    requires s.For?
    ensures r == ContinueFor(h, s, source, nextIndex, iterations, st0, tick)
  {
    var index, st, t := nextIndex, st0, tick;
    while index < iterations
      invariant ContinueFor(h, s, source, index, iterations, st, t) == ContinueFor(h, s, source, nextIndex, iterations, st0, tick)
    {
      if index >= |source| {
        break;
      }
      var value := source[index];
      index := index + 1;
      var body := Execute(h, s.body, 0, Write(st, s.x, value), t);
      if body.signal.Pending? {
        return Through(body, ForLoop(s, Some(source), index, iterations));
      }
      match body.signal.outcome {
        case Val(_) =>
        case Continued =>
        case Broke => return Ends(Val(UnitV), body.st, body.tick);
        case Left(_, _) => return body;
        case Failed(_) => return body;
      }
      st, t := body.st, body.tick;
    }
    return Ends(Val(UnitV), st, t);
  }
}
