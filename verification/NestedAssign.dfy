/** Assignment into a nested place: validate the whole path first, then write in place. */
module NestedAssign {
  datatype Option<T> = None | Some(value: T)

  datatype Value =
    | Scalar(id: nat)
    | Record(fields: seq<(string, Value)>)
    | Array(items: seq<Value>)
    | List(items: seq<Value>)
    | Map(entries: seq<(Value, Value)>)
    | Nominal(ty: nat, inner: Value)

  datatype Segment = Field(name: string) | Index(i: nat) | Key(key: Value)

  datatype Fault =
    | NoSuchField | NotARecord | OutOfBounds | NotIndexed | NoSuchKey | NotAMap
    | NotMutable | MissingRoot | NotAnIndex | MissingComponent
    | Invalidated

  datatype Result<T> = Ok(value: T) | Err(fault: Fault)

  // ------------------------------------------------------------- one level

  function FieldAt(fields: seq<(string, Value)>, name: string): (i: nat)
    ensures i <= |fields|
    ensures i < |fields| ==> fields[i].0 == name
    ensures forall j | 0 <= j < i :: fields[j].0 != name
  {
    if fields == [] || fields[0].0 == name then 0 else 1 + FieldAt(fields[1..], name)
  }

  function KeyAt(entries: seq<(Value, Value)>, key: Value): (i: nat)
    ensures i <= |entries|
    ensures i < |entries| ==> entries[i].0 == key
    ensures forall j | 0 <= j < i :: entries[j].0 != key
  {
    if entries == [] || entries[0].0 == key then 0 else 1 + KeyAt(entries[1..], key)
  }

  /** The child a segment names, under nominal wrappers that have been peeled. */
  function Child(v: Value, s: Segment): (r: Option<Value>)
    ensures r.Some? ==> r.value < v
  {
    match (v, s)
    case (Record(fields), Field(name)) =>
      if FieldAt(fields, name) < |fields| then Some(fields[FieldAt(fields, name)].1) else None
    case (Array(items), Index(i)) => if i < |items| then Some(items[i]) else None
    case (List(items), Index(i)) => if i < |items| then Some(items[i]) else None
    case (Map(entries), Key(key)) => if KeyAt(entries, key) < |entries| then Some(entries[KeyAt(entries, key)].1) else None
    case _ => None
  }

  /** `v` with that child replaced; a missing map key is appended. */
  function WithChild(v: Value, s: Segment, child: Value): Value
    requires Child(v, s).Some? || (v.Map? && s.Key?)
  {
    match (v, s)
    case (Record(fields), Field(name)) => Record(fields[FieldAt(fields, name) := (name, child)])
    case (Array(items), Index(i)) => Array(items[i := child])
    case (List(items), Index(i)) => List(items[i := child])
    case (Map(entries), Key(key)) =>
      if KeyAt(entries, key) < |entries| then Map(entries[KeyAt(entries, key) := (key, child)])
      else Map(entries + [(key, child)])
  }

  function ChildFault(v: Value, s: Segment): Fault
    requires Child(v, s).None? && !v.Nominal?
  {
    match s
    case Field(_) => if v.Record? then NoSuchField else NotARecord
    case Index(_) => if v.Array? || v.List? then OutOfBounds else NotIndexed
    case Key(_) => if v.Map? then NoSuchKey else NotAMap
  }

  // --------------------------------------------------------------- lenses

  function Get(v: Value, path: seq<Segment>): Option<Value>
    decreases v
  {
    if path == [] then Some(v)
    else if v.Nominal? then Get(v.inner, path)
    else
      var child := Child(v, path[0]);
      if child.None? then None else Get(child.value, path[1..])
  }

  /** The fault of the first segment that does not fit, if there is one. A last map segment
      always fits: it inserts. */
  function Validate(v: Value, path: seq<Segment>): Option<Fault>
    decreases v
  {
    if path == [] then None
    else if v.Nominal? then Validate(v.inner, path)
    else if v.Map? && path[0].Key? && |path| == 1 then None
    else
      var child := Child(v, path[0]);
      if child.None? then Some(ChildFault(v, path[0])) else Validate(child.value, path[1..])
  }

  predicate Valid(v: Value, path: seq<Segment>) {
    Validate(v, path).None?
  }

  /** Functional update. The wrappers on the way are kept; the place itself is replaced whole. */
  function Put(v: Value, path: seq<Segment>, new_: Value): Value
    requires Valid(v, path)
    decreases v
  {
    if path == [] then new_
    else if v.Nominal? then Nominal(v.ty, Put(v.inner, path, new_))
    else if v.Map? && path[0].Key? && |path| == 1 then WithChild(v, path[0], new_)
    else WithChild(v, path[0], Put(Child(v, path[0]).value, path[1..], new_))
  }

  // ------------------------------------------------------------- in place

  /** Where a mutable cursor stands: the wrappers and siblings it has passed, innermost last. */
  datatype Step = Under(ty: nat) | Inside(parent: Value, segment: Segment)

  predicate GoodStep(step: Step) {
    step.Inside? ==> Child(step.parent, step.segment).Some?
  }

  /** What the root holds once `v` is written at the cursor. */
  function Plug(trail: seq<Step>, v: Value): Value
    requires forall step <- trail :: GoodStep(step)
    decreases |trail|
  {
    if trail == [] then v
    else
      var last := trail[|trail| - 1];
      assert last in trail && GoodStep(last);
      Plug(trail[..|trail| - 1], if last.Under? then Nominal(last.ty, v) else WithChild(last.parent, last.segment, v))
  }

  /** The preflight walk over a borrowed root. The last list index is only bounds-checked. */
  method ValidatePath(root: Value, segments: seq<Segment>) returns (fault: Option<Fault>)
    ensures fault == Validate(root, segments)
  {
    var current, position := root, 0;
    while position < |segments|
      invariant 0 <= position <= |segments|
      invariant Validate(current, segments[position..]) == Validate(root, segments)
      decreases current
    {
      assert segments[position..][1..] == segments[position + 1..];
      if current.Nominal? {
        current := current.inner;
      } else {
        var segment := segments[position];
        if segment.Index? && current.List? {
          if segment.i >= |current.items| {
            return Some(OutOfBounds);
          }
          if position + 1 == |segments| {
            return None;
          }
        } else if segment.Key? && current.Map? && position + 1 == |segments| {
          return None;
        }
        var child := Child(current, segment);
        if child.None? {
          return Some(ChildFault(current, segment));
        }
        current, position := child.value, position + 1;
      }
    }
    return None;
  }

  /** Validates, then moves the cursor down and writes once. `Invalidated` is the fault of a
      path that changed between the two walks; it never comes out. */
  method Commit(root: Value, segments: seq<Segment>, newValue: Value) returns (r: Result<Value>)
    ensures r == match Validate(root, segments)
                 case None => Ok(Put(root, segments, newValue))
                 case Some(fault) => Err(fault)
    ensures r != Err(Invalidated)
  {
    var fault := ValidatePath(root, segments);
    if fault.Some? {
      NeverInvalidated(root, segments);
      return Err(fault.value);
    }
    var current, rest, trail: seq<Step> := root, segments, [];
    while true
      invariant forall step <- trail :: GoodStep(step)
      invariant Valid(current, rest)
      invariant Plug(trail, Put(current, rest, newValue)) == Put(root, segments, newValue)
      decreases current
    {
      if rest == [] {
        return Ok(Plug(trail, newValue));
      }
      if current.Nominal? {
        PlugMore(trail, Under(current.ty), Put(current.inner, rest, newValue));
        trail, current := trail + [Under(current.ty)], current.inner;
      } else {
        var head, tail := rest[0], rest[1..];
        if head.Key? && current.Map? && tail == [] {
          return Ok(Plug(trail, WithChild(current, head, newValue)));
        }
        var child := Child(current, head);
        if child.None? {
          return Err(Invalidated);
        }
        PlugMore(trail, Inside(current, head), Put(child.value, tail, newValue));
        trail, current, rest := trail + [Inside(current, head)], child.value, tail;
      }
    }
  }

  lemma PlugMore(trail: seq<Step>, step: Step, v: Value)
    requires (forall s <- trail :: GoodStep(s)) && GoodStep(step)
    ensures forall s <- trail + [step] :: GoodStep(s)
    ensures Plug(trail + [step], v)
         == Plug(trail, if step.Under? then Nominal(step.ty, v) else WithChild(step.parent, step.segment, v))
  {
    assert (trail + [step])[..|trail|] == trail;
  }

  lemma {:induction false} NeverInvalidated(v: Value, path: seq<Segment>)
    ensures Validate(v, path) != Some(Invalidated)
    decreases v
  {
    if path != [] {
      if v.Nominal? {
        NeverInvalidated(v.inner, path);
      } else if Child(v, path[0]).Some? {
        NeverInvalidated(Child(v, path[0]).value, path[1..]);
      }
    }
  }

  /** A local variable: only a bound one can be assigned. */
  class LocalSlot {
    var bound: Option<Value>

    constructor (bound: Option<Value>)
      ensures this.bound == bound
    {
      this.bound := bound;
    }

    /** All or nothing: on a fault the slot holds what it held. */
    method AssignResolvedLocalPlace(segments: seq<Segment>, newValue: Value) returns (r: Result<()>)
      modifies this
      ensures r.Ok? <==> old(bound).Some? && Valid(old(bound).value, segments)
      ensures r.Ok? ==> bound == Some(Put(old(bound).value, segments, newValue))
      ensures r.Err? ==> bound == old(bound)
      ensures r.Err? && old(bound).Some? ==> Validate(old(bound).value, segments) == Some(r.fault)
    {
      if segments == [] {
        if bound.None? {
          return Err(NotMutable);
        }
        bound := Some(newValue);
        return Ok(());
      }
      if bound.None? {
        return Err(MissingRoot);
      }
      var committed := Commit(bound.value, segments, newValue);
      if committed.Err? {
        return Err(committed.fault);
      }
      bound := Some(committed.value);
      return Ok(());
    }
  }

  // ------------------------------------------------------------- lens laws

  lemma ChildReplaced(v: Value, s: Segment, child: Value)
    requires Child(v, s).Some? || (v.Map? && s.Key?)
    ensures Child(WithChild(v, s, child), s) == Some(child)
    ensures !WithChild(v, s, child).Nominal? && (WithChild(v, s, child).Map? <==> v.Map?)
  {
    match (v, s)
    case (Record(fields), Field(name)) =>
      FirstField(fields, WithChild(v, s, child).fields, name);
    case (Array(_), Index(_)) =>
    case (List(_), Index(_)) =>
    case (Map(entries), Key(key)) =>
      FirstKey(entries, WithChild(v, s, child).entries, key);
  }

  /** Positions depend on names alone, and the first match stays the first match. */
  lemma FirstField(before: seq<(string, Value)>, after: seq<(string, Value)>, name: string)
    requires |after| == |before| && forall i | 0 <= i < |before| :: after[i].0 == before[i].0
    ensures FieldAt(after, name) == FieldAt(before, name)
  {
  }

  lemma FirstKey(before: seq<(Value, Value)>, after: seq<(Value, Value)>, key: Value)
    requires |before| <= |after| <= |before| + 1 && forall i | 0 <= i < |before| :: after[i].0 == before[i].0
    requires KeyAt(before, key) < |before| || (|after| == |before| + 1 && after[|before|].0 == key)
    ensures KeyAt(after, key) == KeyAt(before, key)
  {
  }

  /** What was written is read back, also after an insertion. */
  lemma {:induction false} PutGet(v: Value, path: seq<Segment>, x: Value)
    requires Valid(v, path)
    ensures Get(Put(v, path, x), path) == Some(x)
    decreases v
  {
    if path != [] {
      if v.Nominal? {
        PutGet(v.inner, path, x);
      } else {
        var last := v.Map? && path[0].Key? && |path| == 1;
        if !last {
          PutGet(Child(v, path[0]).value, path[1..], x);
        }
        ChildReplaced(v, path[0], if last then x else Put(Child(v, path[0]).value, path[1..], x));
      }
    }
  }

  lemma {:induction false} ReadableIsValid(v: Value, path: seq<Segment>)
    requires Get(v, path).Some?
    ensures Valid(v, path)
    decreases v
  {
    if path != [] {
      if v.Nominal? {
        ReadableIsValid(v.inner, path);
      } else {
        ReadableIsValid(Child(v, path[0]).value, path[1..]);
      }
    }
  }

  /** Writing back what is there changes nothing. */
  lemma {:induction false} GetPut(v: Value, path: seq<Segment>)
    requires Get(v, path).Some?
    ensures Valid(v, path) && Put(v, path, Get(v, path).value) == v
    decreases v
  {
    ReadableIsValid(v, path);
    if path != [] {
      if v.Nominal? {
        GetPut(v.inner, path);
      } else {
        GetPut(Child(v, path[0]).value, path[1..]);
        SameChild(v, path[0]);
      }
    }
  }

  lemma SameChild(v: Value, s: Segment)
    requires Child(v, s).Some?
    ensures WithChild(v, s, Child(v, s).value) == v
  {
  }

  lemma ReplacedTwice(v: Value, s: Segment, a: Value, b: Value)
    requires Child(v, s).Some? || (v.Map? && s.Key?)
    ensures Child(WithChild(v, s, a), s).Some?
    ensures WithChild(WithChild(v, s, a), s, b) == WithChild(v, s, b)
  {
    ChildReplaced(v, s, a);
    match v
    case Record(fields) =>
      FirstField(fields, WithChild(v, s, a).fields, s.name);
      hide FieldAt, KeyAt;
    case Array(_) => hide FieldAt, KeyAt;
    case List(_) => hide FieldAt, KeyAt;
    case Map(_) => KeyReplacedTwice(v, s, a, b);
  }

  lemma KeyReplacedTwice(v: Value, s: Segment, a: Value, b: Value)
    requires v.Map? && s.Key?
    ensures WithChild(WithChild(v, s, a), s, b) == WithChild(v, s, b)
  {
    FirstKey(v.entries, WithChild(v, s, a).entries, s.key);
    hide KeyAt, FieldAt;
  }

  /** The last write wins. */
  lemma {:induction false} PutPut(v: Value, path: seq<Segment>, a: Value, b: Value)
    requires Valid(v, path)
    ensures Valid(Put(v, path, a), path) && Put(Put(v, path, a), path, b) == Put(v, path, b)
    decreases v
  {
    if path != [] {
      if v.Nominal? {
        PutPut(v.inner, path, a, b);
      } else {
        var last := v.Map? && path[0].Key? && |path| == 1;
        var child := if last then a else Put(Child(v, path[0]).value, path[1..], a);
        if !last {
          PutPut(Child(v, path[0]).value, path[1..], a, b);
        }
        ChildReplaced(v, path[0], child);
        ReplacedTwice(v, path[0], child, if last then b else Put(Child(v, path[0]).value, path[1..], b));
      }
    }
  }

  // --------------------------------------------------------- diverging paths

  /** The paths part at some segment, so neither place contains the other. */
  predicate Diverge(p: seq<Segment>, q: seq<Segment>) {
    p != [] && q != [] && (p[0] != q[0] || Diverge(p[1..], q[1..]))
  }

  lemma OtherChild(v: Value, s: Segment, t: Segment, child: Value)
    requires Child(v, s).Some? && Child(v, t).Some? && s != t
    ensures Child(WithChild(v, s, child), t) == Child(v, t)
    ensures !WithChild(v, s, child).Nominal? && (WithChild(v, s, child).Map? <==> v.Map?)
  {
    match (v, s)
    case (Record(fields), Field(_)) => FirstField(fields, WithChild(v, s, child).fields, t.name);
    case (Array(_), Index(_)) =>
    case (List(_), Index(_)) =>
    case (Map(entries), Key(_)) => FirstKey(entries, WithChild(v, s, child).entries, t.key);
  }

  lemma UpdatesCommute<T>(xs: seq<T>, i: nat, j: nat, a: T, b: T)
    requires i < |xs| && j < |xs| && i != j
    ensures xs[i := a][j := b] == xs[j := b][i := a]
  {
  }

  lemma ChildrenCommute(v: Value, s: Segment, t: Segment, a: Value, b: Value)
    requires Child(v, s).Some? && Child(v, t).Some? && s != t
    ensures Child(WithChild(v, s, a), t).Some? && Child(WithChild(v, t, b), s).Some?
    ensures WithChild(WithChild(v, s, a), t, b) == WithChild(WithChild(v, t, b), s, a)
  {
    OtherChild(v, s, t, a);
    OtherChild(v, t, s, b);
    match v
    case Record(fields) =>
      var i, j := FieldAt(fields, s.name), FieldAt(fields, t.name);
      FirstField(fields, fields[i := (s.name, a)], t.name);
      FirstField(fields, fields[j := (t.name, b)], s.name);
      hide FieldAt;
      UpdatesCommute(fields, i, j, (s.name, a), (t.name, b));
    case Array(items) => UpdatesCommute(items, s.i, t.i, a, b);
    case List(items) => UpdatesCommute(items, s.i, t.i, a, b);
    case Map(entries) =>
      var i, j := KeyAt(entries, s.key), KeyAt(entries, t.key);
      FirstKey(entries, entries[i := (s.key, a)], t.key);
      FirstKey(entries, entries[j := (t.key, b)], s.key);
      hide KeyAt;
      UpdatesCommute(entries, i, j, (s.key, a), (t.key, b));
  }

  /** One level of a write through an existing child. */
  lemma PutAt(v: Value, path: seq<Segment>, x: Value)
    requires path != [] && !v.Nominal? && Child(v, path[0]).Some? && Valid(Child(v, path[0]).value, path[1..])
    ensures Valid(v, path)
    ensures Put(v, path, x) == WithChild(v, path[0], Put(Child(v, path[0]).value, path[1..], x))
  {
  }

  /** A write leaves every place on a diverging path alone. */
  lemma {:induction false} PutElsewhere(v: Value, p: seq<Segment>, q: seq<Segment>, a: Value)
    requires Get(v, p).Some? && Get(v, q).Some? && Diverge(p, q)
    ensures Valid(v, p) && Get(Put(v, p, a), q) == Get(v, q)
    decreases v
  {
    ReadableIsValid(v, p);
    if v.Nominal? {
      PutElsewhere(v.inner, p, q, a);
    } else {
      var child := Put(Child(v, p[0]).value, p[1..], a);
      if p[0] == q[0] {
        PutElsewhere(Child(v, p[0]).value, p[1..], q[1..], a);
        ChildReplaced(v, p[0], child);
      } else {
        OtherChild(v, p[0], q[0], child);
      }
    }
  }

  /** Writes to diverging places that exist can be done in either order. */
  lemma {:induction false} PutsCommute(v: Value, p: seq<Segment>, q: seq<Segment>, a: Value, b: Value)
    requires Get(v, p).Some? && Get(v, q).Some? && Diverge(p, q)
    ensures Valid(v, p) && Valid(v, q) && Valid(Put(v, p, a), q) && Valid(Put(v, q, b), p)
    ensures Put(Put(v, p, a), q, b) == Put(Put(v, q, b), p, a)
    decreases v
  {
    ReadableIsValid(v, p);
    ReadableIsValid(v, q);
    DivergeBack(p, q);
    PutElsewhere(v, p, q, a);
    PutElsewhere(v, q, p, b);
    ReadableIsValid(Put(v, p, a), q);
    ReadableIsValid(Put(v, q, b), p);
    if v.Nominal? {
      PutsCommute(v.inner, p, q, a, b);
    } else if p[0] == q[0] {
      SameChildCommutes(v, p, q, a, b);
      PutsCommute(Child(v, p[0]).value, p[1..], q[1..], a, b);
    } else {
      OtherChildrenCommute(v, p, q, a, b);
    }
  }

  lemma SameChildCommutes(v: Value, p: seq<Segment>, q: seq<Segment>, a: Value, b: Value)
    requires Get(v, p).Some? && Get(v, q).Some? && p != [] && q != [] && p[0] == q[0] && !v.Nominal?
    requires Diverge(p[1..], q[1..])
    ensures var child := Child(v, p[0]).value;
            && Valid(v, p) && Valid(v, q) && Valid(child, p[1..]) && Valid(child, q[1..])
            && Valid(Put(child, p[1..], a), q[1..]) && Valid(Put(child, q[1..], b), p[1..])
            && Valid(Put(v, p, a), q) && Valid(Put(v, q, b), p)
            && Put(Put(v, p, a), q, b) == WithChild(v, p[0], Put(Put(child, p[1..], a), q[1..], b))
            && Put(Put(v, q, b), p, a) == WithChild(v, p[0], Put(Put(child, q[1..], b), p[1..], a))
  {
    var child := Child(v, p[0]).value;
    DivergeBack(p[1..], q[1..]);
    WriteThrough(v, p, q, a, b);
    WriteThrough(v, q, p, b, a);
  }

  /** Two writes through the same child are one write of the twice changed child. */
  lemma WriteThrough(v: Value, p: seq<Segment>, q: seq<Segment>, a: Value, b: Value)
    requires Get(v, p).Some? && Get(v, q).Some? && p != [] && q != [] && p[0] == q[0] && !v.Nominal?
    requires Diverge(p[1..], q[1..])
    ensures var child := Child(v, p[0]).value;
            && Valid(v, p) && Valid(child, p[1..]) && Valid(Put(child, p[1..], a), q[1..]) && Valid(Put(v, p, a), q)
            && Put(Put(v, p, a), q, b) == WithChild(v, p[0], Put(Put(child, p[1..], a), q[1..], b))
  {
    var child := Child(v, p[0]).value;
    ReadableIsValid(child, p[1..]);
    PutElsewhere(child, p[1..], q[1..], a);
    var x := Put(child, p[1..], a);
    ReadableIsValid(x, q[1..]);
    PutAt(v, p, a);
    ChildReplaced(v, p[0], x);
    PutAt(WithChild(v, p[0], x), q, b);
    ReplacedTwice(v, p[0], x, Put(x, q[1..], b));
  }

  lemma OtherChildrenCommute(v: Value, p: seq<Segment>, q: seq<Segment>, a: Value, b: Value)
    requires Get(v, p).Some? && Get(v, q).Some? && p != [] && q != [] && p[0] != q[0] && !v.Nominal?
    ensures Valid(v, p) && Valid(v, q) && Valid(Put(v, p, a), q) && Valid(Put(v, q, b), p)
    ensures Put(Put(v, p, a), q, b) == Put(Put(v, q, b), p, a)
  {
    ReadableIsValid(v, p);
    ReadableIsValid(v, q);
    var here, there := Child(v, p[0]).value, Child(v, q[0]).value;
    ReadableIsValid(here, p[1..]);
    ReadableIsValid(there, q[1..]);
    var x, y := Put(here, p[1..], a), Put(there, q[1..], b);
    hide Put, Validate, Get, Child, WithChild;
    PutAt(v, p, a);
    PutAt(v, q, b);
    OtherChild(v, p[0], q[0], x);
    OtherChild(v, q[0], p[0], y);
    PutAt(WithChild(v, p[0], x), q, b);
    PutAt(WithChild(v, q[0], y), p, a);
    ChildrenCommute(v, p[0], q[0], x, y);
  }

  lemma {:induction false} DivergeBack(p: seq<Segment>, q: seq<Segment>)
    requires Diverge(p, q)
    ensures Diverge(q, p)
  {
    if p[0] == q[0] {
      DivergeBack(p[1..], q[1..]);
    }
  }

  /** New map keys are appended, so two insertions do not commute. */
  lemma InsertionsDoNotCommute(a: Value, b: Value)
    ensures var p, q := [Key(Scalar(0))], [Key(Scalar(1))];
            && Diverge(p, q) && Valid(Map([]), p) && Valid(Map([]), q)
            && Valid(Put(Map([]), p, a), q) && Valid(Put(Map([]), q, b), p)
            && Put(Put(Map([]), p, a), q, b) != Put(Put(Map([]), q, b), p, a)
  {
    var p, q := [Key(Scalar(0))], [Key(Scalar(1))];
    assert Put(Map([]), p, a) == Map([(Scalar(0), a)]);
    assert Put(Map([]), q, b) == Map([(Scalar(1), b)]);
    assert KeyAt([(Scalar(0), a)], Scalar(1)) == 1;
    assert KeyAt([(Scalar(1), b)], Scalar(0)) == 1;
    assert Put(Map([(Scalar(0), a)]), q, b).entries[0].0 == Scalar(0);
    assert Put(Map([(Scalar(1), b)]), p, a).entries[0].0 == Scalar(1);
  }

  // ------------------------------------------------------------- wrappers

  /** The nominal tags peeled on the way to a place, level by level. */
  function Tags(v: Value, path: seq<Segment>): seq<nat>
    decreases v
  {
    if path == [] then []
    else if v.Nominal? then [v.ty] + Tags(v.inner, path)
    else
      var child := Child(v, path[0]);
      if child.None? then [] else Tags(child.value, path[1..])
  }

  /** Every wrapper on the way to the place is still there. */
  lemma {:induction false} PutKeepsTags(v: Value, path: seq<Segment>, x: Value)
    requires Valid(v, path)
    ensures Tags(Put(v, path, x), path) == Tags(v, path)
    decreases v
  {
    if path != [] {
      if v.Nominal? {
        PutKeepsTags(v.inner, path, x);
      } else {
        var last := v.Map? && path[0].Key? && |path| == 1;
        if !last {
          PutKeepsTags(Child(v, path[0]).value, path[1..], x);
        }
        ChildReplaced(v, path[0], if last then x else Put(Child(v, path[0]).value, path[1..], x));
      }
    }
  }

  function Peeled(v: Value): Value {
    if v.Nominal? then Peeled(v.inner) else v
  }

  /** When a path is valid: every proper prefix reads something, and the last segment either
      reads something too or inserts into a map. */
  lemma {:induction false} ValidExactly(v: Value, path: seq<Segment>)
    ensures Valid(v, path) <==>
              Get(v, path).Some?
              || (path != [] && path[|path| - 1].Key? && Get(v, path[..|path| - 1]).Some?
                  && Peeled(Get(v, path[..|path| - 1]).value).Map?)
    decreases v
  {
    if path != [] {
      var front := path[..|path| - 1];
      assert if |path| > 1 then front[0] == path[0] else front == [] && path[1..] == [];
      if v.Nominal? {
        ValidExactly(v.inner, path);
      } else if |path| > 1 && Child(v, path[0]).Some? {
        ValidExactly(Child(v, path[0]).value, path[1..]);
        assert front[1..] == path[1..][..|path[1..]| - 1];
      } else if |path| == 1 {
        assert Get(v, front) == Some(v) && Peeled(v) == v;
        assert Child(v, path[0]).Some? ==> Valid(Child(v, path[0]).value, path[1..]);
        assert Valid(v, path) <==> Child(v, path[0]).Some? || (v.Map? && path[0].Key?);
      } else {
        assert Get(v, front).None?;
      }
    }
  }

  // ---------------------------------------------------------- order of entries

  /** An assignment below a readable place changes that place as an assignment to it would. */
  lemma {:induction false} PutBelow(v: Value, outer: seq<Segment>, inner: seq<Segment>, x: Value)
    requires Get(v, outer).Some? && inner != [] && Valid(Get(v, outer).value, inner)
    ensures Valid(v, outer + inner) && Get(Put(v, outer + inner, x), outer) == Some(Put(Get(v, outer).value, inner, x))
    decreases v
  {
    if outer == [] {
      assert outer + inner == inner;
    } else {
      var path := outer + inner;
      assert path[0] == outer[0] && path[1..] == outer[1..] + inner;
      if v.Nominal? {
        PutBelow(v.inner, outer, inner, x);
      } else {
        PutBelow(Child(v, path[0]).value, outer[1..], inner, x);
        ChildReplaced(v, path[0], Put(Child(v, path[0]).value, path[1..], x));
      }
    }
  }

  predicate HasKey(entries: seq<(Value, Value)>, key: Value) {
    exists i :: 0 <= i < |entries| && entries[i].0 == key
  }

  /** Assigning a new key of a map, however deep, adds one entry at the end and leaves all the
      others where they were; assigning a key that is there changes the first entry of that
      key in place. */
  lemma InsertedLast(v: Value, outer: seq<Segment>, key: Value, x: Value)
    requires Get(v, outer).Some? && Get(v, outer).value.Map?
    ensures var before := Get(v, outer).value.entries;
            var path := outer + [Key(key)];
            && Valid(v, path)
            && var after := Get(Put(v, path, x), outer);
               && after.Some? && after.value.Map?
               && var entries := after.value.entries;
                  if HasKey(before, key)
                  then && |entries| == |before|
                       && exists i :: 0 <= i < |before| && before[i].0 == key && entries[i] == (key, x)
                            && (forall j | 0 <= j < i :: before[j].0 != key)
                            && forall j | 0 <= j < |before| && j != i :: entries[j] == before[j]
                  else && |entries| == |before| + 1 && entries[|before|] == (key, x)
                       && forall j | 0 <= j < |before| :: entries[j] == before[j]
  {
    var map_ := Get(v, outer).value;
    assert [Key(key)][1..] == [];
    PutBelow(v, outer, [Key(key)], x);
    var at := KeyAt(map_.entries, key);
    if HasKey(map_.entries, key) {
      var i :| 0 <= i < |map_.entries| && map_.entries[i].0 == key;
      assert at < |map_.entries|;
      assert Put(map_, [Key(key)], x).entries[at] == (key, x);
    }
  }

  // --------------------------------------------------------------- which fault

  /** What a segment finds wrong with a value that has no such child. */
  predicate Misfits(v: Value, s: Segment, fault: Fault) {
    match fault
    case NoSuchField => s.Field? && v.Record? && forall f <- v.fields :: f.0 != s.name
    case NotARecord => s.Field? && !v.Record?
    case OutOfBounds => s.Index? && ((v.Array? && s.i >= |v.items|) || (v.List? && s.i >= |v.items|))
    case NotIndexed => s.Index? && !v.Array? && !v.List?
    case NoSuchKey => s.Key? && v.Map? && !HasKey(v.entries, s.key)
    case NotAMap => s.Key? && !v.Map?
    case _ => false
  }

  /** A path is rejected with the fault of its first segment that does not fit the value the
      segments before it lead to. */
  lemma {:induction false} FaultOfFirstMisfit(v: Value, path: seq<Segment>)
    ensures Validate(v, path).Some? ==>
              exists i :: 0 <= i < |path| && Get(v, path[..i]).Some?
                          && Misfits(Peeled(Get(v, path[..i]).value), path[i], Validate(v, path).value)
    decreases v
  {
    if Validate(v, path).Some? {
      if v.Nominal? {
        FaultOfFirstMisfit(v.inner, path);
        var i :| 0 <= i < |path| && Get(v.inner, path[..i]).Some?
                 && Misfits(Peeled(Get(v.inner, path[..i]).value), path[i], Validate(v, path).value);
        if i == 0 {
          assert path[..0] == [];
        }
        assert Get(v, path[..i]).Some? && Peeled(Get(v, path[..i]).value) == Peeled(Get(v.inner, path[..i]).value);
      } else if Child(v, path[0]).None? {
        assert path[..0] == [] && Get(v, []) == Some(v);
        MisfitsHere(v, path[0]);
      } else {
        var child := Child(v, path[0]).value;
        FaultOfFirstMisfit(child, path[1..]);
        var i :| 0 <= i < |path| - 1 && Get(child, path[1..][..i]).Some?
                 && Misfits(Peeled(Get(child, path[1..][..i]).value), path[1..][i], Validate(v, path).value);
        assert path[..i + 1][1..] == path[1..][..i] && path[..i + 1][0] == path[0];
        assert Get(v, path[..i + 1]) == Get(child, path[1..][..i]);
        assert path[1..][i] == path[i + 1];
      }
    }
  }

  lemma MisfitsHere(v: Value, s: Segment)
    requires !v.Nominal? && Child(v, s).None?
    ensures Misfits(v, s, ChildFault(v, s))
  {
  }
}
