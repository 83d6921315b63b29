/** What decoding produces: values of exactly the requested type, which encode back to
    host values that decode to themselves. */
module HostRoundTrip {
  import opened HostTypes
  import opened HostDecode
  import opened HostScoping

  predicate PrimitiveValue(p: Primitive, x: Value) {
    match p
    case BoolType => x.BoolV?
    case StringType => x.StringV?
    case CharType => x.StringV? && |x.text| == 1
    case BytesType => x.BytesV?
    case UnitType => x.UnitV?
    case _ => x.NumberV? && x.primitive == p && InBounds(p, x.n)
  }

  predicate DistinctFields(fields: seq<FieldType>) {
    forall i, j | 0 <= i < j < |fields| :: fields[i].name != fields[j].name
  }

  /** `x` is a value of `ty`, with a nominal wrapper exactly where `ty` has a declaration. */
  predicate HasType(n: nat, store: Store, x: Value, ty: Ty)
    decreases 2 * n, ty
  {
    if IsJson(store, ty) then x.JsonV?
    else
      match ty
      case Named(_) => false
      case Other(_) => false
      case Prim(p) => PrimitiveValue(p, x)
      case IntegerLiteral => PrimitiveValue(I32, x)
      case SeqOf(kind, elem) => x.SeqV? && x.kind == kind && forall item <- x.items :: HasType(n, store, item, elem)
      case MapOf(key, value) =>
        x.MapV? && forall entry <- x.entries :: HasType(n, store, entry.0, key) && HasType(n, store, entry.1, value)
      case Tuple(elems) =>
        x.TupleV? && |x.elems| == |elems| && forall i | 0 <= i < |elems| :: HasType(n, store, x.elems[i], elems[i])
      case Record(fields) =>
        && x.RecordV? && |x.fields| == |fields| && DistinctFields(fields)
        && forall i | 0 <= i < |fields| :: x.fields[i].0 == fields[i].name && HasType(n, store, x.fields[i].1, fields[i].ty)
      case OptionOf(inner) => x.NoneV? || (x.SomeV? && HasType(n, store, x.value, inner))
      case ResultOf(ok, err) =>
        && x.VariantV? && |x.args| == 1
        && ((x.name == "Ok" && HasType(n, store, x.args[0], ok)) || (x.name == "Err" && HasType(n, store, x.args[0], err)))
      case Trust(wrapper, inner) => x.TrustV? && x.wrapper == wrapper && HasType(n, store, x.value, inner)
      case Schema(inner) => HasType(n, store, x, inner)
      case Message(inner) => x.MessageV? && HasType(n, store, x.payload, inner)
      case Nominal(id) => id in store.nominals && n > 0 && x.NominalV? && x.ty == ty && Represents(n, store, x.value, id, map[])
      case Enum(id) => n > 0 && x.NominalV? && x.ty == ty && Chooses(n, store, x.value, id, [])
      case Applied(base, args) =>
        && n > 0 && store.interned(ty) && x.NominalV? && x.ty == ty
        && if base in store.enums then Chooses(n, store, x.value, base, args)
           else
             && base in store.nominals && |store.nominals[base].params| == |args|
             && Represents(n, store, x.value, base, Bind(store.nominals[base].params, args))
  }

  predicate Represents(n: nat, store: Store, x: Value, id: nat, bindings: map<string, Ty>)
    requires n > 0 && id in store.nominals
    decreases 2 * n - 1, IntegerLiteral
  {
    var representation := store.nominals[id].representation;
    representation.Some? && HasType(n - 1, store, x, Subst(representation.value, bindings))
  }

  predicate Chooses(n: nat, store: Store, x: Value, id: nat, args: seq<Ty>)
    requires n > 0
    decreases 2 * n - 1, IntegerLiteral
  {
    && id in store.layouts && |args| == |store.layouts[id].params| && x.VariantV?
    && var variant := FindVariant(store.layouts[id].variants, x.name);
       && variant.Some? && |x.args| == |variant.value.fields|
       && forall i | 0 <= i < |x.args| ::
            HasType(n - 1, store, x.args[i], Subst(variant.value.fields[i], Bind(store.layouts[id].params, args)))
  }

  // ------------------------------------------------------------- encoding

  /** The projection back to a host value: nominal and trust wrappers vanish; sets and
      slices have no encoding. */
  function Encode(x: Value): Option<HostValue> {
    match x
    case NominalV(_, value) => Encode(value)
    case TrustV(_, value) => Encode(value)
    case UnitV => Some(HUnit)
    case BoolV(b) => Some(HBool(b))
    case NumberV(p, n) =>
      if Signed(p) then Some(HInt(n)) else if Bounds(p).Some? && n >= 0 then Some(HUInt(n)) else None
    case StringV(text) => Some(HString(text))
    case BytesV(bytes) => Some(HBytes(bytes))
    case SeqV(kind, items) =>
      if kind.SliceKind? || kind.SetKind? then None else ListOf(EncodeAll(items))
    case TupleV(elems) => ListOf(EncodeAll(elems))
    case MapV(entries) =>
      if forall i | 0 <= i < |entries| :: Encode(entries[i].0).Some? && Encode(entries[i].1).Some?
      then Some(HMap(seq(|entries|, i requires 0 <= i < |entries| =>
                   (Encode(entries[i].0).value, Encode(entries[i].1).value))))
      else None
    case RecordV(fields) =>
      if forall i | 0 <= i < |fields| :: Encode(fields[i].1).Some?
      then Some(HRecord(seq(|fields|, i requires 0 <= i < |fields| => (fields[i].0, Encode(fields[i].1).value))))
      else None
    case NoneV => Some(HVariant("None", []))
    case SomeV(value) => var one := Encode(value); if one.Some? then Some(HVariant("Some", [one.value])) else None
    case VariantV(name, args) => var all := EncodeAll(args); if all.Some? then Some(HVariant(name, all.value)) else None
    case MessageV(_, _, _) => None
    case JsonV(_) => None
  }

  function ListOf(items: Option<seq<HostValue>>): Option<HostValue> {
    if items.Some? then Some(HList(items.value)) else None
  }

  function EncodeAll(xs: seq<Value>): (r: Option<seq<HostValue>>)
    ensures r.Some? <==> forall i | 0 <= i < |xs| :: Encode(xs[i]).Some?
    ensures r.Some? ==> |r.value| == |xs| && forall i | 0 <= i < |xs| :: r.value[i] == Encode(xs[i]).value
  {
    if forall i | 0 <= i < |xs| :: Encode(xs[i]).Some?
    then Some(seq(|xs|, i requires 0 <= i < |xs| => Encode(xs[i]).value))
    else None
  }

  // ------------------------------------------------------------ components

  /** Components succeed together exactly when each succeeds, in order. */
  lemma {:induction false} PartsOk(n: nat, store: Store, lib: Library, parts: seq<Part>, limit: Ty)
    requires Below(parts, limit)
    ensures var r := EagerParts(n, store, lib, parts, limit);
            (r.Ok? <==> forall i | 0 <= i < |parts| ::
                          parts[i].Component? && Eager(n, store, lib, parts[i].value, parts[i].ty).Ok?)
    ensures var r := EagerParts(n, store, lib, parts, limit);
            r.Ok? ==> |r.value| == |parts| && forall i | 0 <= i < |parts| ::
              parts[i].Component? && Eager(n, store, lib, parts[i].value, parts[i].ty) == Ok(r.value[i])
  {
    hide Eager, EagerParts;
    EagerPartsStep(n, store, lib, parts, limit);
    if parts != [] && parts[0].Component? {
      var rest := parts[1..];
      PartsOk(n, store, lib, rest, limit);
      var r := EagerParts(n, store, lib, parts, limit);
      var tail := EagerParts(n, store, lib, rest, limit);
      assert forall i | 1 <= i < |parts| :: parts[i] == rest[i - 1];
      if r.Ok? {
        assert tail.Ok?;
        assert forall i | 1 <= i < |parts| :: r.value[i] == tail.value[i - 1];
      } else if tail.Ok? {
        assert Eager(n, store, lib, parts[0].value, parts[0].ty).Err?;
      } else {
        var i :| 0 <= i < |rest| && !(rest[i].Component? && Eager(n, store, lib, rest[i].value, rest[i].ty).Ok?);
        assert parts[i + 1] == rest[i];
      }
    }
  }

  // -------------------------------------------------------------- soundness

  /** Every decoded value has the requested type. */
  lemma {:induction false} Sound(n: nat, store: Store, lib: Library, v: HostValue, ty: Ty)
    requires Eager(n, store, lib, v, ty).Ok?
    ensures HasType(n, store, Eager(n, store, lib, v, ty).value, ty)
    decreases n, ty, 1
  {
    hide *;
    EagerHead(n, store, lib, v, ty);
    if IsJson(store, ty) {
      JsonTyped(n, store, lib, v, ty);
    } else if Structural(ty) {
      SoundStructural(n, store, lib, v, ty);
    } else {
      SoundDeclared(n, store, lib, v, ty);
    }
  }

  lemma EagerHead(n: nat, store: Store, lib: Library, v: HostValue, ty: Ty)
    requires Eager(n, store, lib, v, ty).Ok?
    ensures IsJson(store, ty) || HostLayer(v).Ok?
  {
  }

  lemma JsonTyped(n: nat, store: Store, lib: Library, v: HostValue, ty: Ty)
    requires Eager(n, store, lib, v, ty).Ok? && IsJson(store, ty)
    ensures HasType(n, store, Eager(n, store, lib, v, ty).value, ty)
  {
  }

  lemma {:induction false} SoundStructural(n: nat, store: Store, lib: Library, v: HostValue, ty: Ty)
    requires Eager(n, store, lib, v, ty).Ok? && !IsJson(store, ty) && HostLayer(v).Ok? && Structural(ty)
    ensures HasType(n, store, Eager(n, store, lib, v, ty).value, ty)
    decreases n, ty, 0
  {
    hide *;
    var inner := HostLayer(v).value;
    var layer := Split(lib, ty, inner);
    EagerStructural(n, store, lib, v, ty);
    if layer.Finished? {
      FinishedTyped(n, store, lib, ty, inner);
    } else if layer.Parts? {
      var values := EagerParts(n, store, lib, layer.parts, ty);
      AssembledEither(lib, ty, inner, values);
      PartsOk(n, store, lib, layer.parts, ty);
      forall i | 0 <= i < |values.value| ensures HasType(n, store, values.value[i], layer.parts[i].ty) {
        assert layer.parts[i] in layer.parts;
        PartBelow(layer.parts, ty, layer.parts[i]);
        Sound(n, store, lib, layer.parts[i].value, layer.parts[i].ty);
      }
      AssembleTyped(n, store, lib, ty, inner, values.value);
    }
  }

  lemma PartBelow(parts: seq<Part>, limit: Ty, p: Part)
    requires Below(parts, limit) && p in parts && p.Component?
    ensures p.ty < limit
  {
  }

  lemma FinishedTyped(n: nat, store: Store, lib: Library, ty: Ty, v: HostValue)
    requires Structural(ty) && Split(lib, ty, v).Finished?
    ensures HasType(n, store, Split(lib, ty, v).value, ty)
  {
  }

  lemma AssembleTyped(n: nat, store: Store, lib: Library, ty: Ty, v: HostValue, values: seq<Value>)
    requires Structural(ty) && Split(lib, ty, v).Parts? && |values| == |Split(lib, ty, v).parts|
    requires forall i | 0 <= i < |values| ::
               Split(lib, ty, v).parts[i].Component? && HasType(n, store, values[i], Split(lib, ty, v).parts[i].ty)
    requires Assemble(lib, ty, v, values).Ok?
    ensures HasType(n, store, Assemble(lib, ty, v, values).value, ty)
  {
    match ty
    case MapOf(_, _) => AssembleMapTyped(n, store, lib, ty, v, values);
    case Record(fields) => PresentFields(v.fields, fields);
    case _ =>
  }

  lemma AssembleMapTyped(n: nat, store: Store, lib: Library, ty: Ty, v: HostValue, values: seq<Value>)
    requires ty.MapOf? && v.HMap? && |values| == 2 * |v.entries|
    requires Split(lib, ty, v).Parts? && |Split(lib, ty, v).parts| == |values|
    requires forall i | 0 <= i < |values| ::
               Split(lib, ty, v).parts[i].Component? && HasType(n, store, values[i], Split(lib, ty, v).parts[i].ty)
    ensures HasType(n, store, Assemble(lib, ty, v, values).value, ty)
  {
    var parts := Split(lib, ty, v).parts;
    MapSplit(lib, ty, v);
    hide Split;
    forall i | 0 <= i < |v.entries|
      ensures HasType(n, store, values[2 * i], ty.key) && HasType(n, store, values[2 * i + 1], ty.value)
    {
      assert parts[2 * i].ty == ty.key && parts[2 * i + 1].ty == ty.value;
    }
  }

  /** A record whose components are all there has distinct field names. */
  lemma PresentFields(given: seq<(string, HostValue)>, fields: seq<FieldType>)
    requires RecordLayer(given, fields).Parts?
    requires forall p <- RecordLayer(given, fields).parts :: p.Component?
    ensures DistinctFields(fields)
    ensures forall i | 0 <= i < |fields| :: RecordLayer(given, fields).parts[i].ty == fields[i].ty
  {
    var parts := RecordLayer(given, fields).parts;
    forall i, j | 0 <= i < j < |fields| ensures fields[i].name != fields[j].name {
      assert parts[j] == FieldPart(given, fields, j) && parts[j] in parts;
      assert fields[..j][i].name in FieldNames(fields[..j]);
    }
    forall i | 0 <= i < |fields| ensures parts[i].ty == fields[i].ty {
      assert parts[i] == FieldPart(given, fields, i) && parts[i] in parts;
    }
  }

  lemma {:induction false} SoundDeclared(n: nat, store: Store, lib: Library, v: HostValue, ty: Ty)
    requires Eager(n, store, lib, v, ty).Ok? && !IsJson(store, ty) && HostLayer(v).Ok? && !Structural(ty)
    ensures HasType(n, store, Eager(n, store, lib, v, ty).value, ty)
    decreases n, ty, 0
  {
    hide Eager, EagerParts, HasType, Declared, SubstParts, BodyBindings, Tagged, Holder, HostLayer, IsJson, Structural, Below;
    var inner := HostLayer(v).value;
    EagerDeclared(n, store, lib, v, ty);
    var body := Declared(store, ty, inner).value;
    var parts := SubstParts(body.parts, BodyBindings(body, ty));
    var values := EagerParts(n - 1, store, lib, parts, Holder(parts));
    BodyShape(store, ty, inner);
    TaggedOk(ty, body, values);
    PartsOk(n - 1, store, lib, parts, Holder(parts));
    forall i | 0 <= i < |parts| ensures HasType(n - 1, store, values.value[i], parts[i].ty) {
      Sound(n - 1, store, lib, parts[i].value, parts[i].ty);
    }
    DeclaredTyped(n, store, ty, inner, values.value);
  }

  lemma BodyShape(store: Store, ty: Ty, v: HostValue)
    requires !Structural(ty) && Declared(store, ty, v).Ok?
    ensures var body := Declared(store, ty, v).value;
            && |SubstParts(body.parts, BodyBindings(body, ty))| == |body.parts|
            && (body.variant.None? ==> |body.parts| == 1)
  {
  }

  lemma TaggedOk(ty: Ty, body: Body, values: Result<seq<Value>>)
    requires values.Ok? && body.variant.None? ==> |values.value| == 1
    ensures Tagged(ty, body, values).Ok? == values.Ok?
  {
  }

  /** The components of a declared body have the body's types. */
  ghost predicate BodyTyped(n: nat, store: Store, ty: Ty, body: Body, values: seq<Value>)
    requires n > 0
  {
    var parts := SubstParts(body.parts, BodyBindings(body, ty));
    |values| == |parts| && forall i | 0 <= i < |parts| :: parts[i].Component? && HasType(n - 1, store, values[i], parts[i].ty)
  }

  lemma DeclaredTyped(n: nat, store: Store, ty: Ty, v: HostValue, values: seq<Value>)
    requires !Structural(ty) && !IsJson(store, ty) && Declared(store, ty, v).Ok? && n > 0
    requires ty.Applied? ==> store.interned(ty)
    requires BodyTyped(n, store, ty, Declared(store, ty, v).value, values)
    ensures HasType(n, store, Tagged(ty, Declared(store, ty, v).value, Ok(values)).value, ty)
  {
    hide BodyTyped, HasType, Subst, Bind, Declared;
    match ty
    case Nominal(_) => NominalTyped(n, store, ty, v, values);
    case Enum(_) => EnumTyped(n, store, ty, v, values);
    case Applied(base, _) =>
      if base in store.enums {
        EnumTyped(n, store, ty, v, values);
      } else {
        NominalTyped(n, store, ty, v, values);
      }
  }

  lemma NominalTyped(n: nat, store: Store, ty: Ty, v: HostValue, values: seq<Value>)
    requires ty.Nominal? || (ty.Applied? && ty.base !in store.enums && store.interned(ty))
    requires !IsJson(store, ty) && Declared(store, ty, v).Ok? && n > 0
    requires BodyTyped(n, store, ty, Declared(store, ty, v).value, values)
    ensures HasType(n, store, Tagged(ty, Declared(store, ty, v).value, Ok(values)).value, ty)
  {
    hide Subst, Bind;
    var body := Declared(store, ty, v).value;
    assert SubstParts(body.parts, BodyBindings(body, ty))[0].ty == Subst(body.parts[0].ty, BodyBindings(body, ty));
  }

  lemma EnumTyped(n: nat, store: Store, ty: Ty, v: HostValue, values: seq<Value>)
    requires ty.Enum? || (ty.Applied? && ty.base in store.enums && store.interned(ty))
    requires Declared(store, ty, v).Ok? && n > 0
    requires BodyTyped(n, store, ty, Declared(store, ty, v).value, values)
    ensures HasType(n, store, Tagged(ty, Declared(store, ty, v).value, Ok(values)).value, ty)
  {
    hide Subst, Bind;
    EmptyBind();
    var body := Declared(store, ty, v).value;
    var parts := SubstParts(body.parts, BodyBindings(body, ty));
    assert forall i | 0 <= i < |parts| :: parts[i].ty == Subst(body.parts[i].ty, BodyBindings(body, ty));
  }

  lemma EmptyBind()
    ensures forall names: seq<string> :: Bind(names, []) == map[]
  {
  }

  // -------------------------------------------------------------- round trip

  lemma NotJson(x: Value)
    requires Encode(x).Some?
    ensures HostLayer(Encode(x).value) == Ok(Encode(x).value)
  {
  }

  lemma EncodedNotJson(n: nat, store: Store, x: Value, ty: Ty)
    requires HasType(n, store, x, ty) && Encode(x).Some?
    ensures !IsJson(store, ty) && !ty.Named?
  {
  }

  lemma {:induction false} DistinctPrefix(fields: seq<FieldType>, given: seq<(string, HostValue)>, from: nat, i: nat)
    requires |given| == |fields| && from <= i < |fields| && DistinctFields(fields)
    requires forall k | 0 <= k < |fields| :: given[k].0 == fields[k].name
    ensures FirstField(given[from..], fields[i].name) == Some(given[i].1)
    decreases i - from
  {
    assert given[from..][0] == given[from] && given[from..][1..] == given[from + 1..];
    if from < i {
      DistinctPrefix(fields, given, from + 1, i);
    }
  }

  lemma {:induction false} NoDuplicate(fields: seq<FieldType>, given: seq<(string, HostValue)>, from: nat)
    requires |given| == |fields| && from <= |fields| && DistinctFields(fields)
    requires forall k | 0 <= k < |fields| :: given[k].0 == fields[k].name
    ensures Duplicate(given[from..], FieldNames(fields[..from])) == None
    ensures Unknown(given[from..], FieldNames(fields)) == None
    decreases |fields| - from
  {
    if from < |fields| {
      var rest := given[from..];
      assert rest[0] == given[from] && rest[1..] == given[from + 1..];
      NoDuplicate(fields, given, from + 1);
      assert FieldNames(fields[..from + 1]) == FieldNames(fields[..from]) + {fields[from].name} by {
        assert fields[..from + 1] == fields[..from] + [fields[from]];
        assert fields[..from + 1][from].name == fields[from].name;
        assert forall k | 0 <= k < from :: fields[..from + 1][k] == fields[..from][k];
      }
      assert fields[from].name in FieldNames(fields);
    }
  }

  /** A record whose fields are given in declaration order asks for exactly its components. */
  lemma OrderedRecord(fields: seq<FieldType>, given: seq<(string, HostValue)>)
    requires |given| == |fields| && DistinctFields(fields)
    requires forall k | 0 <= k < |fields| :: given[k].0 == fields[k].name
    ensures var layer := RecordLayer(given, fields);
            && layer.Parts? && |layer.parts| == |fields|
            && forall i | 0 <= i < |fields| ::
                 layer.parts[i] == Component(Some(RecordField(fields[i].name)), given[i].1, fields[i].ty)
  {
    NoDuplicate(fields, given, 0);
    assert given[0..] == given && FieldNames(fields[..0]) == {};
    forall i | 0 <= i < |fields|
      ensures FieldPart(given, fields, i) == Component(Some(RecordField(fields[i].name)), given[i].1, fields[i].ty)
    {
      DistinctPrefix(fields, given, 0, i);
    }
  }

  predicate DistinctGiven(given: seq<(string, HostValue)>) {
    forall i, j | 0 <= i < j < |given| :: given[i].0 != given[j].0
  }

  predicate Names(given: seq<(string, HostValue)>, name: string) {
    exists j :: 0 <= j < |given| && given[j].0 == name
  }

  lemma {:induction false} NoDuplicateExactly(given: seq<(string, HostValue)>, seen: set<string>)
    ensures Duplicate(given, seen).None? <==> DistinctGiven(given) && forall j | 0 <= j < |given| :: given[j].0 !in seen
  {
    if given != [] {
      var rest := given[1..];
      NoDuplicateExactly(rest, seen + {given[0].0});
      assert forall j | 0 <= j < |rest| :: rest[j] == given[j + 1];
    }
  }

  lemma {:induction false} NoUnknownExactly(given: seq<(string, HostValue)>, known: set<string>)
    ensures Unknown(given, known).None? <==> forall j | 0 <= j < |given| :: given[j].0 in known
  {
    if given != [] {
      NoUnknownExactly(given[1..], known);
      assert forall j | 1 <= j < |given| :: given[j] == given[1..][j - 1];
    }
  }

  lemma {:induction false} FirstFieldExactly(given: seq<(string, HostValue)>, name: string)
    ensures FirstField(given, name).Some? <==> Names(given, name)
    ensures DistinctGiven(given) ==> forall j | 0 <= j < |given| && given[j].0 == name :: FirstField(given, name) == Some(given[j].1)
  {
    if given != [] {
      var rest := given[1..];
      FirstFieldExactly(rest, name);
      assert forall j | 1 <= j < |given| :: given[j] == rest[j - 1];
      assert Names(given, name) <==> given[0].0 == name || Names(rest, name) by {
        if Names(rest, name) {
          var j :| 0 <= j < |rest| && rest[j].0 == name;
          assert given[j + 1].0 == name;
        }
      }
    }
  }

  /** A host record gives all its components, in declaration order, exactly when it names
      each declared field once and nothing else, in whatever order. */
  lemma RecordExactly(fields: seq<FieldType>, given: seq<(string, HostValue)>)
    requires DistinctFields(fields)
    ensures (RecordLayer(given, fields).Parts? && forall p <- RecordLayer(given, fields).parts :: p.Component?)
            <==> DistinctGiven(given) && (forall j | 0 <= j < |given| :: given[j].0 in FieldNames(fields))
                 && (forall i | 0 <= i < |fields| :: Names(given, fields[i].name))
    ensures RecordLayer(given, fields).Parts? ==>
              forall i, j | 0 <= i < |fields| && 0 <= j < |given| && given[j].0 == fields[i].name ::
                RecordLayer(given, fields).parts[i] == Component(Some(RecordField(fields[i].name)), given[j].1, fields[i].ty)
  {
    NoDuplicateExactly(given, {});
    NoUnknownExactly(given, FieldNames(fields));
    var layer := RecordLayer(given, fields);
    forall i | 0 <= i < |fields| && DistinctGiven(given)
      ensures FieldPart(given, fields, i).Component? <==> Names(given, fields[i].name)
      ensures forall j | 0 <= j < |given| && given[j].0 == fields[i].name ::
                FieldPart(given, fields, i) == Component(Some(RecordField(fields[i].name)), given[j].1, fields[i].ty)
    {
      FirstFieldExactly(given, fields[i].name);
      assert fields[i].name !in FieldNames(fields[..i]);
    }
    if layer.Parts? {
      assert forall i | 0 <= i < |fields| :: layer.parts[i] == FieldPart(given, fields, i) && layer.parts[i] in layer.parts;
    }
  }

  /** A typed value is decoded again from its own encoding. */
  lemma {:induction false} RoundTrip(n: nat, store: Store, lib: Library, x: Value, ty: Ty)
    requires HasType(n, store, x, ty) && Encode(x).Some?
    ensures Eager(n, store, lib, Encode(x).value, ty) == Ok(x)
    decreases n, ty
  {
    hide Encode, HasType, HostLayer, Split, Assemble, Values, Eager, EagerParts, Declared, DeclaredValues,
         SubstParts, Holder, Below, Structural, IsJson, Assembled, Tagged, BodyBindings;
    NotJson(x);
    var v := Encode(x).value;
    EncodedNotJson(n, store, x, ty);
    if Structural(ty) {
      EagerStructural(n, store, lib, v, ty);
      Unpack(n, store, lib, x, ty);
      var layer := Split(lib, ty, v);
      if layer.Parts? {
        var values := Values(x, ty);
        forall i | 0 <= i < |values|
          ensures Eager(n, store, lib, layer.parts[i].value, layer.parts[i].ty) == Ok(values[i])
        {
          PartBelow(layer.parts, ty, layer.parts[i]);
          RoundTrip(n, store, lib, values[i], layer.parts[i].ty);
        }
        PartsOk(n, store, lib, layer.parts, ty);
        assert EagerParts(n, store, lib, layer.parts, ty).value == values;
        AssembledEither(lib, ty, v, Ok(values));
      }
    } else {
      EagerDeclared(n, store, lib, v, ty);
      UnpackDeclared(n, store, x, ty);
      var body := Declared(store, ty, v).value;
      var parts := SubstParts(body.parts, BodyBindings(body, ty));
      var values := DeclaredValues(x, body);
      forall i | 0 <= i < |values|
        ensures Eager(n - 1, store, lib, parts[i].value, parts[i].ty) == Ok(values[i])
      {
        RoundTrip(n - 1, store, lib, values[i], parts[i].ty);
      }
      PartsOk(n - 1, store, lib, parts, Holder(parts));
      assert EagerParts(n - 1, store, lib, parts, Holder(parts)).value == values;
    }
  }

  /** The components of a value of a structural type, in decoding order. */
  function Values(x: Value, ty: Ty): seq<Value> {
    match ty
    case SeqOf(_, _) => if x.SeqV? then x.items else []
    case MapOf(_, _) =>
      if x.MapV?
      then seq(2 * |x.entries|, i requires 0 <= i < 2 * |x.entries| =>
             if i % 2 == 0 then x.entries[i / 2].0 else x.entries[i / 2].1)
      else []
    case Tuple(_) => if x.TupleV? then x.elems else []
    case Record(_) => if x.RecordV? then seq(|x.fields|, i requires 0 <= i < |x.fields| => x.fields[i].1) else []
    case OptionOf(_) => if x.SomeV? then [x.value] else []
    case ResultOf(_, _) => if x.VariantV? then x.args else []
    case Trust(_, _) => if x.TrustV? then [x.value] else []
    case Schema(_) => [x]
    case _ => []
  }

  /** The encoding of `x` splits into the encodings of its components. */
  ghost predicate Unpacks(n: nat, store: Store, lib: Library, x: Value, ty: Ty)
    requires Encode(x).Some? && Structural(ty)
  {
    var layer := Split(lib, ty, Encode(x).value);
    var values := Values(x, ty);
    && !layer.Refused?
    && (layer.Finished? ==> layer.value == x)
    && (layer.Parts? ==>
          && |layer.parts| == |values|
          && (forall i | 0 <= i < |layer.parts| ::
                && Encode(values[i]).Some? && layer.parts[i].Component?
                && layer.parts[i].value == Encode(values[i]).value
                && HasType(n, store, values[i], layer.parts[i].ty))
          && Assemble(lib, ty, Encode(x).value, values) == Ok(x))
  }

  lemma Unpack(n: nat, store: Store, lib: Library, x: Value, ty: Ty)
    requires HasType(n, store, x, ty) && Encode(x).Some? && Structural(ty)
    ensures Unpacks(n, store, lib, x, ty)
  {
    match ty
    case MapOf(_, _) => UnpackMap(n, store, lib, x, ty);
    case Record(_) => UnpackRecord(n, store, lib, x, ty);
    case SeqOf(_, _) => UnpackSeq(n, store, lib, x, ty);
    case Tuple(_) => UnpackSeq(n, store, lib, x, ty);
    case Prim(_) => UnpackLeaf(n, store, lib, x, ty);
    case IntegerLiteral => UnpackLeaf(n, store, lib, x, ty);
    case OptionOf(_) => UnpackOption(n, store, lib, x, ty);
    case ResultOf(_, _) => UnpackResult(n, store, lib, x, ty);
    case Trust(_, _) => UnpackTrust(n, store, lib, x, ty);
    case Schema(_) => UnpackSchema(n, store, lib, x, ty);
    case Message(_) =>
    case Named(_) =>
    case Other(_) =>
  }

  lemma UnpackLeaf(n: nat, store: Store, lib: Library, x: Value, ty: Ty)
    requires HasType(n, store, x, ty) && Encode(x).Some? && (ty.Prim? || ty.IntegerLiteral?)
    ensures Unpacks(n, store, lib, x, ty)
  {
  }

  lemma UnpackOption(n: nat, store: Store, lib: Library, x: Value, ty: Ty)
    requires HasType(n, store, x, ty) && Encode(x).Some? && ty.OptionOf?
    ensures Unpacks(n, store, lib, x, ty)
  {
  }

  lemma UnpackResult(n: nat, store: Store, lib: Library, x: Value, ty: Ty)
    requires HasType(n, store, x, ty) && Encode(x).Some? && ty.ResultOf?
    ensures Unpacks(n, store, lib, x, ty)
  {
  }

  lemma UnpackTrust(n: nat, store: Store, lib: Library, x: Value, ty: Ty)
    requires HasType(n, store, x, ty) && Encode(x).Some? && ty.Trust?
    ensures Unpacks(n, store, lib, x, ty)
  {
  }

  lemma UnpackSchema(n: nat, store: Store, lib: Library, x: Value, ty: Ty)
    requires HasType(n, store, x, ty) && Encode(x).Some? && ty.Schema?
    ensures Unpacks(n, store, lib, x, ty)
  {
  }

  lemma UnpackSeq(n: nat, store: Store, lib: Library, x: Value, ty: Ty)
    requires HasType(n, store, x, ty) && Encode(x).Some? && (ty.SeqOf? || ty.Tuple?)
    ensures Unpacks(n, store, lib, x, ty)
  {
    assert forall item <- Values(x, ty) :: item in Values(x, ty);
  }

  lemma UnpackMap(n: nat, store: Store, lib: Library, x: Value, ty: Ty)
    requires HasType(n, store, x, ty) && Encode(x).Some? && ty.MapOf?
    ensures Unpacks(n, store, lib, x, ty)
  {
    MapEncoded(n, store, x, ty);
    var v := Encode(x).value;
    hide Encode, HasType, Split, Assemble, Values;
    MapSplit(lib, ty, v);
    MapValues(x, ty);
    MapAssembled(lib, ty, v, x);
  }

  lemma MapSplit(lib: Library, ty: Ty, v: HostValue)
    requires ty.MapOf? && v.HMap?
    ensures var layer := Split(lib, ty, v);
            && layer.Parts? && |layer.parts| == 2 * |v.entries|
            && forall i | 0 <= i < |layer.parts| ::
                 && layer.parts[i].Component?
                 && layer.parts[i].value == (if i % 2 == 0 then v.entries[i / 2].0 else v.entries[i / 2].1)
                 && layer.parts[i].ty == (if i % 2 == 0 then ty.key else ty.value)
  {
  }

  lemma MapValues(x: Value, ty: Ty)
    requires ty.MapOf? && x.MapV?
    ensures |Values(x, ty)| == 2 * |x.entries|
    ensures forall i | 0 <= i < 2 * |x.entries| ::
              Values(x, ty)[i] == if i % 2 == 0 then x.entries[i / 2].0 else x.entries[i / 2].1
  {
  }

  lemma PairedEntries(entries: seq<(Value, Value)>, values: seq<Value>)
    requires |values| == 2 * |entries|
    requires forall i | 0 <= i < |values| :: values[i] == if i % 2 == 0 then entries[i / 2].0 else entries[i / 2].1
    ensures PairValues(|entries|, values) == entries
  {
    forall i | 0 <= i < |entries| ensures PairValues(|entries|, values)[i] == entries[i] {
      assert values[2 * i] == entries[i].0 && values[2 * i + 1] == entries[i].1;
    }
  }

  lemma MapAssembled(lib: Library, ty: Ty, v: HostValue, x: Value)
    requires ty.MapOf? && v.HMap? && x.MapV? && |v.entries| == |x.entries|
    ensures Split(lib, ty, v).Parts? && |Split(lib, ty, v).parts| == |Values(x, ty)|
    ensures Assemble(lib, ty, v, Values(x, ty)) == Ok(x)
  {
    MapSplit(lib, ty, v);
    MapValues(x, ty);
    hide Split, Values, PairValues;
    PairedEntries(x.entries, Values(x, ty));
  }

  lemma MapEncoded(n: nat, store: Store, x: Value, ty: Ty)
    requires HasType(n, store, x, ty) && Encode(x).Some? && ty.MapOf?
    ensures x.MapV? && Encode(x).value.HMap? && |Encode(x).value.entries| == |x.entries|
    ensures forall i | 0 <= i < |x.entries| ::
              && Encode(x.entries[i].0).Some? && Encode(x.entries[i].1).Some?
              && Encode(x).value.entries[i] == (Encode(x.entries[i].0).value, Encode(x.entries[i].1).value)
              && HasType(n, store, x.entries[i].0, ty.key) && HasType(n, store, x.entries[i].1, ty.value)
  {
    assert forall entry <- x.entries :: HasType(n, store, entry.0, ty.key) && HasType(n, store, entry.1, ty.value);
  }

  lemma UnpackRecord(n: nat, store: Store, lib: Library, x: Value, ty: Ty)
    requires HasType(n, store, x, ty) && Encode(x).Some? && ty.Record?
    ensures Unpacks(n, store, lib, x, ty)
  {
    var given := Encode(x).value.fields;
    OrderedRecord(ty.fields, given);
    hide RecordLayer;
    assert NameValues(ty.fields, Values(x, ty)) == x.fields;
  }

  function DeclaredValues(x: Value, body: Body): seq<Value> {
    if !x.NominalV? then []
    else if body.variant.None? then [x.value]
    else if x.value.VariantV? then x.value.args
    else []
  }

  lemma UnpackDeclared(n: nat, store: Store, x: Value, ty: Ty)
    requires HasType(n, store, x, ty) && Encode(x).Some? && !Structural(ty) && !IsJson(store, ty)
    ensures n > 0 && (ty.Applied? ==> store.interned(ty)) && Declared(store, ty, Encode(x).value).Ok?
    ensures var body := Declared(store, ty, Encode(x).value).value;
            var parts := SubstParts(body.parts, BodyBindings(body, ty));
            && |DeclaredValues(x, body)| == |parts|
            && (body.variant.None? ==> |parts| == 1)
            && (forall i | 0 <= i < |parts| ::
                  && Encode(DeclaredValues(x, body)[i]).Some? && parts[i].Component?
                  && parts[i].value == Encode(DeclaredValues(x, body)[i]).value
                  && HasType(n - 1, store, DeclaredValues(x, body)[i], parts[i].ty))
            && Tagged(ty, body, Ok(DeclaredValues(x, body))) == Ok(x)
  {
    hide Subst, Bind;
    EmptyBind();
  }

  // -------------------------------------------------------------- main result

  /** What the interpreter decodes has the requested type, and encoding it and decoding
      again gives the same value. */
  lemma DecodeIsStable(n: nat, store: Store, lib: Library, v: HostValue, ty: Ty)
    requires ClosedStore(store) && store.interned(ty)
    requires Decode(n, store, lib, v, ty, Root).Ok?
    ensures var x := Decode(n, store, lib, v, ty, Root).value;
            && HasType(n, store, x, ty)
            && (Encode(x).Some? ==> Decode(n, store, lib, Encode(x).value, ty, Root) == Ok(x))
  {
    hide *;
    RootAgrees(n, store, lib, v, ty);
    Sound(n, store, lib, v, ty);
    var x := Decode(n, store, lib, v, ty, Root).value;
    if Encode(x).Some? {
      RoundTrip(n, store, lib, x, ty);
      RootAgrees(n, store, lib, Encode(x).value, ty);
    }
  }
}
