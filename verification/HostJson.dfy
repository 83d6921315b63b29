/** Typed values as JSON documents: what a host sends as JSON is decoded to the value it renders. */
module HostJson {
  import opened HostTypes
  import opened HostDecode
  import opened HostScoping
  import opened HostRoundTrip

  /** A rendering that knows nothing of the decoder: wrappers vanish, sequences and tuples are
      arrays, records are objects. What JSON has no shape for is not rendered. */
  function Render(x: Value): Option<Json> {
    match x
    case UnitV => Some(JNull)
    case BoolV(b) => Some(JBool(b))
    case NumberV(_, n) => Some(JNumber(Integral(n)))
    case StringV(text) => Some(JString(text))
    case SeqV(_, items) => ArrayOf(RenderAll(items))
    case TupleV(elems) => ArrayOf(RenderAll(elems))
    case RecordV(fields) =>
      if forall i | 0 <= i < |fields| :: Render(fields[i].1).Some?
      then Some(JObject(seq(|fields|, i requires 0 <= i < |fields| => (fields[i].0, Render(fields[i].1).value))))
      else None
    case NominalV(_, value) => Render(value)
    case TrustV(_, value) => Render(value)
    case _ => None
  }

  function ArrayOf(items: Option<seq<Json>>): Option<Json> {
    if items.Some? then Some(JArray(items.value)) else None
  }

  function RenderAll(xs: seq<Value>): (r: Option<seq<Json>>)
    ensures r.Some? <==> forall i | 0 <= i < |xs| :: Render(xs[i]).Some?
    ensures r.Some? ==> |r.value| == |xs| && forall i | 0 <= i < |xs| :: r.value[i] == Render(xs[i]).value
  {
    if forall i | 0 <= i < |xs| :: Render(xs[i]).Some?
    then Some(seq(|xs|, i requires 0 <= i < |xs| => Render(xs[i]).value))
    else None
  }

  /** A host value that stands for a document: the document itself, or its first layer opened. */
  predicate Stands(v: HostValue, j: Json) {
    v == HJson(j) || HostLayer(HJson(j)) == Ok(v)
  }

  lemma LayerOf(x: Value, v: HostValue)
    requires Render(x).Some? && Stands(v, Render(x).value)
    ensures HostLayer(v).Ok? && HostLayer(v) == HostLayer(HJson(Render(x).value))
    ensures Stands(HostLayer(v).value, Render(x).value)
  {
  }

  lemma RenderedNotJson(n: nat, store: Store, x: Value, ty: Ty)
    requires HasType(n, store, x, ty) && Render(x).Some?
    ensures !IsJson(store, ty) && !ty.Named?
  {
  }

  /** The opened document of `x` splits into documents of its components. */
  ghost predicate Opens(n: nat, store: Store, lib: Library, x: Value, ty: Ty, v: HostValue)
    requires Structural(ty)
  {
    var layer := Split(lib, ty, v);
    var values := Values(x, ty);
    && !layer.Refused?
    && (layer.Finished? ==> layer.value == x)
    && (layer.Parts? ==>
          && |layer.parts| == |values|
          && (forall i | 0 <= i < |layer.parts| ::
                && Render(values[i]).Some? && layer.parts[i].Component?
                && Stands(layer.parts[i].value, Render(values[i]).value)
                && HasType(n, store, values[i], layer.parts[i].ty))
          && Assemble(lib, ty, v, values) == Ok(x))
  }

  ghost predicate Opened(n: nat, store: Store, x: Value, ty: Ty, v: HostValue) {
    HasType(n, store, x, ty) && Render(x).Some? && HostLayer(HJson(Render(x).value)) == Ok(v)
  }

  lemma Open(n: nat, store: Store, lib: Library, x: Value, ty: Ty, v: HostValue)
    requires Opened(n, store, x, ty, v) && Structural(ty)
    ensures Opens(n, store, lib, x, ty, v)
  {
    match ty
    case Prim(_) => OpenLeaf(n, store, lib, x, ty, v);
    case IntegerLiteral => OpenLeaf(n, store, lib, x, ty, v);
    case SeqOf(_, _) => OpenArray(n, store, lib, x, ty, v);
    case Tuple(_) => OpenArray(n, store, lib, x, ty, v);
    case Record(_) => OpenRecord(n, store, lib, x, ty, v);
    case Trust(_, _) => OpenWrapper(n, store, lib, x, ty, v);
    case Schema(_) => OpenWrapper(n, store, lib, x, ty, v);
    case _ =>
  }

  lemma OpenLeaf(n: nat, store: Store, lib: Library, x: Value, ty: Ty, v: HostValue)
    requires Opened(n, store, x, ty, v) && (ty.Prim? || ty.IntegerLiteral?)
    ensures Opens(n, store, lib, x, ty, v)
  {
  }

  lemma OpenArray(n: nat, store: Store, lib: Library, x: Value, ty: Ty, v: HostValue)
    requires Opened(n, store, x, ty, v) && (ty.SeqOf? || ty.Tuple?)
    ensures Opens(n, store, lib, x, ty, v)
  {
    var values := Values(x, ty);
    assert forall item <- values :: item in values;
    assert v.HList? && |v.items| == |values| && forall i | 0 <= i < |values| :: v.items[i] == HJson(Render(values[i]).value);
  }

  lemma OpenRecord(n: nat, store: Store, lib: Library, x: Value, ty: Ty, v: HostValue)
    requires Opened(n, store, x, ty, v) && ty.Record?
    ensures Opens(n, store, lib, x, ty, v)
  {
    assert v.HRecord? && |v.fields| == |x.fields|;
    assert forall i | 0 <= i < |x.fields| :: v.fields[i] == (x.fields[i].0, HJson(Render(x.fields[i].1).value));
    OrderedRecord(ty.fields, v.fields);
    hide RecordLayer;
    assert NameValues(ty.fields, Values(x, ty)) == x.fields;
  }

  lemma OpenWrapper(n: nat, store: Store, lib: Library, x: Value, ty: Ty, v: HostValue)
    requires Opened(n, store, x, ty, v) && (ty.Trust? || ty.Schema?)
    ensures Opens(n, store, lib, x, ty, v)
  {
    hide HostLayer;
    assert Stands(v, Render(x).value);
    if ty.Trust? {
      OpenTrust(n, store, lib, x, ty, v);
    } else {
      assert Split(lib, ty, v) == Parts([Component(None, v, ty.inner)]) && Values(x, ty) == [x];
    }
  }

  lemma OpenTrust(n: nat, store: Store, lib: Library, x: Value, ty: Ty, v: HostValue)
    requires HasType(n, store, x, ty) && Render(x).Some? && ty.Trust? && Stands(v, Render(x).value)
    ensures Opens(n, store, lib, x, ty, v)
  {
    hide HostLayer, Stands;
    assert Split(lib, ty, v) == Parts([Component(None, v, ty.inner)]) && Values(x, ty) == [x.value];
  }

  lemma OpenDeclared(n: nat, store: Store, x: Value, ty: Ty, v: HostValue)
    requires Opened(n, store, x, ty, v) && !Structural(ty) && !IsJson(store, ty)
    ensures n > 0 && (ty.Applied? ==> store.interned(ty)) && Declared(store, ty, v).Ok?
    ensures var body := Declared(store, ty, v).value;
            var parts := SubstParts(body.parts, BodyBindings(body, ty));
            && body.variant.None? && |parts| == 1 && x.NominalV? && Render(x.value).Some? && parts[0].Component?
            && Stands(parts[0].value, Render(x.value).value)
            && HasType(n - 1, store, x.value, parts[0].ty)
            && Tagged(ty, body, Ok([x.value])) == Ok(x)
  {
    hide HostLayer, Subst, Bind;
    NominalOpens(n, store, x, ty);
    hide HasType, Render;
  }

  /** Variants have no shape in JSON. */
  lemma EnumNotRendered(n: nat, store: Store, x: Value, ty: Ty)
    requires HasType(n, store, x, ty) && !IsJson(store, ty) && (ty.Enum? || (ty.Applied? && ty.base in store.enums))
    ensures Render(x).None?
  {
    hide Subst, Bind;
    assert x.NominalV? && x.value.VariantV?;
    assert Render(x) == Render(x.value);
  }

  lemma NominalOpens(n: nat, store: Store, x: Value, ty: Ty)
    requires HasType(n, store, x, ty) && !Structural(ty) && !IsJson(store, ty) && Render(x).Some?
    ensures n > 0 && x.NominalV? && x.ty == ty && Render(x.value) == Render(x)
    ensures ty.Nominal? || (ty.Applied? && ty.base !in store.enums && store.interned(ty))
    ensures var id := if ty.Nominal? then ty.id else ty.base;
            && id in store.nominals && store.nominals[id].representation.Some?
            && (ty.Applied? ==> |store.nominals[id].params| == |ty.args|)
            && HasType(n - 1, store, x.value, Subst(store.nominals[id].representation.value,
                         if ty.Nominal? then map[] else Bind(store.nominals[id].params, ty.args)))
  {
    hide Subst, Bind;
    if ty.Enum? || (ty.Applied? && ty.base in store.enums) {
      EnumNotRendered(n, store, x, ty);
    }
  }

  /** A typed value is decoded from the document that renders it, or from that document with
      its first layer opened: array elements keep their positions, fields their names. */
  lemma {:induction false} Reads(n: nat, store: Store, lib: Library, x: Value, ty: Ty, v: HostValue)
    requires HasType(n, store, x, ty) && Render(x).Some? && Stands(v, Render(x).value)
    ensures Eager(n, store, lib, v, ty) == Ok(x)
    decreases n, ty
  {
    hide Render, HasType, HostLayer, Split, Assemble, Values, Eager, EagerParts, Declared,
         SubstParts, Holder, Below, Structural, IsJson, Assembled, Tagged, BodyBindings, Stands;
    LayerOf(x, v);
    RenderedNotJson(n, store, x, ty);
    var inner := HostLayer(v).value;
    if Structural(ty) {
      EagerStructural(n, store, lib, v, ty);
      Open(n, store, lib, x, ty, inner);
      var layer := Split(lib, ty, inner);
      if layer.Parts? {
        var values := Values(x, ty);
        forall i | 0 <= i < |values|
          ensures Eager(n, store, lib, layer.parts[i].value, layer.parts[i].ty) == Ok(values[i])
        {
          PartBelow(layer.parts, ty, layer.parts[i]);
          Reads(n, store, lib, values[i], layer.parts[i].ty, layer.parts[i].value);
        }
        PartsOk(n, store, lib, layer.parts, ty);
        assert EagerParts(n, store, lib, layer.parts, ty).value == values;
        AssembledEither(lib, ty, inner, Ok(values));
      }
    } else {
      EagerDeclared(n, store, lib, v, ty);
      OpenDeclared(n, store, x, ty, inner);
      var body := Declared(store, ty, inner).value;
      var parts := SubstParts(body.parts, BodyBindings(body, ty));
      Reads(n - 1, store, lib, x.value, parts[0].ty, parts[0].value);
      PartsOk(n - 1, store, lib, parts, Holder(parts));
      assert EagerParts(n - 1, store, lib, parts, Holder(parts)).value == [x.value];
    }
  }

  /** The interpreter's decoder gives back every typed value that JSON can render. */
  lemma JsonRoundTrip(n: nat, store: Store, lib: Library, x: Value, ty: Ty)
    requires ClosedStore(store) && store.interned(ty)
    requires HasType(n, store, x, ty) && Render(x).Some?
    ensures Decode(n, store, lib, HJson(Render(x).value), ty, Root) == Ok(x)
  {
    hide *;
    DocumentStands(Render(x).value);
    Reads(n, store, lib, x, ty, HJson(Render(x).value));
    RootAgrees(n, store, lib, HJson(Render(x).value), ty);
  }

  lemma DocumentStands(j: Json)
    ensures Stands(HJson(j), j)
  {
  }

  /** Numbers wait for their type: a whole number decodes at every integer type that holds it,
      and at no other; a fraction at none; what is not finite nowhere but as a document. */
  lemma JsonNumbers(n: nat, store: Store, lib: Library, k: int, p: Primitive)
    requires Bounds(p).Some?
    ensures Decode(n, store, lib, HJson(JNumber(Integral(k))), Prim(p), Root)
         == if Bounds(p).value.0 <= k <= Bounds(p).value.1 then Ok(NumberV(p, k)) else Err(Because(NotRepresentable(p)))
    ensures Decode(n, store, lib, HJson(JNumber(Fractional)), Prim(p), Root) == Err(Because(NotRepresentable(p)))
    ensures Decode(n, store, lib, HJson(JNumber(NonFinite)), Prim(p), Root) == Err(Because(NotFinite))
  {
    PrimitiveDecodes(n, store, lib, HJson(JNumber(Integral(k))), p);
    PrimitiveDecodes(n, store, lib, HJson(JNumber(Fractional)), p);
    PrimitiveDecodes(n, store, lib, HJson(JNumber(NonFinite)), p);
    hide Decode;
  }

  lemma PrimitiveDecodes(n: nat, store: Store, lib: Library, v: HostValue, p: Primitive)
    ensures Decode(n, store, lib, v, Prim(p), Root)
         == if HostLayer(v).Err? then Err(HostLayer(v).error)
            else
              var layer := DecodePrimitive(p, HostLayer(v).value);
              if layer.Finished? then Ok(layer.value) else Err(Because(layer.reason))
  {
    hide HostLayer, DecodePrimitive;
  }

  // -------------------------------------------------------- scalars and failures

  /** Host integers decode at every integer type of their own signedness that holds them; a
      signed one also at an unsigned type when it is not negative. */
  lemma HostIntegers(n: nat, store: Store, lib: Library, k: int, p: Primitive)
    requires Bounds(p).Some?
    ensures Decode(n, store, lib, HInt(k), Prim(p), Root)
         == if Bounds(p).value.0 <= k <= Bounds(p).value.1 then Ok(NumberV(p, k)) else Err(Because(NotRepresentable(p)))
    ensures k >= 0 ==>
              (Decode(n, store, lib, HUInt(k), Prim(p), Root)
               == if Bounds(p).value.0 == 0 && k <= Bounds(p).value.1 then Ok(NumberV(p, k)) else Err(Because(NotRepresentable(p))))
  {
    PrimitiveDecodes(n, store, lib, HInt(k), p);
    if k >= 0 {
      PrimitiveDecodes(n, store, lib, HUInt(k), p);
    }
    hide Decode;
  }

  /** Each other scalar decodes at its own type and at no other; a character is a string of
      length one. */
  lemma HostScalars(n: nat, store: Store, lib: Library, p: Primitive, b: bool, text: string, bytes: seq<nat>)
    ensures var no := Err(Because(NotRepresentable(p)));
            && Decode(n, store, lib, HUnit, Prim(p), Root) == (if p == UnitType then Ok(UnitV) else no)
            && Decode(n, store, lib, HBool(b), Prim(p), Root) == (if p == BoolType then Ok(BoolV(b)) else no)
            && Decode(n, store, lib, HBytes(bytes), Prim(p), Root) == (if p == BytesType then Ok(BytesV(bytes)) else no)
            && Decode(n, store, lib, HString(text), Prim(p), Root)
               == if p == StringType || (p == CharType && |text| == 1) then Ok(StringV(text))
                  else if p == CharType && |text| == 0 then Err(Because(EmptyChar)) else no
  {
    PrimitiveDecodes(n, store, lib, HUnit, p);
    PrimitiveDecodes(n, store, lib, HBool(b), p);
    PrimitiveDecodes(n, store, lib, HBytes(bytes), p);
    PrimitiveDecodes(n, store, lib, HString(text), p);
    hide Decode;
  }

  /** The first component that fails decides, and its place is named. */
  lemma {:induction false} FirstFailure(n: nat, store: Store, lib: Library, parts: seq<Part>, limit: Ty, i: nat)
    requires Below(parts, limit) && i < |parts| && parts[i].Component?
    requires forall j | 0 <= j < i :: parts[j].Component? && Eager(n, store, lib, parts[j].value, parts[j].ty).Ok?
    requires Eager(n, store, lib, parts[i].value, parts[i].ty).Err?
    ensures var e := Eager(n, store, lib, parts[i].value, parts[i].ty).error;
            EagerParts(n, store, lib, parts, limit) == Err(if parts[i].place.Some? then At(parts[i].place.value, e) else e)
    decreases i
  {
    hide Eager, EagerParts;
    EagerPartsStep(n, store, lib, parts, limit);
    if i > 0 {
      assert parts[1..][i - 1] == parts[i] && forall j | 0 <= j < i - 1 :: parts[1..][j] == parts[j + 1];
      FirstFailure(n, store, lib, parts[1..], limit, i - 1);
    }
  }

  /** A list or array whose `i`th element is the first that does not decode fails there. */
  lemma ListFailsAt(n: nat, store: Store, lib: Library, kind: SeqKind, elem: Ty, items: seq<HostValue>, i: nat)
    requires ClosedStore(store) && store.interned(SeqOf(kind, elem)) && i < |items|
    requires forall j | 0 <= j < i :: Decode(n, store, lib, items[j], elem, Root).Ok?
    requires Decode(n, store, lib, items[i], elem, Root).Err?
    ensures Decode(n, store, lib, HList(items), SeqOf(kind, elem), Root)
         == Err(At(Element(i), Decode(n, store, lib, items[i], elem, Root).error))
  {
    var ty := SeqOf(kind, elem);
    assert elem in Children(ty) && store.interned(elem);
    var parts := seq(|items|, k requires 0 <= k < |items| => Component(Some(Element(k)), items[k], elem));
    assert Split(lib, ty, HList(items)) == Parts(parts);
    hide Eager, Decode, EagerParts, Split, ClosedStore;
    RootAgrees(n, store, lib, HList(items), ty);
    forall j | 0 <= j <= i {
      RootAgrees(n, store, lib, items[j], elem);
    }
    assert Below(parts, ty);
    FirstFailure(n, store, lib, parts, ty, i);
    EagerStructural(n, store, lib, HList(items), ty);
  }

  /** A record names a repeated field before an unknown one, and an unknown one before a
      missing one; each name it reports is one that is wrong in that way. */
  lemma RecordRefusals(fields: seq<FieldType>, given: seq<(string, HostValue)>)
    ensures var layer := RecordLayer(given, fields);
            if !DistinctGiven(given)
            then && layer.Refused? && layer.reason.DuplicateField?
                 && exists i, j :: 0 <= i < j < |given| && given[i].0 == given[j].0 == layer.reason.name
            else if exists j :: 0 <= j < |given| && given[j].0 !in FieldNames(fields)
            then && layer.Refused? && layer.reason.UnknownField?
                 && layer.reason.name !in FieldNames(fields) && Names(given, layer.reason.name)
            else && layer.Parts? && |layer.parts| == |fields|
                 && forall i | 0 <= i < |fields| && !Names(given, fields[i].name) :: layer.parts[i] == Absent(MissingField(fields[i].name))
  {
    NoDuplicateExactly(given, {});
    NoUnknownExactly(given, FieldNames(fields));
    DuplicateNamed(given, {});
    UnknownNamed(given, FieldNames(fields));
    forall i | 0 <= i < |fields| {
      FirstFieldExactly(given, fields[i].name);
    }
  }

  lemma {:induction false} DuplicateNamed(given: seq<(string, HostValue)>, seen: set<string>)
    ensures var d := Duplicate(given, seen);
            d.Some? ==> exists j :: 0 <= j < |given| && given[j].0 == d.value
                                    && (d.value in seen || exists i :: 0 <= i < j && given[i].0 == d.value)
  {
    if given != [] && given[0].0 !in seen {
      var rest, d := given[1..], Duplicate(given, seen);
      DuplicateNamed(rest, seen + {given[0].0});
      if d.Some? {
        var j :| 0 <= j < |rest| && rest[j].0 == d.value
                 && (d.value in seen + {given[0].0} || exists i :: 0 <= i < j && rest[i].0 == d.value);
        assert given[j + 1].0 == d.value;
        if d.value !in seen && d.value != given[0].0 {
          var i :| 0 <= i < j && rest[i].0 == d.value;
          assert given[i + 1].0 == d.value;
        }
      }
    }
  }

  lemma {:induction false} UnknownNamed(given: seq<(string, HostValue)>, known: set<string>)
    ensures var u := Unknown(given, known); u.Some? ==> u.value !in known && Names(given, u.value)
  {
    if given != [] && given[0].0 in known {
      UnknownNamed(given[1..], known);
      var u := Unknown(given[1..], known);
      if u.Some? {
        var j :| 0 <= j < |given| - 1 && given[1..][j].0 == u.value;
        assert given[j + 1].0 == u.value;
      }
    } else if given != [] {
      assert given[0].0 == given[0].0;
    }
  }
}
