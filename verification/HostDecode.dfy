/** Decoding a host value against a checked type, twice: with the chained environment the
    interpreter uses, and by substituting arguments eagerly with no environment at all. */
module HostDecode {
  import opened HostTypes

  datatype Result<T> = Ok(value: T) | Err(error: Error)

  datatype JsonNumber = NonFinite | Integral(n: int) | Fractional

  datatype Json =
    | JNull | JBool(b: bool) | JNumber(number: JsonNumber) | JString(text: string)
    | JArray(items: seq<Json>) | JObject(entries: seq<(string, Json)>)

  datatype HostValue =
    | HUnit | HBool(b: bool) | HInt(n: int) | HUInt(u: nat) | HString(text: string) | HBytes(bytes: seq<nat>)
    | HList(items: seq<HostValue>)
    | HMap(entries: seq<(HostValue, HostValue)>)
    | HRecord(fields: seq<(string, HostValue)>)
    | HVariant(name: string, args: seq<HostValue>)
    | HJson(json: Json)

  datatype Value =
    | UnitV | BoolV(b: bool) | NumberV(primitive: Primitive, n: int) | StringV(text: string) | BytesV(bytes: seq<nat>)
    | SeqV(kind: SeqKind, items: seq<Value>)
    | MapV(entries: seq<(Value, Value)>)
    | TupleV(elems: seq<Value>)
    | RecordV(fields: seq<(string, Value)>)
    | NoneV | SomeV(value: Value)
    | VariantV(name: string, args: seq<Value>)
    | NominalV(ty: Ty, value: Value)
    | TrustV(wrapper: nat, value: Value)
    | MessageV(envelope: nat, payload: Value, provenance: Option<nat>)
    | JsonV(document: nat)

  /** Parts of the host library that are not part of this model. */
  datatype Library = Library(
    toJson: HostValue -> Option<nat>,
    openMessage: HostValue -> Option<Envelope>,
    openProvenance: nat -> Option<nat>)

  datatype Envelope = Envelope(header: nat, payload: HostValue, provenance: Option<nat>)

  datatype Place =
    | Element(index: nat) | MapKey(index: nat) | MapValue(index: nat) | TupleElement(index: nat)
    | RecordField(name: string) | VariantField(name: string, index: nat) | MessagePayload | MessageProvenance

  datatype Reason =
    | NotRepresentable(primitive: Primitive) | NotInteger | EmptyChar | NotFinite
    | WrongKind | TupleLength(given: nat, required: nat)
    | DuplicateField(name: string) | UnknownField(name: string) | MissingField(name: string)
    | BadEnvelope | BadProvenance | BadJson
    | Unsupported | MissingType | NotMaterialized
    | NoRepresentation(id: nat) | NotNominal(id: nat) | NominalArity(id: nat)
    | NoLayout(id: nat) | EnumArity | NotVariant | UnknownVariant(name: string) | VariantArity(name: string)
    | OutOfFuel

  datatype Error = Because(reason: Reason) | At(place: Place, error: Error)

  // ------------------------------------------------------------- leaves

  /** Inclusive bounds of an integer type; `usize` and `isize` are 64 bits wide. */
  function Bounds(p: Primitive): Option<(int, int)> {
    match p
    case I8 => Some((-0x80, 0x7f))
    case I16 => Some((-0x8000, 0x7fff))
    case I32 => Some((-0x8000_0000, 0x7fff_ffff))
    case I64 => Some((-0x8000_0000_0000_0000, 0x7fff_ffff_ffff_ffff))
    case ISize => Some((-0x8000_0000_0000_0000, 0x7fff_ffff_ffff_ffff))
    case I128 => Some((-0x8000_0000_0000_0000_0000_0000_0000_0000, 0x7fff_ffff_ffff_ffff_ffff_ffff_ffff_ffff))
    case U8 => Some((0, 0xff))
    case U16 => Some((0, 0xffff))
    case U32 => Some((0, 0xffff_ffff))
    case U64 => Some((0, 0xffff_ffff_ffff_ffff))
    case USize => Some((0, 0xffff_ffff_ffff_ffff))
    case U128 => Some((0, 0xffff_ffff_ffff_ffff_ffff_ffff_ffff_ffff))
    case _ => None
  }

  predicate Signed(p: Primitive) {
    p.I8? || p.I16? || p.I32? || p.I64? || p.I128? || p.ISize?
  }

  predicate InBounds(p: Primitive, n: int) {
    Bounds(p).Some? && Bounds(p).value.0 <= n <= Bounds(p).value.1
  }

  function Integer(p: Primitive, n: int): Layer {
    if InBounds(p, n) then Finished(NumberV(p, n)) else Refused(NotRepresentable(p))
  }

  function DecodePrimitive(p: Primitive, v: HostValue): (layer: Layer)
    ensures !layer.Parts?
  {
    var no := Refused(NotRepresentable(p));
    match v
    case HJson(JNumber(number)) => if number.Integral? then Integer(p, number.n) else no
    case HBool(b) => if p.BoolType? then Finished(BoolV(b)) else no
    case HString(text) =>
      if p.StringType? then Finished(StringV(text))
      else if p.CharType? then
        if text == "" then Refused(EmptyChar) else if |text| == 1 then Finished(StringV(text)) else no
      else no
    case HBytes(bytes) => if p.BytesType? then Finished(BytesV(bytes)) else no
    case HUnit => if p.UnitType? then Finished(UnitV) else no
    case HInt(n) => if Bounds(p).Some? && (Signed(p) || n >= 0) then Integer(p, n) else no
    case HUInt(n) => if Bounds(p).Some? && !Signed(p) then Integer(p, n) else no
    case _ => no
  }

  /** An unsuffixed integer literal type decodes as `i32`. */
  function DecodeLiteral(v: HostValue): (layer: Layer)
    ensures !layer.Parts?
  {
    match v
    case HJson(JNumber(Integral(n))) => if InBounds(I32, n) then Finished(NumberV(I32, n)) else Refused(NotInteger)
    case HInt(n) => if InBounds(I32, n) then Finished(NumberV(I32, n)) else Refused(NotInteger)
    case HUInt(n) => if InBounds(I32, n) then Finished(NumberV(I32, n)) else Refused(NotInteger)
    case _ => Refused(NotInteger)
  }

  /** A JSON document unpacks one layer at a time; numbers wait for the checked leaf type. */
  function HostLayer(v: HostValue): Result<HostValue> {
    match v
    case HJson(json) => (
      match json
      case JNull => Ok(HUnit)
      case JBool(b) => Ok(HBool(b))
      case JNumber(number) => if number.NonFinite? then Err(Because(NotFinite)) else Ok(v)
      case JString(text) => Ok(HString(text))
      case JArray(items) => Ok(HList(seq(|items|, i requires 0 <= i < |items| => HJson(items[i]))))
      case JObject(entries) =>
        Ok(HRecord(seq(|entries|, i requires 0 <= i < |entries| => (entries[i].0, HJson(entries[i].1))))))
    case _ => Ok(v)
  }

  // ------------------------------------------------- one layer of a value

  datatype Part = Component(place: Option<Place>, value: HostValue, ty: Ty) | Absent(reason: Reason)

  /** What one layer of a type asks for: finished, refused, or components decoded in order. */
  datatype Layer = Finished(value: Value) | Refused(reason: Reason) | Parts(parts: seq<Part>)

  function FirstField(fields: seq<(string, HostValue)>, name: string): Option<HostValue> {
    if fields == [] then None
    else if fields[0].0 == name then Some(fields[0].1)
    else FirstField(fields[1..], name)
  }

  /** The first field whose name occurred before it. */
  function Duplicate(fields: seq<(string, HostValue)>, seen: set<string>): Option<string> {
    if fields == [] then None
    else if fields[0].0 in seen then Some(fields[0].0)
    else Duplicate(fields[1..], seen + {fields[0].0})
  }

  function Unknown(fields: seq<(string, HostValue)>, known: set<string>): Option<string> {
    if fields == [] then None
    else if fields[0].0 !in known then Some(fields[0].0)
    else Unknown(fields[1..], known)
  }

  function FieldNames(fields: seq<FieldType>): set<string> {
    set i | 0 <= i < |fields| :: fields[i].name
  }

  /** A field is taken out of the host record, so a repeated field type finds nothing. */
  function FieldPart(given: seq<(string, HostValue)>, fields: seq<FieldType>, i: nat): Part
    requires i < |fields|
  {
    var name := fields[i].name;
    var found := FirstField(given, name);
    if found.None? || name in FieldNames(fields[..i]) then Absent(MissingField(name))
    else Component(Some(RecordField(name)), found.value, fields[i].ty)
  }

  function RecordLayer(given: seq<(string, HostValue)>, fields: seq<FieldType>): Layer {
    var duplicate := Duplicate(given, {});
    var unknown := Unknown(given, FieldNames(fields));
    if duplicate.Some? then Refused(DuplicateField(duplicate.value))
    else if unknown.Some? then Refused(UnknownField(unknown.value))
    else Parts(seq(|fields|, i requires 0 <= i < |fields| => FieldPart(given, fields, i)))
  }

  /** Every component has a smaller type than `limit`. */
  ghost predicate Below(parts: seq<Part>, limit: Ty) {
    forall p <- parts :: p.Component? ==> p.ty < limit
  }

  predicate Structural(ty: Ty) {
    !ty.Nominal? && !ty.Enum? && !ty.Applied?
  }

  function Split(lib: Library, ty: Ty, v: HostValue): (layer: Layer)
    requires Structural(ty)
    ensures layer.Parts? ==> Below(layer.parts, ty)
  {
    match ty
    case Prim(p) => DecodePrimitive(p, v)
    case IntegerLiteral => DecodeLiteral(v)
    case SeqOf(_, elem) =>
      if v.HList?
      then Parts(seq(|v.items|, i requires 0 <= i < |v.items| => Component(Some(Element(i)), v.items[i], elem)))
      else Refused(WrongKind)
    case MapOf(key, value) =>
      if v.HMap?
      then Parts(seq(2 * |v.entries|, i requires 0 <= i < 2 * |v.entries| =>
                   if i % 2 == 0 then Component(Some(MapKey(i / 2)), v.entries[i / 2].0, key)
                   else Component(Some(MapValue(i / 2)), v.entries[i / 2].1, value)))
      else Refused(WrongKind)
    case Tuple(elems) =>
      if !v.HList? then Refused(WrongKind)
      else if |v.items| != |elems| then Refused(TupleLength(|v.items|, |elems|))
      else Parts(seq(|elems|, i requires 0 <= i < |elems| => Component(Some(TupleElement(i)), v.items[i], elems[i])))
    case Record(fields) => if v.HRecord? then RecordLayer(v.fields, fields) else Refused(WrongKind)
    case OptionOf(inner) =>
      if v.HVariant? && v.name == "None" && v.args == [] then Finished(NoneV)
      else if v.HVariant? && v.name == "Some" && |v.args| == 1 then Parts([Component(None, v.args[0], inner)])
      else Refused(WrongKind)
    case ResultOf(ok, err) =>
      if v.HVariant? && v.name == "Ok" && |v.args| == 1 then Parts([Component(None, v.args[0], ok)])
      else if v.HVariant? && v.name == "Err" && |v.args| == 1 then Parts([Component(None, v.args[0], err)])
      else Refused(WrongKind)
    case Trust(_, inner) => Parts([Component(None, v, inner)])
    case Schema(inner) => Parts([Component(None, v, inner)])
    case Message(inner) =>
      var envelope := lib.openMessage(v);
      if envelope.None? then Refused(BadEnvelope)
      else Parts([Component(Some(MessagePayload), envelope.value.payload, inner)])
    case Named(_) => Refused(Unsupported)
    case Other(_) => Refused(Unsupported)
  }

  function PairValues(count: nat, values: seq<Value>): (r: seq<(Value, Value)>)
    requires |values| == 2 * count
    ensures |r| == count && forall i | 0 <= i < count :: r[i] == (values[2 * i], values[2 * i + 1])
  {
    seq(count, i requires 0 <= i < count => (values[2 * i], values[2 * i + 1]))
  }

  function NameValues(fields: seq<FieldType>, values: seq<Value>): seq<(string, Value)>
    requires |fields| == |values|
  {
    seq(|fields|, i requires 0 <= i < |fields| => (fields[i].name, values[i]))
  }

  /** Puts the decoded components of `Split` together. */
  function Assemble(lib: Library, ty: Ty, v: HostValue, values: seq<Value>): Result<Value>
    requires Structural(ty) && Split(lib, ty, v).Parts? && |values| == |Split(lib, ty, v).parts|
  {
    match ty
    case SeqOf(kind, _) => Ok(SeqV(kind, values))
    case MapOf(_, _) => Ok(MapV(PairValues(|v.entries|, values)))
    case Tuple(_) => Ok(TupleV(values))
    case Record(fields) => Ok(RecordV(NameValues(fields, values)))
    case OptionOf(_) => Ok(SomeV(values[0]))
    case ResultOf(_, _) => Ok(VariantV(v.name, values))
    case Trust(wrapper, _) => Ok(TrustV(wrapper, values[0]))
    case Schema(_) => Ok(values[0])
    case Message(_) =>
      var envelope := lib.openMessage(v).value;
      if envelope.provenance.None? then Ok(MessageV(envelope.header, values[0], None))
      else
        var provenance := lib.openProvenance(envelope.provenance.value);
        if provenance.None? then Err(At(MessageProvenance, Because(BadProvenance)))
        else Ok(MessageV(envelope.header, values[0], provenance))
  }

  // -------------------------------------------------------- declarations

  /** The body a declaration supplies: its parameters (none means it keeps the caller's
      scope), the components to decode, and the variant chosen. */
  datatype Body = Body(params: Option<seq<string>>, parts: seq<Part>, variant: Option<string>)

  function FindVariant(variants: seq<Variant>, name: string): (r: Option<Variant>)
    ensures r.Some? ==> r.value in variants
  {
    if variants == [] then None
    else if variants[0].name == name then Some(variants[0])
    else FindVariant(variants[1..], name)
  }

  function EnumBody(store: Store, id: nat, args: seq<Ty>, v: HostValue): Result<Body> {
    if id !in store.layouts then Err(Because(NoLayout(id)))
    else
      var layout := store.layouts[id];
      if |args| != |layout.params| then Err(Because(EnumArity))
      else if !v.HVariant? then Err(Because(NotVariant))
      else
        var variant := FindVariant(layout.variants, v.name);
        if variant.None? then Err(Because(UnknownVariant(v.name)))
        else
          var fields := variant.value.fields;
          if |v.args| != |fields| then Err(Because(VariantArity(v.name)))
          else Ok(Body(Some(layout.params),
                       seq(|fields|, i requires 0 <= i < |fields| =>
                         Component(Some(VariantField(v.name, i)), v.args[i], fields[i])),
                       Some(v.name)))
  }

  function NominalBody(store: Store, id: nat, params: Option<seq<string>>, v: HostValue): Result<Body>
    requires id in store.nominals
  {
    var representation := store.nominals[id].representation;
    if representation.None? then Err(Because(NoRepresentation(id)))
    else Ok(Body(params, [Component(None, v, representation.value)], None))
  }

  function TypeArgs(ty: Ty): seq<Ty> {
    if ty.Applied? then ty.args else []
  }

  function Declared(store: Store, ty: Ty, v: HostValue): Result<Body>
    requires !Structural(ty)
  {
    match ty
    case Nominal(id) =>
      if id in store.nominals then NominalBody(store, id, None, v) else Err(Because(MissingType))
    case Enum(id) => EnumBody(store, id, [], v)
    case Applied(base, args) =>
      if base in store.enums then EnumBody(store, base, args, v)
      else if base !in store.nominals then Err(Because(NotNominal(base)))
      else if |store.nominals[base].params| != |args| then Err(Because(NominalArity(base)))
      else NominalBody(store, base, Some(store.nominals[base].params), v)
  }

  /** The nominal wrapper around a decoded body. */
  function Tagged(ty: Ty, body: Body, values: Result<seq<Value>>): Result<Value>
    requires values.Ok? && body.variant.None? ==> |values.value| == 1
  {
    if values.Err? then Err(values.error)
    else Ok(NominalV(ty, if body.variant.Some? then VariantV(body.variant.value, values.value) else values.value[0]))
  }

  // ------------------------------------------------------------ decoding

  predicate IsJson(store: Store, ty: Ty) {
    ty.Nominal? && store.json == Some(ty.id)
  }

  function DecodeJson(lib: Library, v: HostValue): Result<Value> {
    var document := lib.toJson(v);
    if document.Some? then Ok(JsonV(document.value)) else Err(Because(BadJson))
  }

  function Located<T>(place: Option<Place>, r: Result<T>): Result<T> {
    if r.Err? && place.Some? then Err(At(place.value, r.error)) else r
  }

  /** The first failure in order wins. */
  function Collect(first: Result<Value>, rest: Result<seq<Value>>): (r: Result<seq<Value>>)
    ensures r.Ok? ==> rest.Ok? && |r.value| == 1 + |rest.value|
  {
    if first.Err? then Err(first.error)
    else if rest.Err? then rest
    else Ok([first.value] + rest.value)
  }

  /** The decoder: `n` bounds how many declarations are unfolded on any path. */
  function Decode(n: nat, store: Store, lib: Library, v: HostValue, ty: Ty, env: Env): Result<Value>
    decreases n, env, ty, 1, 0
  {
    if ty.Named? && Lookup(env, ty.name).Some? then
      var (arg, scope) := Lookup(env, ty.name).value;
      Decode(n, store, lib, v, arg, scope)
    else if IsJson(store, ty) then DecodeJson(lib, v)
    else
      var layer := HostLayer(v);
      if layer.Err? then Err(layer.error)
      else if Structural(ty) then
        match Split(lib, ty, layer.value)
        case Finished(value) => Ok(value)
        case Refused(reason) => Err(Because(reason))
        case Parts(parts) =>
          var values := DecodeParts(n, store, lib, parts, env, ty);
          if values.Err? then Err(values.error) else Assemble(lib, ty, layer.value, values.value)
      else
        var tag := if ty.Applied? then ConcreteType(store, env, ty) else Some(ty);
        if tag.None? then Err(Because(NotMaterialized))
        else
          var body := Declared(store, ty, layer.value);
          if body.Err? then Err(body.error)
          else if n == 0 then Err(Because(OutOfFuel))
          else
            var inside := if body.value.params.None? then env else Apply(env, body.value.params.value, TypeArgs(ty));
            var values := DecodeParts(n - 1, store, lib, body.value.parts, inside, Holder(body.value.parts));
            Tagged(tag.value, body.value, values)
  }

  function DecodeParts(n: nat, store: Store, lib: Library, parts: seq<Part>, env: Env, ghost limit: Ty): (r: Result<seq<Value>>)
    requires Below(parts, limit)
    ensures r.Ok? ==> |r.value| == |parts|
    decreases n, env, limit, 0, |parts|
  {
    if parts == [] then Ok([])
    else if parts[0].Absent? then Err(Because(parts[0].reason))
    else
      Collect(Located(parts[0].place, Decode(n, store, lib, parts[0].value, parts[0].ty, env)),
              DecodeParts(n, store, lib, parts[1..], env, limit))
  }

  /** A type larger than every component, to bound the recursion over them. */
  ghost function Holder(parts: seq<Part>): (limit: Ty)
    ensures Below(parts, limit)
  {
    var tys := seq(|parts|, i requires 0 <= i < |parts| => if parts[i].Component? then parts[i].ty else IntegerLiteral);
    assert forall i | 0 <= i < |parts| :: parts[i].Component? ==> tys[i] < Tuple(tys);
    Tuple(tys)
  }
}
