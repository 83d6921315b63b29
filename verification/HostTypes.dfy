/** Checked types as the host decoder sees them, and its chained generic environments.

    A `TypeId` stands for the interned type it names, so types are trees here. Interning is
    kept as the predicate `interned`: substitution only finds types that already exist. */
module HostTypes {
  datatype Option<T> = None | Some(value: T)

  datatype Primitive =
    | BoolType | StringType | CharType | BytesType | UnitType
    | I8 | I16 | I32 | I64 | I128 | ISize
    | U8 | U16 | U32 | U64 | U128 | USize

  datatype SeqKind = ArrayKind | ListKind | SliceKind | SetKind

  datatype FieldType = FieldType(name: string, ty: Ty)

  datatype Ty =
    | Named(name: string)
    | Prim(primitive: Primitive)
    | IntegerLiteral
    | SeqOf(kind: SeqKind, elem: Ty)
    | MapOf(key: Ty, value: Ty)
    | Tuple(elems: seq<Ty>)
    | Record(fields: seq<FieldType>)
    | Nominal(id: nat)
    | Enum(id: nat)
    | Applied(base: nat, args: seq<Ty>)
    | OptionOf(inner: Ty)
    | ResultOf(ok: Ty, err: Ty)
    | Trust(wrapper: nat, inner: Ty)
    | Schema(inner: Ty)
    | Message(inner: Ty)
    | Other(args: seq<Ty>)

  datatype NominalType = NominalType(params: seq<string>, representation: Option<Ty>)

  datatype Variant = Variant(name: string, fields: seq<Ty>)

  datatype EnumLayout = EnumLayout(params: seq<string>, variants: seq<Variant>)

  /** The facts the checker hands over. Enum declarations may lack a layout. */
  datatype Store = Store(
    nominals: map<nat, NominalType>,
    enums: set<nat>,
    layouts: map<nat, EnumLayout>,
    json: Option<nat>,
    interned: Ty -> bool)

  // ---------------------------------------------------------- substitution

  function Subst(ty: Ty, bindings: map<string, Ty>): Ty {
    match ty
    case Named(name) => if name in bindings then bindings[name] else ty
    case Prim(_) => ty
    case IntegerLiteral => ty
    case SeqOf(kind, elem) => SeqOf(kind, Subst(elem, bindings))
    case MapOf(key, value) => MapOf(Subst(key, bindings), Subst(value, bindings))
    case Tuple(elems) => Tuple(SubstAll(elems, bindings))
    case Record(fields) =>
      Record(seq(|fields|, i requires 0 <= i < |fields| => FieldType(fields[i].name, Subst(fields[i].ty, bindings))))
    case Nominal(_) => ty
    case Enum(_) => ty
    case Applied(base, args) => Applied(base, SubstAll(args, bindings))
    case OptionOf(inner) => OptionOf(Subst(inner, bindings))
    case ResultOf(ok, err) => ResultOf(Subst(ok, bindings), Subst(err, bindings))
    case Trust(wrapper, inner) => Trust(wrapper, Subst(inner, bindings))
    case Schema(inner) => Schema(Subst(inner, bindings))
    case Message(inner) => Message(Subst(inner, bindings))
    case Other(args) => Other(SubstAll(args, bindings))
  }

  function SubstAll(tys: seq<Ty>, bindings: map<string, Ty>): (r: seq<Ty>)
    ensures |r| == |tys|
  {
    seq(|tys|, i requires 0 <= i < |tys| => Subst(tys[i], bindings))
  }

  /** Pairs of a parameter list and an argument list; a repeated name keeps its last argument. */
  function Bind(names: seq<string>, args: seq<Ty>): (bindings: map<string, Ty>)
    ensures forall name <- bindings :: name in names && bindings[name] in args
    ensures |names| <= |args| ==> forall name <- names :: name in bindings
  {
    if names == [] || args == [] then map[]
    else
      var n := (if |names| < |args| then |names| else |args|) - 1;
      Bind(names[..n], args[..n])[names[n] := args[n]]
  }

  // ---------------------------------------------------------- environments

  datatype Env = Root | Frame(parent: Env, bindings: map<string, Ty>)

  function Apply(parent: Env, names: seq<string>, args: seq<Ty>): Env {
    Frame(parent, Bind(names, args))
  }

  /** The nearest binding of a name, with the scope its argument was written in. */
  function Lookup(env: Env, name: string): (r: Option<(Ty, Env)>)
    ensures r.Some? ==> env.Frame? && r.value.1 < env
  {
    match env
    case Root => None
    case Frame(parent, bindings) =>
      if name in bindings then Some((bindings[name], parent)) else Lookup(parent, name)
  }

  /** The loop over the chain finds that binding. */
  method FindBinding(env: Env, name: string) returns (r: Option<(Ty, Env)>)
    ensures r == Lookup(env, name)
  {
    var frame := env;
    while frame.Frame?
      invariant Lookup(frame, name) == Lookup(env, name)
      decreases frame
    {
      if name in frame.bindings {
        return Some((frame.bindings[name], frame.parent));
      }
      frame := frame.parent;
    }
    return None;
  }

  // -------------------------------------------------------- concrete types

  /** A type with every binding of the environment put in, arguments first. */
  function Concrete(env: Env, ty: Ty): Ty
    decreases env, 0
  {
    match env
    case Root => ty
    case Frame(parent, bindings) => Subst(ty, ConcreteBindings(parent, bindings))
  }

  function ConcreteBindings(parent: Env, bindings: map<string, Ty>): map<string, Ty>
    decreases parent, 1
  {
    map name | name in bindings :: Concrete(parent, bindings[name])
  }

  /** Substitution finds only types that exist; at the root nothing is substituted. */
  predicate Found(store: Store, env: Env, ty: Ty)
    decreases env
  {
    match env
    case Root => true
    case Frame(parent, bindings) =>
      && (forall name <- bindings :: Found(store, parent, bindings[name]))
      && store.interned(Concrete(env, ty))
  }

  function ConcreteType(store: Store, env: Env, ty: Ty): Option<Ty> {
    if Found(store, env, ty) then Some(Concrete(env, ty)) else None
  }

  lemma ConcreteRoot(store: Store, ty: Ty)
    ensures Concrete(Root, ty) == ty && Found(store, Root, ty)
  {
  }

  lemma ConcreteFrame(store: Store, parent: Env, bindings: map<string, Ty>, ty: Ty)
    ensures Concrete(Frame(parent, bindings), ty) == Subst(ty, ConcreteBindings(parent, bindings))
    ensures Found(store, Frame(parent, bindings), ty) ==
            ((forall name <- bindings :: Found(store, parent, bindings[name]))
             && store.interned(Concrete(Frame(parent, bindings), ty)))
  {
  }

  lemma ConcreteBindingsAre(parent: Env, own: map<string, Ty>, bindings: map<string, Ty>)
    requires bindings.Keys == own.Keys && forall name <- bindings :: bindings[name] == Concrete(parent, own[name])
    ensures bindings == ConcreteBindings(parent, own)
  {
  }

  /** The recursion that fills a binding map computes it. */
  method FindConcreteType(store: Store, env: Env, ty: Ty) returns (r: Option<Ty>)
    ensures r == ConcreteType(store, env, ty)
    decreases env
  {
    hide Subst, Concrete, Found, ConcreteBindings;
    match env
    case Root =>
      ConcreteRoot(store, ty);
      return Some(ty);
    case Frame(parent, own) =>
      ConcreteFrame(store, parent, own, ty);
      var bindings: map<string, Ty> := map[];
      var names := own.Keys;
      while names != {}
        invariant names <= own.Keys && bindings.Keys == own.Keys - names
        invariant forall name <- bindings :: bindings[name] == Concrete(parent, own[name])
        invariant forall name <- bindings :: Found(store, parent, own[name])
        decreases |names|
      {
        var name :| name in names;
        var arg := FindConcreteType(store, parent, own[name]);
        if arg.None? {
          return None;
        }
        bindings := bindings[name := arg.value];
        names := names - {name};
      }
      ConcreteBindingsAre(parent, own, bindings);
      var concrete := Subst(ty, bindings);
      return if store.interned(concrete) then Some(concrete) else None;
  }
}
