/** Lazy environments agree with eager substitution. */
module HostScoping {
  import opened HostTypes
  import opened HostDecode

  // ------------------------------------------------------ eager reference

  /** Decoding with no environment: arguments are substituted before a body is entered. */
  function Eager(n: nat, store: Store, lib: Library, v: HostValue, ty: Ty): Result<Value>
    decreases n, ty, 1, 0
  {
    if IsJson(store, ty) then DecodeJson(lib, v)
    else
      var layer := HostLayer(v);
      if layer.Err? then Err(layer.error)
      else if Structural(ty) then
        match Split(lib, ty, layer.value)
        case Finished(value) => Ok(value)
        case Refused(reason) => Err(Because(reason))
        case Parts(parts) =>
          var values := EagerParts(n, store, lib, parts, ty);
          if values.Err? then Err(values.error) else Assemble(lib, ty, layer.value, values.value)
      else if ty.Applied? && !store.interned(ty) then Err(Because(NotMaterialized))
      else
        var body := Declared(store, ty, layer.value);
        if body.Err? then Err(body.error)
        else if n == 0 then Err(Because(OutOfFuel))
        else
          var parts := SubstParts(body.value.parts, BodyBindings(body.value, ty));
          var values := EagerParts(n - 1, store, lib, parts, Holder(parts));
          Tagged(ty, body.value, values)
  }

  function EagerParts(n: nat, store: Store, lib: Library, parts: seq<Part>, ghost limit: Ty): (r: Result<seq<Value>>)
    requires Below(parts, limit)
    ensures r.Ok? ==> |r.value| == |parts|
    decreases n, limit, 0, |parts|
  {
    if parts == [] then Ok([])
    else if parts[0].Absent? then Err(Because(parts[0].reason))
    else
      Collect(Located(parts[0].place, Eager(n, store, lib, parts[0].value, parts[0].ty)),
              EagerParts(n, store, lib, parts[1..], limit))
  }

  function BodyBindings(body: Body, ty: Ty): map<string, Ty> {
    if body.params.None? then map[] else Bind(body.params.value, TypeArgs(ty))
  }

  function SubstPart(p: Part, bindings: map<string, Ty>): Part {
    if p.Component? then p.(ty := Subst(p.ty, bindings)) else p
  }

  function SubstParts(parts: seq<Part>, bindings: map<string, Ty>): seq<Part> {
    seq(|parts|, i requires 0 <= i < |parts| => SubstPart(parts[i], bindings))
  }

  // ------------------------------------------------------------- closedness

  /** Every parameter named in `ty` is one of `names`, and no generic nominal is left unapplied. */
  predicate Closed(store: Store, ty: Ty, names: set<string>) {
    match ty
    case Named(name) => name in names
    case Prim(_) => true
    case IntegerLiteral => true
    case SeqOf(_, elem) => Closed(store, elem, names)
    case MapOf(key, value) => Closed(store, key, names) && Closed(store, value, names)
    case Tuple(elems) => forall i | 0 <= i < |elems| :: Closed(store, elems[i], names)
    case Record(fields) => forall i | 0 <= i < |fields| :: Closed(store, fields[i].ty, names)
    case Nominal(id) => id in store.nominals ==> store.nominals[id].params == []
    case Enum(_) => true
    case Applied(_, args) => forall i | 0 <= i < |args| :: Closed(store, args[i], names)
    case OptionOf(inner) => Closed(store, inner, names)
    case ResultOf(ok, err) => Closed(store, ok, names) && Closed(store, err, names)
    case Trust(_, inner) => Closed(store, inner, names)
    case Schema(inner) => Closed(store, inner, names)
    case Message(inner) => Closed(store, inner, names)
    case Other(args) => forall i | 0 <= i < |args| :: Closed(store, args[i], names)
  }

  predicate ClosedBody(store: Store, params: seq<string>, ty: Ty) {
    store.interned(ty) && Closed(store, ty, set name <- params)
  }

  /** Declarations mention only their own parameters, and a type that exists has its parts. */
  ghost predicate ClosedStore(store: Store) {
    && (forall id <- store.nominals :: store.nominals[id].representation.Some? ==>
          ClosedBody(store, store.nominals[id].params, store.nominals[id].representation.value))
    && (forall id <- store.layouts, variant <- store.layouts[id].variants, ty <- variant.fields ::
          ClosedBody(store, store.layouts[id].params, ty))
    && (forall ty: Ty, child: Ty | store.interned(ty) && child in Children(ty) :: store.interned(child))
  }

  function Children(ty: Ty): seq<Ty> {
    match ty
    case SeqOf(_, elem) => [elem]
    case MapOf(key, value) => [key, value]
    case Tuple(elems) => elems
    case Record(fields) => seq(|fields|, i requires 0 <= i < |fields| => fields[i].ty)
    case Applied(_, args) => args
    case OptionOf(inner) => [inner]
    case ResultOf(ok, err) => [ok, err]
    case Trust(_, inner) => [inner]
    case Schema(inner) => [inner]
    case Message(inner) => [inner]
    case Other(args) => args
    case _ => []
  }

  /** The innermost frame binds the name, or no frame does. */
  predicate OwnOrNone(env: Env, name: string) {
    (env.Frame? && name in env.bindings) || Lookup(env, name).None?
  }

  ghost predicate Settled(env: Env, names: set<string>) {
    forall name <- names :: OwnOrNone(env, name)
  }

  /** `ty` makes sense in `env`: it exists at the root, and elsewhere each parameter it names
      is bound by the innermost frame or by no frame at all. */
  ghost predicate InScope(store: Store, ty: Ty, env: Env) {
    match env
    case Root => store.interned(ty)
    case Frame(_, _) => exists names :: Settled(env, names) && Closed(store, ty, names)
  }

  ghost predicate GoodEnv(store: Store, env: Env) {
    match env
    case Root => true
    case Frame(parent, bindings) =>
      && GoodEnv(store, parent)
      && forall name <- bindings ::
           && InScope(store, bindings[name], parent)
           && Found(store, parent, bindings[name])
           && store.interned(Concrete(parent, bindings[name]))
  }

  // ------------------------------------------------------- substitution laws

  lemma {:induction false} SubstEmpty(ty: Ty)
    ensures Subst(ty, map[]) == ty
  {
    match ty
    case SeqOf(_, elem) => SubstEmpty(elem);
    case MapOf(key, value) => SubstEmpty(key); SubstEmpty(value);
    case Tuple(elems) => SubstAllEmpty(elems);
    case Record(fields) =>
      forall i | 0 <= i < |fields| ensures Subst(fields[i].ty, map[]) == fields[i].ty {
        SubstEmpty(fields[i].ty);
      }
      assert Subst(ty, map[]).fields == fields;
    case Applied(_, args) => SubstAllEmpty(args);
    case OptionOf(inner) => SubstEmpty(inner);
    case ResultOf(ok, err) => SubstEmpty(ok); SubstEmpty(err);
    case Trust(_, inner) => SubstEmpty(inner);
    case Schema(inner) => SubstEmpty(inner);
    case Message(inner) => SubstEmpty(inner);
    case Other(args) => SubstAllEmpty(args);
    case _ =>
  }

  lemma {:induction false} SubstAllEmpty(tys: seq<Ty>)
    ensures SubstAll(tys, map[]) == tys
  {
    forall i | 0 <= i < |tys| ensures Subst(tys[i], map[]) == tys[i] {
      SubstEmpty(tys[i]);
    }
  }

  lemma {:induction false} SubstClosed(store: Store, ty: Ty, names: set<string>, bindings: map<string, Ty>)
    requires Closed(store, ty, names) && names !! bindings.Keys
    ensures Subst(ty, bindings) == ty
  {
    forall child | child in Children(ty) ensures Subst(child, bindings) == child {
      ChildrenSmaller(ty);
      ChildClosed(store, ty, child, names);
      SubstClosed(store, child, names, bindings);
    }
    SubstFixed(ty, bindings);
  }

  lemma ChildrenSmaller(ty: Ty)
    ensures forall child <- Children(ty) :: child < ty
  {
  }

  lemma ChildClosed(store: Store, ty: Ty, child: Ty, names: set<string>)
    requires Closed(store, ty, names) && child in Children(ty)
    ensures Closed(store, child, names)
  {
  }

  lemma SubstFixed(ty: Ty, bindings: map<string, Ty>)
    requires forall child <- Children(ty) :: Subst(child, bindings) == child
    requires ty.Named? ==> ty.name !in bindings
    ensures Subst(ty, bindings) == ty
  {
    match ty
    case SeqOf(_, elem) => assert elem in Children(ty);
    case MapOf(key, value) => assert key in Children(ty) && value in Children(ty);
    case Tuple(elems) => assert forall i | 0 <= i < |elems| :: elems[i] in Children(ty);
    case Record(fields) =>
      forall i | 0 <= i < |fields| ensures Subst(fields[i].ty, bindings) == fields[i].ty {
        assert Children(ty)[i] == fields[i].ty;
      }
      assert Subst(ty, bindings).fields == fields;
    case Applied(_, args) => assert forall i | 0 <= i < |args| :: args[i] in Children(ty);
    case OptionOf(inner) => assert inner in Children(ty);
    case ResultOf(ok, err) => assert ok in Children(ty) && err in Children(ty);
    case Trust(_, inner) => assert inner in Children(ty);
    case Schema(inner) => assert inner in Children(ty);
    case Message(inner) => assert inner in Children(ty);
    case Other(args) => assert forall i | 0 <= i < |args| :: args[i] in Children(ty);
    case _ =>
  }

  /** The substitution an environment amounts to. */
  function Sigma(env: Env): map<string, Ty> {
    match env
    case Root => map[]
    case Frame(parent, bindings) => ConcreteBindings(parent, bindings)
  }

  lemma ConcreteIsSubst(env: Env, ty: Ty)
    ensures Concrete(env, ty) == Subst(ty, Sigma(env))
  {
    SubstEmpty(ty);
  }

  function SubstMap(bound: map<string, Ty>, bindings: map<string, Ty>): map<string, Ty> {
    map name | name in bound :: Subst(bound[name], bindings)
  }

  lemma SubstMapUpdate(bound: map<string, Ty>, name: string, ty: Ty, bindings: map<string, Ty>)
    ensures SubstMap(bound[name := ty], bindings) == SubstMap(bound, bindings)[name := Subst(ty, bindings)]
  {
    hide Subst;
  }

  lemma BindLast(names: seq<string>, args: seq<Ty>)
    ensures names == [] || args == [] ==> Bind(names, args) == map[]
    ensures names != [] && args != [] ==>
              var n := (if |names| < |args| then |names| else |args|) - 1;
              Bind(names, args) == Bind(names[..n], args[..n])[names[n] := args[n]]
  {
  }

  lemma SubstAllPrefix(tys: seq<Ty>, n: nat, bindings: map<string, Ty>)
    requires n < |tys|
    ensures SubstAll(tys, bindings)[..n] == SubstAll(tys[..n], bindings)
    ensures SubstAll(tys, bindings)[n] == Subst(tys[n], bindings)
  {
    hide Subst;
  }

  lemma {:induction false} BindSubst(names: seq<string>, args: seq<Ty>, bindings: map<string, Ty>)
    ensures Bind(names, SubstAll(args, bindings)) == SubstMap(Bind(names, args), bindings)
  {
    hide Subst, SubstMap, SubstAll, Bind;
    var after := SubstAll(args, bindings);
    BindLast(names, args);
    BindLast(names, after);
    if names != [] && args != [] {
      var n := (if |names| < |args| then |names| else |args|) - 1;
      BindSubst(names[..n], args[..n], bindings);
      SubstAllPrefix(args, n, bindings);
      SubstMapUpdate(Bind(names[..n], args[..n]), names[n], args[n], bindings);
    } else {
      EmptySubstMap(bindings);
    }
  }

  lemma EmptySubstMap(bindings: map<string, Ty>)
    ensures SubstMap(map[], bindings) == map[]
  {
  }

  /** Entering a body lazily or eagerly puts in the same arguments. */
  lemma FrameSigma(env: Env, names: seq<string>, args: seq<Ty>)
    ensures Sigma(Apply(env, names, args)) == Bind(names, SubstAll(args, Sigma(env)))
  {
    BindSubst(names, args, Sigma(env));
    var bound := Bind(names, args);
    forall name | name in bound ensures Concrete(env, bound[name]) == Subst(bound[name], Sigma(env)) {
      ConcreteIsSubst(env, bound[name]);
    }
  }

  // --------------------------------------------------- one layer, substituted

  function SubstLayer(layer: Layer, bindings: map<string, Ty>): Layer {
    if layer.Parts? then Parts(SubstParts(layer.parts, bindings)) else layer
  }

  lemma SplitSubst(lib: Library, ty: Ty, v: HostValue, bindings: map<string, Ty>)
    requires Structural(ty) && !ty.Named?
    ensures Structural(Subst(ty, bindings))
    ensures Split(lib, Subst(ty, bindings), v) == SubstLayer(Split(lib, ty, v), bindings)
  {
    hide DecodePrimitive, DecodeLiteral, RecordLayer;
    match ty
    case Record(fields) =>
      assert Subst(ty, bindings) == Record(SubstFields(fields, bindings));
      if v.HRecord? {
        RecordSubst(v.fields, fields, bindings);
      }
    case SeqOf(_, _) => SplitSeqSubst(lib, ty, v, bindings);
    case MapOf(_, _) => SplitMapSubst(lib, ty, v, bindings);
    case Tuple(_) => SplitTupleSubst(lib, ty, v, bindings);
    case Prim(_) =>
    case IntegerLiteral =>
    case Other(_) =>
    case OptionOf(_) => SplitOneSubst(lib, ty, v, bindings);
    case ResultOf(_, _) => SplitOneSubst(lib, ty, v, bindings);
    case Trust(_, _) => SplitOneSubst(lib, ty, v, bindings);
    case Schema(_) => SplitOneSubst(lib, ty, v, bindings);
    case Message(_) => SplitOneSubst(lib, ty, v, bindings);
  }

  lemma SplitOneSubst(lib: Library, ty: Ty, v: HostValue, bindings: map<string, Ty>)
    requires ty.OptionOf? || ty.ResultOf? || ty.Trust? || ty.Schema? || ty.Message?
    ensures Structural(Subst(ty, bindings))
    ensures Split(lib, Subst(ty, bindings), v) == SubstLayer(Split(lib, ty, v), bindings)
  {
    var layer := Split(lib, ty, v);
    var after := Split(lib, Subst(ty, bindings), v);
    if layer.Parts? {
      assert after.Parts? && |layer.parts| == 1 && |after.parts| == 1;
      assert after.parts[0] == SubstPart(layer.parts[0], bindings);
      assert after.parts == SubstParts(layer.parts, bindings);
    }
  }

  lemma SplitSeqSubst(lib: Library, ty: Ty, v: HostValue, bindings: map<string, Ty>)
    requires ty.SeqOf?
    ensures Split(lib, Subst(ty, bindings), v) == SubstLayer(Split(lib, ty, v), bindings)
  {
    var subst := Subst(ty, bindings);
    assert subst == SeqOf(ty.kind, Subst(ty.elem, bindings));
    hide Subst;
    if v.HList? {
      assert Split(lib, subst, v).parts == SubstParts(Split(lib, ty, v).parts, bindings);
    }
  }

  lemma SplitMapSubst(lib: Library, ty: Ty, v: HostValue, bindings: map<string, Ty>)
    requires ty.MapOf?
    ensures Split(lib, Subst(ty, bindings), v) == SubstLayer(Split(lib, ty, v), bindings)
  {
    var subst := Subst(ty, bindings);
    assert subst == MapOf(Subst(ty.key, bindings), Subst(ty.value, bindings));
    hide Subst;
    if v.HMap? {
      assert Split(lib, subst, v).parts == SubstParts(Split(lib, ty, v).parts, bindings);
    }
  }

  lemma SplitTupleSubst(lib: Library, ty: Ty, v: HostValue, bindings: map<string, Ty>)
    requires ty.Tuple?
    ensures Split(lib, Subst(ty, bindings), v) == SubstLayer(Split(lib, ty, v), bindings)
  {
    var subst := Subst(ty, bindings);
    assert subst == Tuple(SubstAll(ty.elems, bindings));
    assert forall i | 0 <= i < |ty.elems| :: subst.elems[i] == Subst(ty.elems[i], bindings);
    hide Subst;
    if v.HList? && |v.items| == |ty.elems| {
      assert Split(lib, subst, v).parts == SubstParts(Split(lib, ty, v).parts, bindings);
    }
  }

  function SubstFields(fields: seq<FieldType>, bindings: map<string, Ty>): seq<FieldType> {
    seq(|fields|, i requires 0 <= i < |fields| => FieldType(fields[i].name, Subst(fields[i].ty, bindings)))
  }

  lemma SubstFieldNames(fields: seq<FieldType>, i: nat, bindings: map<string, Ty>)
    requires i <= |fields|
    ensures FieldNames(SubstFields(fields, bindings)[..i]) == FieldNames(fields[..i])
  {
    var left, right := SubstFields(fields, bindings)[..i], fields[..i];
    assert forall k | 0 <= k < i :: left[k].name == right[k].name;
  }

  lemma RecordSubst(given: seq<(string, HostValue)>, fields: seq<FieldType>, bindings: map<string, Ty>)
    ensures RecordLayer(given, SubstFields(fields, bindings)) == SubstLayer(RecordLayer(given, fields), bindings)
  {
    var subst := SubstFields(fields, bindings);
    SubstFieldNames(fields, |fields|, bindings);
    assert subst[..|fields|] == subst && fields[..|fields|] == fields;
    forall i | 0 <= i < |fields|
      ensures FieldPart(given, subst, i) == SubstPart(FieldPart(given, fields, i), bindings)
    {
      SubstFieldNames(fields, i, bindings);
    }
  }

  lemma AssembleSubst(lib: Library, ty: Ty, v: HostValue, values: seq<Value>, bindings: map<string, Ty>)
    requires Structural(ty) && !ty.Named?
    requires Split(lib, ty, v).Parts? && |values| == |Split(lib, ty, v).parts|
    ensures Structural(Subst(ty, bindings)) && Split(lib, Subst(ty, bindings), v).Parts?
    ensures |Split(lib, Subst(ty, bindings), v).parts| == |values|
    ensures Assemble(lib, Subst(ty, bindings), v, values) == Assemble(lib, ty, v, values)
  {
    SplitSubst(lib, ty, v, bindings);
    hide Split;
    match ty
    case Record(fields) =>
      assert Subst(ty, bindings) == Record(SubstFields(fields, bindings));
      assert NameValues(SubstFields(fields, bindings), values) == NameValues(fields, values);
    case _ =>
  }

  lemma SplitChildren(lib: Library, ty: Ty, v: HostValue)
    requires Structural(ty) && Split(lib, ty, v).Parts?
    ensures forall p <- Split(lib, ty, v).parts :: p.Component? ==> p.ty in Children(ty)
  {
    match ty
    case Record(fields) =>
      forall i | 0 <= i < |fields| ensures fields[i].ty in Children(ty) {
        assert Children(ty)[i] == fields[i].ty;
      }
    case _ =>
  }

  lemma ChildInScope(store: Store, ty: Ty, child: Ty, env: Env)
    requires ClosedStore(store) && InScope(store, ty, env) && child in Children(ty)
    ensures InScope(store, child, env)
  {
    if env.Frame? {
      var names :| Settled(env, names) && Closed(store, ty, names);
      ChildClosed(store, ty, child, names);
    }
  }

  lemma DeclaredSubst(store: Store, ty: Ty, v: HostValue, bindings: map<string, Ty>)
    requires !Structural(ty)
    ensures !Structural(Subst(ty, bindings))
    ensures Declared(store, Subst(ty, bindings), v) == Declared(store, ty, v)
    ensures TypeArgs(Subst(ty, bindings)) == SubstAll(TypeArgs(ty), bindings)
  {
  }

  /** The scope a body is written in. */
  function BodyParams(store: Store, ty: Ty, body: Body): seq<string> {
    if body.params.Some? then body.params.value
    else if ty.Nominal? && ty.id in store.nominals then store.nominals[ty.id].params
    else []
  }

  lemma DeclaredClosed(store: Store, ty: Ty, v: HostValue)
    requires ClosedStore(store) && !Structural(ty) && Declared(store, ty, v).Ok?
    ensures var body := Declared(store, ty, v).value;
            && (body.params.None? ==> ty.Nominal?)
            && (body.params.Some? ==> |body.params.value| == |TypeArgs(ty)|)
            && (forall p <- body.parts :: p.Component? && ClosedBody(store, BodyParams(store, ty, body), p.ty))
  {
  }

  /** The environment a body is decoded in is good, and the body makes sense there. */
  lemma EnterBody(store: Store, ty: Ty, v: HostValue, env: Env)
    requires ClosedStore(store) && GoodEnv(store, env) && InScope(store, ty, env)
    requires !Structural(ty) && Declared(store, ty, v).Ok?
    requires ty.Applied? ==> Found(store, env, ty)
    ensures var body := Declared(store, ty, v).value;
            var inside := Inside(body, ty, env);
            && GoodEnv(store, inside)
            && AllInScope(store, body.parts, inside)
            && SubstParts(body.parts, Sigma(inside)) == SubstParts(body.parts, BodyBindings(body, Concrete(env, ty)))
  {
    var body := Declared(store, ty, v).value;
    if body.params.None? {
      EnterSame(store, ty, v, env);
    } else {
      EnterApplied(store, ty, v, env);
    }
  }

  /** A body that keeps the caller's scope. */
  lemma EnterSame(store: Store, ty: Ty, v: HostValue, env: Env)
    requires ClosedStore(store) && GoodEnv(store, env) && InScope(store, ty, env)
    requires !Structural(ty) && Declared(store, ty, v).Ok? && Declared(store, ty, v).value.params.None?
    ensures var body := Declared(store, ty, v).value;
            && AllInScope(store, body.parts, env)
            && SubstParts(body.parts, Sigma(env)) == SubstParts(body.parts, map[])
  {
    DeclaredClosed(store, ty, v);
    var body := Declared(store, ty, v).value;
    hide Declared, Subst, Sigma;
    forall p | p in body.parts ensures InScope(store, p.ty, env) && Subst(p.ty, Sigma(env)) == Subst(p.ty, map[]) {
      SubstEmpty(p.ty);
      if env.Frame? {
        assert ClosedBody(store, BodyParams(store, ty, body), p.ty);
        var none: seq<string> := [];
        assert (set name <- none) == {} && Settled(env, {});
        SubstClosed(store, p.ty, {}, Sigma(env));
      }
    }
  }

  /** A body in a frame of its own parameters. */
  lemma EnterApplied(store: Store, ty: Ty, v: HostValue, env: Env)
    requires ClosedStore(store) && GoodEnv(store, env) && InScope(store, ty, env)
    requires !Structural(ty) && Declared(store, ty, v).Ok? && Declared(store, ty, v).value.params.Some?
    requires ty.Applied? ==> Found(store, env, ty)
    ensures var body := Declared(store, ty, v).value;
            var inside := Inside(body, ty, env);
            && GoodEnv(store, inside)
            && AllInScope(store, body.parts, inside)
            && SubstParts(body.parts, Sigma(inside)) == SubstParts(body.parts, BodyBindings(body, Concrete(env, ty)))
  {
    DeclaredClosed(store, ty, v);
    var body := Declared(store, ty, v).value;
    var params, args := body.params.value, TypeArgs(ty);
    var inside := Apply(env, params, args);
    forall name | name in inside.bindings
      ensures InScope(store, inside.bindings[name], env)
      ensures Found(store, env, inside.bindings[name]) && store.interned(Concrete(env, inside.bindings[name]))
    {
      GoodArgument(store, ty, inside.bindings[name], env);
    }
    ConcreteIsSubst(env, ty);
    DeclaredSubst(store, ty, v, Sigma(env));
    FrameSigma(env, params, args);
    assert (set name <- params) == inside.bindings.Keys && Settled(inside, inside.bindings.Keys);
  }

  lemma GoodArgument(store: Store, ty: Ty, arg: Ty, env: Env)
    requires ClosedStore(store) && GoodEnv(store, env) && InScope(store, ty, env)
    requires ty.Applied? && arg in ty.args && Found(store, env, ty)
    ensures InScope(store, arg, env) && Found(store, env, arg) && store.interned(Concrete(env, arg))
  {
    ChildInScope(store, ty, arg, env);
    if env.Frame? {
      ConcreteIsSubst(env, ty);
      ConcreteIsSubst(env, arg);
      var i :| 0 <= i < |ty.args| && ty.args[i] == arg;
      assert SubstAll(ty.args, Sigma(env))[i] in Children(Concrete(env, ty));
    }
  }

  // ---------------------------------------------------------- agreement

  /** Reading arguments lazily in the scope they were written in gives the value, the
      nominal tags, or the error that decoding the substituted type gives. */
  lemma {:induction false} Agree(n: nat, store: Store, lib: Library, v: HostValue, ty: Ty, env: Env)
    requires ClosedStore(store) && GoodEnv(store, env) && InScope(store, ty, env)
    ensures Decode(n, store, lib, v, ty, env) == Eager(n, store, lib, v, Concrete(env, ty))
    decreases n, env, ty, 2, 0
  {
    hide ClosedStore;
    ConcreteIsSubst(env, ty);
    if ty.Named? {
      if env.Frame? && ty.name in env.bindings {
        Agree(n, store, lib, v, env.bindings[ty.name], env.parent);
      }
    } else if !IsJson(store, ty) && HostLayer(v).Ok? {
      var inner := HostLayer(v).value;
      if Structural(ty) {
        AgreeStructural(n, store, lib, v, ty, env);
      } else {
        AgreeDeclared(n, store, lib, v, ty, env);
      }
    }
  }

  lemma {:induction false} AgreeStructural(n: nat, store: Store, lib: Library, v: HostValue, ty: Ty, env: Env)
    requires ClosedStore(store) && GoodEnv(store, env) && InScope(store, ty, env)
    requires Structural(ty) && !ty.Named? && HostLayer(v).Ok?
    ensures Decode(n, store, lib, v, ty, env) == Eager(n, store, lib, v, Concrete(env, ty))
    decreases n, env, ty, 1, 0
  {
    hide *;
    var inner := HostLayer(v).value;
    var concrete := Concrete(env, ty);
    ConcreteIsSubst(env, ty);
    SplitSubst(lib, ty, inner, Sigma(env));
    SubstLayerShape(Split(lib, ty, inner), Sigma(env));
    DecodeStructural(n, store, lib, v, ty, env);
    EagerStructural(n, store, lib, v, concrete);
    if Split(lib, ty, inner).Parts? {
      var parts := Split(lib, ty, inner).parts;
      SplitChildren(lib, ty, inner);
      PartsInScope(store, ty, parts, env);
      AgreeParts(n, store, lib, parts, env, ty, concrete);
      var values := DecodeParts(n, store, lib, parts, env, ty);
      if values.Ok? {
        AssembleSubst(lib, ty, inner, values.value, Sigma(env));
      }
      AssembledEither(lib, ty, inner, values);
      AssembledEither(lib, concrete, inner, values);
    }
  }

  lemma AssembledEither(lib: Library, ty: Ty, v: HostValue, values: Result<seq<Value>>)
    requires Structural(ty) && Split(lib, ty, v).Parts?
    requires values.Ok? ==> |values.value| == |Split(lib, ty, v).parts|
    ensures Assembled(lib, ty, v, values)
         == if values.Err? then Err(values.error) else Assemble(lib, ty, v, values.value)
  {
    hide Split, Assemble;
  }

  lemma PartsInScope(store: Store, ty: Ty, parts: seq<Part>, env: Env)
    requires ClosedStore(store) && InScope(store, ty, env)
    requires forall p <- parts :: p.Component? ==> p.ty in Children(ty)
    ensures AllInScope(store, parts, env)
  {
    hide ClosedStore, InScope, Children;
    forall p | p in parts && p.Component? ensures InScope(store, p.ty, env) {
      ChildInScope(store, ty, p.ty, env);
    }
  }

  lemma SubstLayerShape(layer: Layer, bindings: map<string, Ty>)
    ensures SubstLayer(layer, bindings).Parts? == layer.Parts?
    ensures layer.Parts? ==> SubstLayer(layer, bindings).parts == SubstParts(layer.parts, bindings)
    ensures !layer.Parts? ==> SubstLayer(layer, bindings) == layer
  {
  }

  function Assembled(lib: Library, ty: Ty, v: HostValue, values: Result<seq<Value>>): Result<Value>
    requires Structural(ty) && Split(lib, ty, v).Parts?
    requires values.Ok? ==> |values.value| == |Split(lib, ty, v).parts|
  {
    if values.Err? then Err(values.error) else Assemble(lib, ty, v, values.value)
  }

  lemma DecodeStructural(n: nat, store: Store, lib: Library, v: HostValue, ty: Ty, env: Env)
    requires Structural(ty) && !ty.Named? && HostLayer(v).Ok?
    ensures var layer := Split(lib, ty, HostLayer(v).value);
            Decode(n, store, lib, v, ty, env)
            == if layer.Finished? then Ok(layer.value)
               else if layer.Refused? then Err(Because(layer.reason))
               else Assembled(lib, ty, HostLayer(v).value, DecodeParts(n, store, lib, layer.parts, env, ty))
  {
    hide Split, HostLayer, DecodeParts, Assemble;
  }

  lemma EagerStructural(n: nat, store: Store, lib: Library, v: HostValue, ty: Ty)
    requires Structural(ty) && HostLayer(v).Ok?
    ensures var layer := Split(lib, ty, HostLayer(v).value);
            Eager(n, store, lib, v, ty)
            == if layer.Finished? then Ok(layer.value)
               else if layer.Refused? then Err(Because(layer.reason))
               else Assembled(lib, ty, HostLayer(v).value, EagerParts(n, store, lib, layer.parts, ty))
  {
    hide Split, HostLayer, EagerParts, Assemble;
  }

  lemma {:induction false} AgreeDeclared(n: nat, store: Store, lib: Library, v: HostValue, ty: Ty, env: Env)
    requires ClosedStore(store) && GoodEnv(store, env) && InScope(store, ty, env)
    requires !Structural(ty) && !IsJson(store, ty) && HostLayer(v).Ok?
    ensures Decode(n, store, lib, v, ty, env) == Eager(n, store, lib, v, Concrete(env, ty))
    decreases n, env, ty, 1, 0
  {
    hide *;
    var inner := HostLayer(v).value;
    ConcreteIsSubst(env, ty);
    DeclaredSubst(store, ty, inner, Sigma(env));
    FoundExactly(store, ty, env);
    TagKept(store, ty, Sigma(env));
    DecodeDeclared(n, store, lib, v, ty, env);
    EagerDeclared(n, store, lib, v, Concrete(env, ty));
    if (ty.Applied? ==> Found(store, env, ty)) && Declared(store, ty, inner).Ok? && n > 0 {
      EnterBody(store, ty, inner, env);
      var body := Declared(store, ty, inner).value;
      var inside := Inside(body, ty, env);
      var parts := SubstParts(body.parts, Sigma(inside));
      AgreeParts(n - 1, store, lib, body.parts, inside, Holder(body.parts), Holder(parts));
    }
  }

  /** The scope of a declaration's body. */
  function Inside(body: Body, ty: Ty, env: Env): Env {
    if body.params.None? then env else Apply(env, body.params.value, TypeArgs(ty))
  }

  lemma DecodeDeclared(n: nat, store: Store, lib: Library, v: HostValue, ty: Ty, env: Env)
    requires !Structural(ty) && !IsJson(store, ty) && HostLayer(v).Ok?
    ensures var declared := Declared(store, ty, HostLayer(v).value);
            Decode(n, store, lib, v, ty, env)
            == if ty.Applied? && !Found(store, env, ty) then Err(Because(NotMaterialized))
               else if declared.Err? then Err(declared.error)
               else if n == 0 then Err(Because(OutOfFuel))
               else Tagged(if ty.Applied? then Concrete(env, ty) else ty, declared.value,
                           DecodeParts(n - 1, store, lib, declared.value.parts, Inside(declared.value, ty, env), Holder(declared.value.parts)))
  {
    hide Declared, HostLayer, Found, Concrete, Holder, DecodeParts, Apply;
  }

  lemma EagerDeclared(n: nat, store: Store, lib: Library, v: HostValue, ty: Ty)
    requires !Structural(ty) && !IsJson(store, ty) && HostLayer(v).Ok?
    ensures var declared := Declared(store, ty, HostLayer(v).value);
            Eager(n, store, lib, v, ty)
            == if ty.Applied? && !store.interned(ty) then Err(Because(NotMaterialized))
               else if declared.Err? then Err(declared.error)
               else if n == 0 then Err(Because(OutOfFuel))
               else
                 var parts := SubstParts(declared.value.parts, BodyBindings(declared.value, ty));
                 Tagged(ty, declared.value, EagerParts(n - 1, store, lib, parts, Holder(parts)))
  {
    hide Declared, HostLayer, SubstParts, Holder, EagerParts, BodyBindings;
  }

  lemma FoundExactly(store: Store, ty: Ty, env: Env)
    requires GoodEnv(store, env) && InScope(store, ty, env)
    ensures Found(store, env, ty) <==> store.interned(Concrete(env, ty))
  {
  }

  lemma TagKept(store: Store, ty: Ty, bindings: map<string, Ty>)
    requires !Structural(ty)
    ensures !Structural(Subst(ty, bindings)) && !Subst(ty, bindings).Named?
    ensures IsJson(store, Subst(ty, bindings)) == IsJson(store, ty)
    ensures Subst(ty, bindings).Applied? == ty.Applied?
    ensures !ty.Applied? ==> Subst(ty, bindings) == ty
  {
  }

  ghost predicate AllInScope(store: Store, parts: seq<Part>, env: Env) {
    forall p <- parts :: p.Component? ==> InScope(store, p.ty, env)
  }

  lemma InScopeTail(store: Store, parts: seq<Part>, env: Env)
    requires parts != [] && AllInScope(store, parts, env)
    ensures AllInScope(store, parts[1..], env) && (parts[0].Component? ==> InScope(store, parts[0].ty, env))
  {
    hide InScope;
    assert parts[0] in parts;
  }

  lemma BelowTail(parts: seq<Part>, limit: Ty)
    requires Below(parts, limit)
    ensures parts != [] ==> Below(parts[1..], limit) && (parts[0].Component? ==> parts[0].ty < limit)
  {
  }

  lemma SubstPartsHead(parts: seq<Part>, bindings: map<string, Ty>)
    requires parts != []
    ensures var after := SubstParts(parts, bindings);
            && after != [] && after[1..] == SubstParts(parts[1..], bindings)
            && after[0] == if parts[0].Absent? then parts[0] else parts[0].(ty := Subst(parts[0].ty, bindings))
  {
  }

  lemma SubstPartsLength(parts: seq<Part>, bindings: map<string, Ty>)
    ensures |SubstParts(parts, bindings)| == |parts|
  {
  }

  lemma SubstPartsEmpty(bindings: map<string, Ty>)
    ensures SubstParts([], bindings) == []
  {
  }

  lemma {:induction false} AgreeParts(n: nat, store: Store, lib: Library, parts: seq<Part>, env: Env, limit: Ty, concrete: Ty)
    requires ClosedStore(store) && GoodEnv(store, env)
    requires AllInScope(store, parts, env)
    requires Below(parts, limit) && Below(SubstParts(parts, Sigma(env)), concrete)
    ensures DecodeParts(n, store, lib, parts, env, limit)
         == EagerParts(n, store, lib, SubstParts(parts, Sigma(env)), concrete)
    decreases n, env, limit, 0, 2 * |parts|
  {
    hide *;
    if parts == [] {
      SubstPartsEmpty(Sigma(env));
      DecodePartsStep(n, store, lib, parts, env, limit);
      EagerPartsStep(n, store, lib, [], concrete);
    } else {
      AgreeHead(n, store, lib, parts, env, limit, concrete);
    }
  }

  lemma {:induction false} AgreeHead(n: nat, store: Store, lib: Library, parts: seq<Part>, env: Env, limit: Ty, concrete: Ty)
    requires ClosedStore(store) && GoodEnv(store, env)
    requires parts != [] && AllInScope(store, parts, env)
    requires Below(parts, limit) && Below(SubstParts(parts, Sigma(env)), concrete)
    ensures DecodeParts(n, store, lib, parts, env, limit)
         == EagerParts(n, store, lib, SubstParts(parts, Sigma(env)), concrete)
    decreases n, env, limit, 0, 2 * |parts| - 1
  {
    hide *;
    var head, rest := parts[0], parts[1..];
    var after := SubstParts(parts, Sigma(env));
    SubstPartsHead(parts, Sigma(env));
    var first := after[0];
    DecodePartsStep(n, store, lib, parts, env, limit);
    EagerPartsStep(n, store, lib, after, concrete);
    if head.Component? {
      BelowTail(parts, limit);
      BelowTail(after, concrete);
      InScopeTail(store, parts, env);
      Agree(n, store, lib, head.value, head.ty, env);
      ConcreteIsSubst(env, head.ty);
      AgreeParts(n, store, lib, rest, env, limit, concrete);
    }
  }

  lemma DecodePartsStep(n: nat, store: Store, lib: Library, parts: seq<Part>, env: Env, limit: Ty)
    requires Below(parts, limit)
    ensures parts == [] ==> DecodeParts(n, store, lib, parts, env, limit) == Ok([])
    ensures parts != [] && parts[0].Absent? ==>
              DecodeParts(n, store, lib, parts, env, limit) == Err(Because(parts[0].reason))
    ensures parts != [] && parts[0].Component? ==>
              && Below(parts[1..], limit)
              && DecodeParts(n, store, lib, parts, env, limit)
                 == Collect(Located(parts[0].place, Decode(n, store, lib, parts[0].value, parts[0].ty, env)),
                            DecodeParts(n, store, lib, parts[1..], env, limit))
  {
    hide Decode, Located, Collect;
  }

  lemma EagerPartsStep(n: nat, store: Store, lib: Library, parts: seq<Part>, limit: Ty)
    requires Below(parts, limit)
    ensures parts == [] ==> EagerParts(n, store, lib, parts, limit) == Ok([])
    ensures parts != [] && parts[0].Absent? ==>
              EagerParts(n, store, lib, parts, limit) == Err(Because(parts[0].reason))
    ensures parts != [] && parts[0].Component? ==>
              && Below(parts[1..], limit)
              && EagerParts(n, store, lib, parts, limit)
                 == Collect(Located(parts[0].place, Eager(n, store, lib, parts[0].value, parts[0].ty)),
                            EagerParts(n, store, lib, parts[1..], limit))
  {
    hide Eager, Located, Collect;
  }

  /** From the root, where decoding starts: no environment is ever needed. */
  lemma RootAgrees(n: nat, store: Store, lib: Library, v: HostValue, ty: Ty)
    requires ClosedStore(store) && store.interned(ty)
    ensures Decode(n, store, lib, v, ty, Root) == Eager(n, store, lib, v, ty)
  {
    Agree(n, store, lib, v, ty, Root);
  }

  /** Decoding in any good scope equals decoding the substituted type at the root. */
  lemma ScopeIrrelevant(n: nat, store: Store, lib: Library, v: HostValue, ty: Ty, env: Env)
    requires ClosedStore(store) && GoodEnv(store, env) && InScope(store, ty, env)
    requires store.interned(Concrete(env, ty))
    ensures Decode(n, store, lib, v, ty, env) == Decode(n, store, lib, v, Concrete(env, ty), Root)
  {
    Agree(n, store, lib, v, ty, env);
    RootAgrees(n, store, lib, v, Concrete(env, ty));
  }

  // ------------------------------------------------------------------- fuel

  function ReasonOf(error: Error): Reason {
    match error
    case Because(reason) => reason
    case At(_, inner) => ReasonOf(inner)
  }

  /** The unfolding bound was hit, rather than a value or an error of the decoder. */
  predicate Exhausted<T>(r: Result<T>) {
    r.Err? && ReasonOf(r.error).OutOfFuel?
  }

  /** A finished answer does not depend on the unfolding bound. */
  lemma {:induction false} MoreFuel(n: nat, m: nat, store: Store, lib: Library, v: HostValue, ty: Ty)
    requires n <= m && !Exhausted(Eager(n, store, lib, v, ty))
    ensures Eager(m, store, lib, v, ty) == Eager(n, store, lib, v, ty)
    decreases n, ty, 1, 0
  {
    hide EagerParts, Split, Declared, Assemble, SubstParts, BodyBindings, Holder, DecodeJson;
    if !IsJson(store, ty) && HostLayer(v).Ok? {
      var inner := HostLayer(v).value;
      if Structural(ty) {
        EagerStructural(n, store, lib, v, ty);
        EagerStructural(m, store, lib, v, ty);
        if Split(lib, ty, inner).Parts? {
          MoreFuelParts(n, m, store, lib, Split(lib, ty, inner).parts, ty);
        }
      } else {
        EagerDeclared(n, store, lib, v, ty);
        EagerDeclared(m, store, lib, v, ty);
        if (ty.Applied? ==> store.interned(ty)) && Declared(store, ty, inner).Ok? && n > 0 {
          var body := Declared(store, ty, inner).value;
          var parts := SubstParts(body.parts, BodyBindings(body, ty));
          MoreFuelParts(n - 1, m - 1, store, lib, parts, Holder(parts));
        }
      }
    }
  }

  lemma {:induction false} MoreFuelParts(n: nat, m: nat, store: Store, lib: Library, parts: seq<Part>, limit: Ty)
    requires n <= m && Below(parts, limit) && !Exhausted(EagerParts(n, store, lib, parts, limit))
    ensures EagerParts(m, store, lib, parts, limit) == EagerParts(n, store, lib, parts, limit)
    decreases n, limit, 0, |parts|
  {
    hide Eager, EagerParts, Below;
    EagerPartsStep(n, store, lib, parts, limit);
    EagerPartsStep(m, store, lib, parts, limit);
    if parts != [] && parts[0].Component? {
      BelowTail(parts, limit);
      MoreFuel(n, m, store, lib, parts[0].value, parts[0].ty);
      if Eager(n, store, lib, parts[0].value, parts[0].ty).Ok? {
        MoreFuelParts(n, m, store, lib, parts[1..], limit);
      }
    }
  }

  lemma DecodeMoreFuel(n: nat, m: nat, store: Store, lib: Library, v: HostValue, ty: Ty)
    requires ClosedStore(store) && store.interned(ty)
    requires n <= m && !Exhausted(Decode(n, store, lib, v, ty, Root))
    ensures Decode(m, store, lib, v, ty, Root) == Decode(n, store, lib, v, ty, Root)
  {
    RootAgrees(n, store, lib, v, ty);
    RootAgrees(m, store, lib, v, ty);
    MoreFuel(n, m, store, lib, v, ty);
  }

  // --------------------------------------------------- one name, any scope

  /** What a name stands for when the chain of frames is searched for it. */
  function Meant(env: Env, name: string): Ty {
    var found := Lookup(env, name);
    if found.Some? then Concrete(found.value.1, found.value.0) else Named(name)
  }

  /** Searching the chain and substituting the innermost frame agree on a name exactly when
      that frame binds it or none does, up to a parameter that stands for itself. */
  lemma LookupAgreesExactly(env: Env, name: string)
    ensures Meant(env, name) == Concrete(env, Named(name))
            <==> OwnOrNone(env, name) || Meant(env, name) == Named(name)
  {
  }

  lemma {:induction false} LookupGood(store: Store, env: Env, name: string)
    requires GoodEnv(store, env) && Lookup(env, name).Some?
    ensures var (arg, scope) := Lookup(env, name).value;
            GoodEnv(store, scope) && InScope(store, arg, scope)
  {
    if name !in env.bindings {
      LookupGood(store, env.parent, name);
    }
  }

  lemma NamedUnsupported(n: nat, store: Store, lib: Library, v: HostValue, name: string)
    ensures Eager(n, store, lib, v, Named(name)).Err?
    ensures Decode(n, store, lib, v, Named(name), Root) == Eager(n, store, lib, v, Named(name))
    ensures forall env | Lookup(env, name).None? ::
              Decode(n, store, lib, v, Named(name), env) == Eager(n, store, lib, v, Named(name))
  {
    hide HostLayer;
  }

  /** In every scope, also of open types: a value that a name decodes is the one substitution
      gives exactly when the innermost frame binds the name. */
  lemma NameAgreesExactly(n: nat, store: Store, lib: Library, v: HostValue, name: string, env: Env)
    requires ClosedStore(store) && GoodEnv(store, env)
    ensures Lookup(env, name).Some? ==> Decode(n, store, lib, v, Named(name), env) == Eager(n, store, lib, v, Meant(env, name))
    ensures OwnOrNone(env, name) ==>
              Decode(n, store, lib, v, Named(name), env) == Eager(n, store, lib, v, Concrete(env, Named(name)))
    ensures Decode(n, store, lib, v, Named(name), env).Ok? ==>
              (Decode(n, store, lib, v, Named(name), env) == Eager(n, store, lib, v, Concrete(env, Named(name)))
               <==> OwnOrNone(env, name))
  {
    hide Eager, ClosedStore, InScope, GoodEnv;
    LookupAgreesExactly(env, name);
    NamedUnsupported(n, store, lib, v, name);
    if Lookup(env, name).Some? {
      var (arg, scope) := Lookup(env, name).value;
      LookupGood(store, env, name);
      Agree(n, store, lib, v, arg, scope);
      DecodeName(n, store, lib, v, name, env);
      if !OwnOrNone(env, name) {
        Unbound(env, name);
      }
    } else {
      Unbound(env, name);
    }
  }

  lemma DecodeName(n: nat, store: Store, lib: Library, v: HostValue, name: string, env: Env)
    requires Lookup(env, name).Some?
    ensures var (arg, scope) := Lookup(env, name).value;
            Decode(n, store, lib, v, Named(name), env) == Decode(n, store, lib, v, arg, scope)
  {
  }

  lemma Unbound(env: Env, name: string)
    requires env.Frame? ==> name !in env.bindings
    ensures Concrete(env, Named(name)) == Named(name)
  {
  }

  // ------------------------------------------- a generic nominal left unapplied

  /** Decoding `v` at `ty` meets no parameter that the bindings replace, in a component or in
      the arguments of a tag. */
  predicate Untouched(store: Store, lib: Library, v: HostValue, ty: Ty, bindings: map<string, Ty>)
    decreases ty
  {
    if ty.Named? then ty.name !in bindings
    else if IsJson(store, ty) || HostLayer(v).Err? then true
    else if ty.Applied? then Subst(ty, bindings) == ty
    else if !Structural(ty) then true
    else
      var layer := Split(lib, ty, HostLayer(v).value);
      layer.Parts? ==>
        forall i | 0 <= i < |layer.parts| && layer.parts[i].Component? ::
          (assert layer.parts[i] in layer.parts; Untouched(store, lib, layer.parts[i].value, layer.parts[i].ty, bindings))
  }

  predicate UntouchedPart(store: Store, lib: Library, p: Part, bindings: map<string, Ty>) {
    p.Component? ==> Untouched(store, lib, p.value, p.ty, bindings)
  }

  predicate UntouchedParts(store: Store, lib: Library, parts: seq<Part>, bindings: map<string, Ty>) {
    forall i | 0 <= i < |parts| :: UntouchedPart(store, lib, parts[i], bindings)
  }

  lemma UntouchedStructural(store: Store, lib: Library, v: HostValue, ty: Ty, bindings: map<string, Ty>)
    requires Structural(ty) && !ty.Named? && HostLayer(v).Ok?
    ensures var layer := Split(lib, ty, HostLayer(v).value);
            Untouched(store, lib, v, ty, bindings) == (layer.Parts? ==> UntouchedParts(store, lib, layer.parts, bindings))
  {
    hide Split, Subst;
  }

  /** Substituting does not change a decoded value exactly when decoding it meets no parameter
      that is replaced. */
  lemma {:induction false} UntouchedExactly(n: nat, store: Store, lib: Library, v: HostValue, ty: Ty, bindings: map<string, Ty>)
    requires Eager(n, store, lib, v, Subst(ty, bindings)).Ok?
    ensures Eager(n, store, lib, v, ty) == Eager(n, store, lib, v, Subst(ty, bindings)) <==> Untouched(store, lib, v, ty, bindings)
    decreases ty, 2, 0
  {
    hide Eager, Split, Untouched;
    if ty.Named? {
      NamedTouched(n, store, lib, v, ty, bindings);
    } else if Structural(ty) && HostLayer(v).Ok? {
      StructuralTouched(n, store, lib, v, ty, bindings);
    } else {
      DeclaredTouched(n, store, lib, v, ty, bindings);
    }
  }

  lemma NamedTouched(n: nat, store: Store, lib: Library, v: HostValue, ty: Ty, bindings: map<string, Ty>)
    requires ty.Named? && Eager(n, store, lib, v, Subst(ty, bindings)).Ok?
    ensures Eager(n, store, lib, v, ty) == Eager(n, store, lib, v, Subst(ty, bindings)) <==> Untouched(store, lib, v, ty, bindings)
  {
    hide Eager;
    NamedUnsupported(n, store, lib, v, ty.name);
  }

  lemma LayerOk(n: nat, store: Store, lib: Library, v: HostValue, ty: Ty)
    ensures HostLayer(v).Err? && !IsJson(store, ty) ==> Eager(n, store, lib, v, ty) == Err(HostLayer(v).error)
  {
  }

  /** A value decoded at a declared type carries the type as its tag. */
  lemma DeclaredTouched(n: nat, store: Store, lib: Library, v: HostValue, ty: Ty, bindings: map<string, Ty>)
    requires Eager(n, store, lib, v, Subst(ty, bindings)).Ok? && !ty.Named? && (!Structural(ty) || HostLayer(v).Err?)
    ensures Eager(n, store, lib, v, ty) == Eager(n, store, lib, v, Subst(ty, bindings)) <==> Untouched(store, lib, v, ty, bindings)
  {
    LayerOk(n, store, lib, v, Subst(ty, bindings));
    LayerOk(n, store, lib, v, ty);
    if !Structural(ty) {
      TagKept(store, ty, bindings);
      if ty.Applied? && HostLayer(v).Ok? {
        TagOf(n, store, lib, v, ty);
        TagOf(n, store, lib, v, Subst(ty, bindings));
      }
    } else {
      JsonStructural(store, ty, bindings);
    }
    hide Eager;
  }

  lemma JsonStructural(store: Store, ty: Ty, bindings: map<string, Ty>)
    requires Structural(ty) && !ty.Named?
    ensures !IsJson(store, Subst(ty, bindings)) && !IsJson(store, ty)
  {
  }

  lemma TagOf(n: nat, store: Store, lib: Library, v: HostValue, ty: Ty)
    requires ty.Applied? && HostLayer(v).Ok?
    ensures Eager(n, store, lib, v, ty).Ok? ==> Eager(n, store, lib, v, ty).value.NominalV? && Eager(n, store, lib, v, ty).value.ty == ty
  {
    hide Declared, HostLayer, EagerParts, SubstParts, BodyBindings, Holder;
    EagerDeclared(n, store, lib, v, ty);
  }

  lemma {:induction false} StructuralTouched(n: nat, store: Store, lib: Library, v: HostValue, ty: Ty, bindings: map<string, Ty>)
    requires Eager(n, store, lib, v, Subst(ty, bindings)).Ok? && Structural(ty) && !ty.Named? && HostLayer(v).Ok?
    ensures Eager(n, store, lib, v, ty) == Eager(n, store, lib, v, Subst(ty, bindings)) <==> Untouched(store, lib, v, ty, bindings)
    decreases ty, 1, 0
  {
    hide *;
    var inner, concrete := HostLayer(v).value, Subst(ty, bindings);
    SplitSubst(lib, ty, inner, bindings);
    SubstLayerShape(Split(lib, ty, inner), bindings);
    EagerStructural(n, store, lib, v, ty);
    EagerStructural(n, store, lib, v, concrete);
    UntouchedStructural(store, lib, v, ty, bindings);
    if Split(lib, ty, inner).Parts? {
      var parts := Split(lib, ty, inner).parts;
      var before, after := EagerParts(n, store, lib, parts, ty), EagerParts(n, store, lib, SubstParts(parts, bindings), concrete);
      AssembledEither(lib, ty, inner, before);
      AssembledEither(lib, concrete, inner, after);
      PartsTouched(n, store, lib, parts, bindings, ty, concrete);
      SubstPartsLength(parts, bindings);
      AssembleSubst(lib, ty, inner, after.value, bindings);
      if before.Ok? {
        AssembleInjective(lib, ty, inner, before.value, after.value);
      }
    }
  }

  lemma CollectExactly(place: Option<Place>, first: Result<Value>, rest: Result<seq<Value>>, first': Result<Value>, rest': Result<seq<Value>>)
    requires Collect(Located(place, first'), rest').Ok?
    ensures first'.Ok? && rest'.Ok?
    ensures Collect(Located(place, first), rest) == Collect(Located(place, first'), rest') <==> first == first' && rest == rest'
  {
    if first.Ok? && rest.Ok? && [first.value] + rest.value == [first'.value] + rest'.value {
      assert ([first.value] + rest.value)[0] == ([first'.value] + rest'.value)[0];
      assert ([first.value] + rest.value)[1..] == rest.value && ([first'.value] + rest'.value)[1..] == rest'.value;
    }
  }

  lemma {:induction false} PartsTouched(n: nat, store: Store, lib: Library, parts: seq<Part>, bindings: map<string, Ty>, limit: Ty, concrete: Ty)
    requires Below(parts, limit) && Below(SubstParts(parts, bindings), concrete)
    requires EagerParts(n, store, lib, SubstParts(parts, bindings), concrete).Ok?
    ensures EagerParts(n, store, lib, parts, limit) == EagerParts(n, store, lib, SubstParts(parts, bindings), concrete)
            <==> UntouchedParts(store, lib, parts, bindings)
    decreases limit, 0, |parts|
  {
    hide Eager, EagerParts, Subst, SubstParts, Below, Untouched;
    var after := SubstParts(parts, bindings);
    if parts == [] {
      SubstPartsEmpty(bindings);
      EagerPartsStep(n, store, lib, parts, limit);
      EagerPartsStep(n, store, lib, after, concrete);
    } else {
      SubstPartsHead(parts, bindings);
      EagerPartsStep(n, store, lib, parts, limit);
      EagerPartsStep(n, store, lib, after, concrete);
      if parts[0].Component? {
        BelowTail(parts, limit);
        BelowTail(after, concrete);
        PartsTouched(n, store, lib, parts[1..], bindings, limit, concrete);
        UntouchedExactly(n, store, lib, parts[0].value, parts[0].ty, bindings);
        UntouchedTail(store, lib, parts, bindings);
        CollectExactly(parts[0].place, Eager(n, store, lib, parts[0].value, parts[0].ty), EagerParts(n, store, lib, parts[1..], limit),
                       Eager(n, store, lib, after[0].value, after[0].ty), EagerParts(n, store, lib, after[1..], concrete));
      }
    }
  }

  lemma UntouchedTail(store: Store, lib: Library, parts: seq<Part>, bindings: map<string, Ty>)
    requires parts != []
    ensures UntouchedParts(store, lib, parts, bindings)
        <==> UntouchedPart(store, lib, parts[0], bindings) && UntouchedParts(store, lib, parts[1..], bindings)
  {
    hide UntouchedPart;
    assert forall i | 1 <= i < |parts| :: parts[i] == parts[1..][i - 1];
    if UntouchedPart(store, lib, parts[0], bindings) && UntouchedParts(store, lib, parts[1..], bindings) {
      forall i | 0 <= i < |parts| ensures UntouchedPart(store, lib, parts[i], bindings) {
        if i > 0 {
          assert parts[i] == parts[1..][i - 1];
        }
      }
    }
  }

  /** Components can be read off the value they were put together to. */
  lemma AssembleInjective(lib: Library, ty: Ty, v: HostValue, a: seq<Value>, b: seq<Value>)
    requires Structural(ty) && Split(lib, ty, v).Parts? && |a| == |b| == |Split(lib, ty, v).parts|
    requires Assemble(lib, ty, v, b).Ok?
    ensures Assemble(lib, ty, v, a) == Assemble(lib, ty, v, b) <==> a == b
  {
    if Assemble(lib, ty, v, a) == Assemble(lib, ty, v, b) {
      match ty
      case MapOf(_, _) =>
        var pa, pb := PairValues(|v.entries|, a), PairValues(|v.entries|, b);
        forall i | 0 <= i < |a| ensures a[i] == b[i] {
          assert pa[i / 2] == pb[i / 2] && i == 2 * (i / 2) + i % 2;
        }
      case Record(fields) =>
        forall i | 0 <= i < |a| ensures a[i] == b[i] {
          assert NameValues(fields, a)[i] == NameValues(fields, b)[i];
        }
      case _ =>
    }
  }

  function UnderTag(id: nat, r: Result<Value>): Result<Value> {
    if r.Err? then r else Ok(NominalV(Nominal(id), r.value))
  }

  /** The body of an unapplied nominal is read in the caller's scope; substitution leaves it as
      it was declared. */
  lemma UnappliedMeans(n: nat, store: Store, lib: Library, v: HostValue, id: nat, env: Env)
    requires ClosedStore(store) && GoodEnv(store, env) && n > 0 && HostLayer(v).Ok? && !IsJson(store, Nominal(id))
    requires id in store.nominals && store.nominals[id].representation.Some?
    requires InScope(store, store.nominals[id].representation.value, env)
    ensures var body, inner := store.nominals[id].representation.value, HostLayer(v).value;
            && Decode(n, store, lib, v, Nominal(id), env) == UnderTag(id, Eager(n - 1, store, lib, inner, Subst(body, Sigma(env))))
            && Eager(n, store, lib, v, Nominal(id)) == UnderTag(id, Eager(n - 1, store, lib, inner, body))
  {
    var ty, body, inner := Nominal(id), store.nominals[id].representation.value, HostLayer(v).value;
    var parts := [Component(None, inner, body)];
    assert Declared(store, ty, inner) == Ok(Body(None, parts, None));
    SubstEmpty(body);
    assert SubstParts(parts, map[]) == parts;
    hide *;
    DecodeDeclared(n, store, lib, v, ty, env);
    EagerDeclared(n, store, lib, v, ty);
    UnappliedBody(ty, parts, inner, body, env);
    Agree(n - 1, store, lib, inner, body, env);
    ConcreteIsSubst(env, body);
    DecodePartsStep(n - 1, store, lib, parts, env, Holder(parts));
    DecodePartsStep(n - 1, store, lib, [], env, Holder(parts));
    EagerPartsStep(n - 1, store, lib, parts, Holder(parts));
    EagerPartsStep(n - 1, store, lib, [], Holder(parts));
    TaggedOne(id, parts, Decode(n - 1, store, lib, inner, body, env));
    TaggedOne(id, parts, Eager(n - 1, store, lib, inner, body));
  }

  lemma UnappliedBody(ty: Ty, parts: seq<Part>, inner: HostValue, body: Ty, env: Env)
    requires ty.Nominal? && parts == [Component(None, inner, body)]
    ensures parts[1..] == [] && parts != []
    ensures Inside(Body(None, parts, None), ty, env) == env && BodyBindings(Body(None, parts, None), ty) == map[]
  {
  }

  lemma TaggedOne(id: nat, parts: seq<Part>, r: Result<Value>)
    ensures Tagged(Nominal(id), Body(None, parts, None), Collect(Located(None, r), Ok([]))) == UnderTag(id, r)
  {
  }

  /** An unapplied generic nominal decodes as substitution says exactly when decoding its body
      meets no parameter that the caller's scope binds. */
  lemma UnappliedAgreesExactly(n: nat, store: Store, lib: Library, v: HostValue, id: nat, env: Env)
    requires ClosedStore(store) && GoodEnv(store, env) && n > 0 && HostLayer(v).Ok? && !IsJson(store, Nominal(id))
    requires id in store.nominals && store.nominals[id].representation.Some?
    requires InScope(store, store.nominals[id].representation.value, env)
    ensures Decode(n, store, lib, v, Nominal(id), env).Ok? ==>
              (Decode(n, store, lib, v, Nominal(id), env) == Eager(n, store, lib, v, Concrete(env, Nominal(id)))
               <==> Untouched(store, lib, HostLayer(v).value, store.nominals[id].representation.value, Sigma(env)))
  {
    hide Eager, Decode, ClosedStore, GoodEnv, InScope, Untouched, HostLayer, Sigma;
    var body, inner := store.nominals[id].representation.value, HostLayer(v).value;
    UnappliedMeans(n, store, lib, v, id, env);
    ConcreteIsSubst(env, Nominal(id));
    assert Subst(Nominal(id), Sigma(env)) == Nominal(id);
    if Decode(n, store, lib, v, Nominal(id), env).Ok? {
      UntouchedExactly(n - 1, store, lib, inner, body, Sigma(env));
    }
  }

  // -------------------------------------------------------- why closedness

  /** Declaration 0 has parameter `T` but mentions `U`; declaration 1 binds `U` around it. */
  function OpenStore(): Store {
    Store(map[0 := NominalType(["T"], Some(Named("U"))),
              1 := NominalType(["U"], Some(Applied(0, [Prim(UnitType)])))],
          {}, map[], None, (ty: Ty) => true)
  }

  /** Without closedness the laws fail: the lazy lookup finds the caller's `U`, which
      substitution does not. */
  lemma OpenLayoutsDisagree(lib: Library)
    ensures Decode(2, OpenStore(), lib, HBool(true), Outer, Root) == Ok(NominalV(Outer, NominalV(Inner, BoolV(true))))
    ensures Eager(2, OpenStore(), lib, HBool(true), Outer) == Err(Because(Unsupported))
  {
    LazyOpen(lib);
    EagerOpen(lib);
  }

  const Outer: Ty := Applied(1, [Prim(BoolType)])
  const Inner: Ty := Applied(0, [Prim(UnitType)])

  lemma LazyOpen(lib: Library)
    ensures Decode(2, OpenStore(), lib, HBool(true), Outer, Root) == Ok(NominalV(Outer, NominalV(Inner, BoolV(true))))
  {
    hide DecodeParts;
    var store, v := OpenStore(), HBool(true);
    var first := [Component(None, v, Inner)];
    var outside := Apply(Root, ["U"], [Prim(BoolType)]);
    LazyInner(lib, outside);
    DecodePartsStep(1, store, lib, first, outside, Holder(first));
    DecodePartsStep(1, store, lib, [], outside, Holder(first));
    assert first[1..] == [];
    DecodeDeclared(2, store, lib, v, Outer, Root);
  }

  lemma InnerFound(outside: Env)
    requires outside == Apply(Root, ["U"], [Prim(BoolType)])
    ensures Concrete(outside, Inner) == Inner && Found(OpenStore(), outside, Inner)
  {
    assert SubstAll([Prim(UnitType)], Sigma(outside)) == [Prim(UnitType)];
  }

  /** The caller's `U` is found from inside the body that does not bind it. */
  lemma LazyName(lib: Library, outside: Env, inside: Env)
    requires outside == Frame(Root, map["U" := Prim(BoolType)]) && inside == Frame(outside, map["T" := Prim(UnitType)])
    ensures Decode(0, OpenStore(), lib, HBool(true), Named("U"), inside) == Ok(BoolV(true))
  {
    var store, v := OpenStore(), HBool(true);
    assert Lookup(inside, "U") == Some((Prim(BoolType), Root));
    assert Decode(0, store, lib, v, Prim(BoolType), Root) == Ok(BoolV(true));
  }

  lemma LazyInner(lib: Library, outside: Env)
    requires outside == Apply(Root, ["U"], [Prim(BoolType)])
    ensures Decode(1, OpenStore(), lib, HBool(true), Inner, outside) == Ok(NominalV(Inner, BoolV(true)))
  {
    var store, v := OpenStore(), HBool(true);
    var second := [Component(None, v, Named("U"))];
    var inside := Apply(outside, ["T"], [Prim(UnitType)]);
    BindLast(["T"], [Prim(UnitType)]);
    BindLast(["U"], [Prim(BoolType)]);
    InnerFound(outside);
    hide Found, Concrete;
    LazyName(lib, outside, inside);
    hide DecodeParts, Bind, Lookup, Decode;
    DecodePartsStep(0, store, lib, second, inside, Holder(second));
    DecodePartsStep(0, store, lib, [], inside, Holder(second));
    assert second[1..] == [];
    DecodeDeclared(1, store, lib, v, Inner, outside);
  }

  lemma EagerOpen(lib: Library)
    ensures Eager(2, OpenStore(), lib, HBool(true), Outer) == Err(Because(Unsupported))
  {
    var store, v := OpenStore(), HBool(true);
    var first := [Component(None, v, Inner)];
    var second := [Component(None, v, Named("U"))];
    assert Eager(0, store, lib, v, Named("U")) == Err(Because(Unsupported));
    EagerPartsStep(0, store, lib, second, Holder(second));
    EagerDeclared(1, store, lib, v, Inner);
    assert SubstParts(second, Bind(["T"], [Prim(UnitType)])) == second;
    assert Eager(1, store, lib, v, Inner) == Err(Because(Unsupported));
    EagerPartsStep(1, store, lib, first, Holder(first));
    EagerDeclared(2, store, lib, v, Outer);
    assert SubstAll([Prim(UnitType)], Bind(["U"], [Prim(BoolType)])) == [Prim(UnitType)];
    assert SubstParts(first, Bind(["U"], [Prim(BoolType)])) == first;
  }

  /** Declaration 0 has parameter `T` and is itself closed; declaration 1 has a `T` too and
      mentions declaration 0 without applying it. */
  function UnappliedStore(): Store {
    Store(map[0 := NominalType(["T"], Some(Named("T"))),
              1 := NominalType(["T"], Some(Nominal(0)))],
          {}, map[], None, (ty: Ty) => true)
  }

  /** A generic nominal left unapplied keeps the caller's scope, so the lazy lookup gives its
      parameter the caller's argument, which substitution does not. */
  lemma UnappliedGenericsDisagree(lib: Library)
    ensures Decode(2, UnappliedStore(), lib, HBool(true), Outer, Root) == Ok(NominalV(Outer, NominalV(Nominal(0), BoolV(true))))
    ensures Eager(2, UnappliedStore(), lib, HBool(true), Outer) == Err(Because(Unsupported))
  {
    LazyUnapplied(lib);
    EagerUnapplied(lib);
  }

  lemma LazyUnapplied(lib: Library)
    ensures Decode(2, UnappliedStore(), lib, HBool(true), Outer, Root) == Ok(NominalV(Outer, NominalV(Nominal(0), BoolV(true))))
  {
    hide DecodeParts;
    var store, v := UnappliedStore(), HBool(true);
    var first := [Component(None, v, Nominal(0))];
    var outside := Apply(Root, ["T"], [Prim(BoolType)]);
    LazyParameter(lib, outside);
    DecodePartsStep(1, store, lib, first, outside, Holder(first));
    DecodePartsStep(1, store, lib, [], outside, Holder(first));
    assert first[1..] == [];
    DecodeDeclared(2, store, lib, v, Outer, Root);
  }

  lemma LazyParameter(lib: Library, outside: Env)
    requires outside == Apply(Root, ["T"], [Prim(BoolType)])
    ensures Decode(1, UnappliedStore(), lib, HBool(true), Nominal(0), outside) == Ok(NominalV(Nominal(0), BoolV(true)))
  {
    var store, v := UnappliedStore(), HBool(true);
    var second := [Component(None, v, Named("T"))];
    BindLast(["T"], [Prim(BoolType)]);
    assert Lookup(outside, "T") == Some((Prim(BoolType), Root));
    assert Decode(0, store, lib, v, Prim(BoolType), Root) == Ok(BoolV(true));
    assert Decode(0, store, lib, v, Named("T"), outside) == Ok(BoolV(true));
    hide DecodeParts, Bind, Lookup;
    DecodePartsStep(0, store, lib, second, outside, Holder(second));
    DecodePartsStep(0, store, lib, [], outside, Holder(second));
    assert second[1..] == [];
    DecodeDeclared(1, store, lib, v, Nominal(0), outside);
  }

  lemma EagerUnapplied(lib: Library)
    ensures Eager(2, UnappliedStore(), lib, HBool(true), Outer) == Err(Because(Unsupported))
  {
    var store, v := UnappliedStore(), HBool(true);
    var first := [Component(None, v, Nominal(0))];
    var second := [Component(None, v, Named("T"))];
    assert Eager(0, store, lib, v, Named("T")) == Err(Because(Unsupported));
    EagerPartsStep(0, store, lib, second, Holder(second));
    EagerDeclared(1, store, lib, v, Nominal(0));
    assert SubstParts(second, map[]) == second;
    assert Eager(1, store, lib, v, Nominal(0)) == Err(Because(Unsupported));
    EagerPartsStep(1, store, lib, first, Holder(first));
    EagerDeclared(2, store, lib, v, Outer);
    assert SubstParts(first, Bind(["T"], [Prim(BoolType)])) == first;
  }
}
