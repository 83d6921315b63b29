/** Whole runs over a frame. Every run through any of its handles is a run over one finite
    map, so a live frame and the frame rebuilt from its locals cannot be told apart. */
module FrameRuns {
  import opened Frames

  datatype Op =
    | Read(symbol: nat)
    | Insert(symbol: nat, value: Value)
    | Assign(symbol: nat, value: Value)
    | Update(symbol: nat, update: Value -> Value)
    | TakeScope
    | CleanupTo(scope: nat)
    | InstallLayout(layout: Layout)

  datatype Observation = Value(r: Option<Frames.Value>) | Success(done: bool) | Scope(symbols: set<nat>) | Nothing

  /** The map a frame stands for, and the scope snapshots handed out so far. */
  datatype Model = Model(bound: map<nat, Frames.Value>, scopes: seq<set<nat>>)

  function Act(m: Model, op: Op): Model {
    match op
    case Read(_) => m
    case Insert(symbol, value) => m.(bound := m.bound[symbol := value])
    case Assign(symbol, value) => if symbol in m.bound then m.(bound := m.bound[symbol := value]) else m
    case Update(symbol, update) =>
      if symbol in m.bound then m.(bound := m.bound[symbol := update(m.bound[symbol])]) else m
    case TakeScope => m.(scopes := m.scopes + [m.bound.Keys])
    case CleanupTo(scope) =>
      if scope < |m.scopes| then m.(bound := Kept(m.bound, m.bound.Keys, m.scopes[scope])) else m
    case InstallLayout(_) => m
  }

  function Observe(m: Model, op: Op): Observation {
    match op
    case Read(symbol) => Value(if symbol in m.bound then Some(m.bound[symbol]) else None)
    case Assign(symbol, _) => Success(symbol in m.bound)
    case Update(symbol, _) => Success(symbol in m.bound)
    case TakeScope => Scope(m.bound.Keys)
    case _ => Nothing
  }

  function ActAll(m: Model, ops: seq<Op>): Model {
    if |ops| == 0 then m else Act(ActAll(m, ops[..|ops| - 1]), ops[|ops| - 1])
  }

  function ObserveAll(m: Model, ops: seq<Op>): seq<Observation> {
    if |ops| == 0 then []
    else
      var front := ops[..|ops| - 1];
      ObserveAll(m, front) + [Observe(ActAll(m, front), ops[|ops| - 1])]
  }

  predicate Installed(ops: seq<Op>, symbol: nat) {
    exists j | 0 <= j < |ops| :: ops[j].InstallLayout? && symbol in ops[j].layout
  }

  /** Bindings are only introduced for symbols that had a slot from the start or that an
      earlier layout of the run gave one. */
  predicate Planned(ops: seq<Op>, symbols: set<nat>) {
    forall i | 0 <= i < |ops| :: ops[i].Insert? ==> ops[i].symbol in symbols || Installed(ops[..i], ops[i].symbol)
  }

  lemma InstalledNext(ops: seq<Op>, i: nat, symbol: nat)
    requires i < |ops|
    ensures Installed(ops[..i + 1], symbol)
        <==> Installed(ops[..i], symbol) || (ops[i].InstallLayout? && symbol in ops[i].layout)
  {
    var front := ops[..i + 1];
    assert front[..i] == ops[..i] && front[i] == ops[i];
    if Installed(ops[..i], symbol) {
      var j :| 0 <= j < i && ops[..i][j].InstallLayout? && symbol in ops[..i][j].layout;
      assert front[j] == ops[..i][j];
    }
    if Installed(front, symbol) {
      var j :| 0 <= j <= i && front[j].InstallLayout? && symbol in front[j].layout;
      if j < i {
        assert ops[..i][j] == front[j];
      }
    }
  }

  /** Performs the operations, the `i`th through handle `through[i]`. Which handles are used
      makes no difference, and nothing but the map shows. */
  method RunThrough(handles: seq<Frame>, through: seq<nat>, ops: seq<Op>) returns (seen: seq<Observation>)
    requires handles != [] && forall h <- handles :: handles[0].Aliases(h)
    requires |through| == |ops| && forall k <- through :: k < |handles|
    requires handles[0].Valid() && (handles[0].restored != null || Planned(ops, handles[0].Slotted()))
    modifies handles[0].Owned()
    ensures forall h <- handles ::
              h.Valid() && h.Bindings() == ActAll(Model(old(handles[0].Bindings()), []), ops).bound
    ensures seen == ObserveAll(Model(old(handles[0].Bindings()), []), ops)
  {
    hide WellSlotted, Stored, SlotIn, Installed;
    var frame := handles[0];
    assert forall symbol: nat :: !Installed(ops[..0], symbol) by {
      assert ops[..0] == [];
      NoneInstalled();
    }
    ghost var start := Model(frame.Bindings(), []);
    var scopes: seq<ScopeSet> := [];
    seen := [];
    var i := 0;
    while i < |ops|
      invariant 0 <= i <= |ops|
      invariant frame.Valid()
      invariant frame.restored == null ==>
                  forall symbol: nat :: symbol in old(frame.Slotted()) || Installed(ops[..i], symbol) ==> symbol in frame.Slotted()
      invariant seen == ObserveAll(start, ops[..i])
      invariant frame.Bindings() == ActAll(start, ops[..i]).bound
      invariant Snapshots(scopes, ActAll(start, ops[..i]).scopes)
    {
      ghost var now := ActAll(start, ops[..i]);
      assert ops[..i + 1][..i] == ops[..i];
      assert through[i] in through;
      var handle := handles[through[i]];
      assert handle in handles && frame.Aliases(handle);
      forall symbol: nat {
        InstalledNext(ops, i, symbol);
      }
      var observation, scope := Perform(handle, ops[i], scopes, now);
      if scope != null {
        scopes := scopes + [scope];
      }
      seen := seen + [observation];
      i := i + 1;
    }
    assert ops[..i] == ops;
  }

  lemma NoneInstalled()
    ensures forall symbol: nat :: !Installed([], symbol)
  {
  }

  predicate Snapshots(scopes: seq<ScopeSet>, symbols: seq<set<nat>>) {
    |scopes| == |symbols| && forall k | 0 <= k < |scopes| :: scopes[k].symbols == symbols[k]
  }

  method Perform(handle: Frame, op: Op, scopes: seq<ScopeSet>, ghost now: Model)
      returns (observation: Observation, scope: ScopeSet?)
    requires handle.Valid() && (op.Insert? ==> handle.Binds(op.symbol))
    requires handle.Bindings() == now.bound && Snapshots(scopes, now.scopes)
    modifies handle.Owned()
    ensures handle.Valid()
    ensures handle.restored == null ==>
              handle.Slotted() == old(handle.Slotted()) + if op.InstallLayout? then (set s <- op.layout) else {}
    ensures observation == Observe(now, op)
    ensures handle.Bindings() == Act(now, op).bound
    ensures Snapshots(if scope == null then scopes else scopes + [scope], Act(now, op).scopes)
  {
    hide WellSlotted, Stored, SlotIn;
    scope := null;
    observation := Nothing;
    match op {
      case Read(symbol) =>
        var r := handle.Get(symbol);
        observation := Value(r);
      case Insert(symbol, value) =>
        handle.Insert(symbol, value);
      case Assign(symbol, value) =>
        var done := handle.Set(symbol, value);
        observation := Success(done);
      case Update(symbol, update) =>
        var done := handle.WithLocalMut(symbol, update);
        observation := Success(done);
      case TakeScope =>
        scope := handle.ScopeSymbols();
        observation := Scope(scope.symbols);
      case CleanupTo(k) =>
        if k < |scopes| {
          handle.CleanupTo(scopes[k]);
        }
      case InstallLayout(layout) =>
        handle.InstallScopeLayout(layout);
    }
  }

  /** Saves a live frame, restores it, and runs the same operations on both: the same
      observations, and the same bindings in the end. */
  method RestoreIsInvisible(live: Frame, ops: seq<Op>) returns (before: seq<Observation>, after: seq<Observation>)
    requires live.Valid() && live.restored == null && Planned(ops, live.Slotted())
    modifies live.Owned()
    ensures before == after
    ensures before == ObserveAll(Model(old(live.Bindings()), []), ops)
  {
    var locals := live.SortedLocals();
    var snapshot := Frame.FromSnapshot(locals);
    SortedIsDistinct(locals);
    var restored := snapshot.value;
    var firsts := seq(|ops|, _ => 0);
    before := RunThrough([live], firsts, ops);
    after := RunThrough([restored], firsts, ops);
  }

  lemma SortedIsDistinct(locals: seq<(nat, Frames.Value)>)
    requires SortedBySymbol(locals)
    ensures DistinctSymbols(locals)
  {
  }
}
