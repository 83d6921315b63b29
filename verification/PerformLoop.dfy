/** The work-stack loop that propagates a perform, on the task state it updates in place. */
module PerformLoop {
  import opened Continuations
  import opened HandlerMachine

  // --------------------------------------------------- the loop's visit order

  /** The frames a perform meets, in order. A typed error also enters policy restorations. */
  function Visited(k: Cont, raising: bool): seq<Cont> {
    match k
    case Chain(inner, outer) => Visited(inner, raising) + Visited(outer, raising)
    case Boundary(id, inner, arms) =>
      (if inner.BlockValue? then [] else Visited(inner, raising)) + [Boundary(id, BlockValue, arms)]
    case RestorePolicy(policy, inner) =>
      if raising && !inner.BlockValue? then Visited(inner, raising) + [RestorePolicy(policy, BlockValue)] else [k]
    case _ => [k]
  }

  /** The one-frame step folded over a frame list from the left. */
  function PassAll(f: Flow, frames: seq<Cont>): Flow
    decreases |frames|
  {
    if frames == [] then f else PassAll(PassLeaf(f, frames[0]), frames[1..])
  }

  lemma {:induction false} PassAllConcat(f: Flow, left: seq<Cont>, right: seq<Cont>)
    ensures PassAll(f, left + right) == PassAll(PassAll(f, left), right)
    decreases |left|
  {
    hide PassLeaf;
    if left == [] {
      assert left + right == right;
    } else {
      assert (left + right)[1..] == left[1..] + right;
      PassAllConcat(PassLeaf(f, left[0]), left[1..], right);
    }
  }

  lemma PassAllOne(f: Flow, k: Cont)
    ensures PassAll(f, [k]) == PassLeaf(f, k)
  {
    hide PassLeaf;
    assert PassAll(PassLeaf(f, k), []) == PassLeaf(f, k);
  }

  /** The frames a travelling signal really meets, and whether it is still a typed error
      after them. The error ends at the first `try` that captures it or handler that has an
      arm for it; from there on policy restorations are met whole. */
  datatype Meeting = Meeting(frames: seq<Cont>, raising: bool)

  function Met(k: Cont, request: Request, raising: bool): Meeting {
    match k
    case Chain(inner, outer) =>
      var first := Met(inner, request, raising);
      var second := Met(outer, request, first.raising);
      Meeting(first.frames + second.frames, second.raising)
    case Boundary(id, inner, arms) =>
      var inside := if inner.BlockValue? then Meeting([], raising) else Met(inner, request, raising);
      Meeting(inside.frames + [Boundary(id, BlockValue, arms)], inside.raising && !ScopeMatches(request, arms))
    case RestorePolicy(policy, inner) =>
      if raising && !inner.BlockValue? then
        var inside := Met(inner, request, raising);
        Meeting(inside.frames + [RestorePolicy(policy, BlockValue)], inside.raising)
      else Meeting([k], raising)
    case TryExpr(captured) => Meeting([k], raising && !Captures(captured, request))
    case _ => Meeting([k], raising)
  }

  /** The flag tells whether the signal is a typed error; a fault passes every frame. */
  predicate Travels(f: Flow, request: Request, raising: bool) {
    f.signal.Fault? || (raising == Raising(f.signal) && (raising ==> f.signal.request == request))
  }

  lemma {:induction false} FaultPasses(f: Flow, frames: seq<Cont>)
    requires f.signal.Fault?
    ensures PassAll(f, frames) == f
    decreases |frames|
  {
    if frames != [] {
      FaultPasses(f, frames[1..]);
    }
  }

  lemma {:induction false} FaultPropagates(f: Flow, k: Cont)
    requires f.signal.Fault?
    ensures Propagate(f, k) == f
    decreases k
  {
    match k
    case Chain(inner, outer) =>
      FaultPropagates(f, inner);
      FaultPropagates(f, outer);
    case Boundary(_, inner, _) => FaultPropagates(f, inner);
    case _ =>
  }

  lemma TravelsOn(f: Flow, request: Request, raising: bool, leaf: Cont)
    requires Travels(f, request, raising) && !leaf.Chain?
    requires leaf.Boundary? ==> leaf.inner.BlockValue?
    requires leaf.RestorePolicy? && raising ==> leaf.inner.BlockValue?
    ensures Met(leaf, request, raising).frames == [leaf]
    ensures Travels(PassLeaf(f, leaf), request, Met(leaf, request, raising).raising)
  {
  }

  /** What follows a wrapper's inner frames is the bare wrapper. */
  lemma TravelsOut(f: Flow, request: Request, frames: seq<Cont>, raising: bool, bare: Cont)
    requires bare.Boundary? || bare.RestorePolicy?
    requires bare.inner.BlockValue? && Travels(PassAll(f, frames), request, raising)
    ensures PassAll(f, frames + [bare]) == PassLeaf(PassAll(f, frames), bare)
    ensures Travels(PassAll(f, frames + [bare]), request, Met(bare, request, raising).raising)
  {
    hide PassLeaf;
    PassAllConcat(f, frames, [bare]);
    PassAllOne(PassAll(f, frames), bare);
    TravelsOn(PassAll(f, frames), request, raising, bare);
  }

  lemma {:induction false} PropagateTravels(f: Flow, k: Cont, request: Request, raising: bool)
    requires Travels(f, request, raising)
    ensures Propagate(f, k) == PassAll(f, Met(k, request, raising).frames)
    ensures Travels(Propagate(f, k), request, Met(k, request, raising).raising)
    decreases k
  {
    hide PassLeaf;
    if f.signal.Fault? {
      FaultPasses(f, Met(k, request, raising).frames);
      FaultPropagates(f, k);
    } else {
      match k
      case Chain(inner, outer) =>
        var first := Met(inner, request, raising);
        PropagateTravels(f, inner, request, raising);
        PropagateTravels(Propagate(f, inner), outer, request, first.raising);
        PassAllConcat(f, first.frames, Met(outer, request, first.raising).frames);
      case Boundary(id, inner, arms) =>
        var bare := Boundary(id, BlockValue, arms);
        if inner.BlockValue? {
          TravelsOut(f, request, [], raising, bare);
        } else {
          PropagateTravels(f, inner, request, raising);
          var inside := Met(inner, request, raising);
          TravelsOut(f, request, inside.frames, inside.raising, bare);
        }
      case RestorePolicy(policy, inner) =>
        if raising && !inner.BlockValue? {
          PropagateTravels(f, inner, request, raising);
          var inside := Met(inner, request, raising);
          TravelsOut(f, request, inside.frames, inside.raising, RestorePolicy(policy, BlockValue));
        } else {
          TravelsOn(f, request, raising, k);
          PassAllOne(f, k);
        }
      case _ =>
        TravelsOn(f, request, raising, k);
        PassAllOne(f, k);
    }
  }

  /** For every tree, every request and every task state the loop is the left fold of the
      one-frame step over the frames met, caught or not. */
  lemma PropagateIsFold(f: Flow, k: Cont)
    requires f.signal.Performed?
    ensures Propagate(f, k) == PassAll(f, Met(k, f.signal.request, f.signal.request.Raise?).frames)
  {
    PropagateTravels(f, k, f.signal.request, f.signal.request.Raise?);
  }

  /** An action meets the frames in the plain order. */
  lemma {:induction false} ActionMeets(k: Cont, request: Request)
    ensures Met(k, request, false) == Meeting(Visited(k, false), false)
  {
    match k
    case Chain(inner, outer) =>
      ActionMeets(inner, request);
      ActionMeets(outer, request);
    case Boundary(_, inner, _) =>
      ActionMeets(inner, request);
    case _ =>
  }

  /** No policy restoration with something inside stands behind the frame that ends the error. */
  predicate EntersRestores(k: Cont, request: Request, raising: bool) {
    match k
    case Chain(inner, outer) =>
      EntersRestores(inner, request, raising) && EntersRestores(outer, request, Met(inner, request, raising).raising)
    case Boundary(_, inner, _) => EntersRestores(inner, request, raising)
    case RestorePolicy(_, inner) => inner.BlockValue? || (raising && EntersRestores(inner, request, raising))
    case _ => true
  }

  predicate Whole(k: Cont) {
    k.RestorePolicy? && !k.inner.BlockValue?
  }

  lemma {:induction false} VisitedOpens(k: Cont)
    ensures forall frame <- Visited(k, true) :: !Whole(frame)
  {
    match k
    case Chain(inner, outer) =>
      VisitedOpens(inner);
      VisitedOpens(outer);
    case Boundary(_, inner, _) => VisitedOpens(inner);
    case RestorePolicy(_, inner) => VisitedOpens(inner);
    case _ =>
  }

  lemma {:induction false} MetIsVisited(k: Cont, request: Request, raising: bool)
    ensures if EntersRestores(k, request, raising) then Met(k, request, raising).frames == Visited(k, true)
            else exists i | 0 <= i < |Met(k, request, raising).frames| :: Whole(Met(k, request, raising).frames[i])
    decreases k, 0
  {
    hide Whole;
    var frames := Met(k, request, raising).frames;
    match k
    case Chain(inner, outer) =>
      var first := Met(inner, request, raising);
      var second := Met(outer, request, first.raising);
      MetIsVisited(inner, request, raising);
      MetIsVisited(outer, request, first.raising);
      if !EntersRestores(inner, request, raising) {
        var i :| 0 <= i < |first.frames| && Whole(first.frames[i]);
        assert Whole(frames[i]);
      } else if !EntersRestores(outer, request, first.raising) {
        var i :| 0 <= i < |second.frames| && Whole(second.frames[i]);
        assert Whole(frames[|first.frames| + i]);
      }
    case Boundary(_, inner, _) =>
      MetInside(k, request, raising);
    case RestorePolicy(_, inner) =>
      if !inner.BlockValue? && !raising {
        assert Whole(frames[0]) by {
          IsWhole(k);
        }
      } else if !inner.BlockValue? {
        MetInside(k, request, raising);
      }
    case _ =>
  }

  lemma IsWhole(k: Cont)
    ensures Whole(k) == (k.RestorePolicy? && !k.inner.BlockValue?)
  {
  }

  lemma {:induction false} MetInside(k: Cont, request: Request, raising: bool)
    requires k.Boundary? || (k.RestorePolicy? && raising && !k.inner.BlockValue?)
    ensures var frames := Met(k, request, raising).frames;
            if EntersRestores(k, request, raising) then frames == Visited(k, true)
            else exists i | 0 <= i < |frames| :: Whole(frames[i])
    decreases k.inner, 1
  {
    hide Whole;
    MetIsVisited(k.inner, request, raising);
    if !EntersRestores(k.inner, request, raising) {
      var inside := Met(k.inner, request, raising).frames;
      var i :| 0 <= i < |inside| && Whole(inside[i]);
      assert Whole(Met(k, request, raising).frames[i]);
    }
  }

  /** A typed error meets the frames in the opened order exactly when no policy restoration
      with something inside comes after the frame that ends it. */
  lemma OpenedExactly(k: Cont, request: Request)
    ensures Met(k, request, true).frames == Visited(k, true) <==> EntersRestores(k, request, true)
  {
    VisitedOpens(k);
    MetIsVisited(k, request, true);
  }

  /** Such a restoration is handed over whole: the error is caught before it. */
  lemma CapturedErrorKeepsRestoreWhole()
    ensures var f := Flow(Performed(Raise(0, 7), BlockValue), [], 1);
            var k := Chain(TryExpr({0}), RestorePolicy(2, Plain(0)));
            && !EntersRestores(k, Raise(0, 7), true)
            && Propagate(f, k).signal == Apply(RestorePolicy(2, Plain(0)), OnValue(7))
            && Propagate(f, k) != PassAll(f, Visited(k, true))
  {
    var f := Flow(Performed(Raise(0, 7), BlockValue), [], 1);
    var try, restore := TryExpr({0}), RestorePolicy(2, Plain(0));
    assert Visited(Chain(try, restore), true) == [try] + [Plain(0), RestorePolicy(2, BlockValue)];
    var caught := PassLeaf(f, try);
    assert caught.signal == Completed(7);
    PassAllConcat(f, [try], [Plain(0), RestorePolicy(2, BlockValue)]);
    PassAllOne(f, try);
    PassAllConcat(caught, [Plain(0)], [RestorePolicy(2, BlockValue)]);
    PassAllOne(caught, Plain(0));
    PassAllOne(PassLeaf(caught, Plain(0)), RestorePolicy(2, BlockValue));
    assert [Plain(0), RestorePolicy(2, BlockValue)] == [Plain(0)] + [RestorePolicy(2, BlockValue)];
  }

  // ------------------------------------------------------- the task in place

  /** Work still on the stack; its last element is met next. */
  function PropagateWork(f: Flow, work: seq<Cont>): Flow
    decreases |work|
  {
    if work == [] then f
    else PropagateWork(Propagate(f, work[|work| - 1]), work[..|work| - 1])
  }

  lemma WorkPush(f: Flow, rest: seq<Cont>, k: Cont)
    ensures PropagateWork(f, rest + [k]) == PropagateWork(Propagate(f, k), rest)
  {
    hide Propagate;
    assert (rest + [k])[..|rest|] == rest;
  }

  function WorkSize(work: seq<Cont>): nat {
    if work == [] then 0 else WorkSize(work[..|work| - 1]) + Units(work[|work| - 1])
  }

  /** Turns of the loop a continuation takes at most. */
  function Units(k: Cont): nat {
    match k
    case Chain(inner, outer) => 1 + Units(inner) + Units(outer)
    case Boundary(_, inner, _) => if inner.BlockValue? then 1 else 2 + Units(inner)
    case RestorePolicy(_, inner) => if inner.BlockValue? then 1 else 2 + Units(inner)
    case _ => 1
  }

  lemma WorkSizePush(rest: seq<Cont>, k: Cont)
    ensures WorkSize(rest + [k]) == WorkSize(rest) + Units(k)
  {
    assert (rest + [k])[..|rest|] == rest;
  }

  lemma WorkEmpty(f: Flow)
    ensures PropagateWork(f, []) == f
  {
  }

  class EvalTask {
    var handlerStack: seq<Scope>
    var modelPolicy: nat
    var nextHandlerScope: nat

    function State(signal: Signal): Flow
      reads this
    {
      Flow(signal, handlerStack, modelPolicy)
    }

    constructor ()
      ensures handlerStack == [] && nextHandlerScope == 0
    {
      handlerStack := [];
      modelPolicy := 0;
      nextHandlerScope := 0;
    }

    method CloseHandlerScope(signal: Signal, id: nat) returns (result: Signal)
      modifies this`handlerStack
      ensures State(result) == CloseScope(old(State(signal)), id)
    {
      if handlerStack == [] {
        return Fault(StackEmpty);
      }
      var active := handlerStack[|handlerStack| - 1];
      if active.id != id {
        return Fault(StackMismatch);
      }
      handlerStack := handlerStack[..|handlerStack| - 1];
      result := signal;
    }

    method OpenHandlerScope(arms: seq<Arm>) returns (signal: Signal)
      modifies this`handlerStack, this`nextHandlerScope
      ensures signal == Eval(EvalExpr, Boundary(old(nextHandlerScope), BlockValue, arms))
      ensures handlerStack == old(handlerStack) + [Scope(old(nextHandlerScope), arms)]
      ensures nextHandlerScope == old(nextHandlerScope) + 1
    {
      var id := nextHandlerScope;
      nextHandlerScope := nextHandlerScope + 1;
      handlerStack := handlerStack + [Scope(id, arms)];
      signal := WrapHandlerBoundary(Eval(EvalExpr, BlockValue), id, arms);
    }

    method WrapHandlerBoundary(signal: Signal, id: nat, arms: seq<Arm>) returns (result: Signal)
      requires signal.Apply? || signal.Eval? || signal.HostCall?
      ensures State(result) == WrapBoundary(State(signal), id, arms)
    {
      var count := HandlerScopeOccurrences(SignalCont(signal), id);
      if count == 0 {
        result := WithCont(signal, Boundary(id, SignalCont(signal), arms));
      } else if count == 1 {
        result := signal;
      } else {
        result := Fault(DuplicateOwner);
      }
    }

    method SuspendHandlerForPerform(signal: Signal, id: nat, arms: seq<Arm>) returns (result: Signal)
      requires signal.Performed?
      modifies this`handlerStack
      ensures State(result) == SuspendForPerform(old(State(signal)), id, arms)
    {
      var count := HandlerScopeOccurrences(signal.cont, id);
      if count != 0 {
        return Fault(ForwardedOwner);
      }
      result := CloseHandlerScope(signal, id);
      if !result.Fault? {
        result := Performed(signal.request, Reenter(Boundary(id, signal.cont, arms)));
      }
    }

    method ContinueHandleSignal(input: Signal, id: nat, arms: seq<Arm>) returns (signal: Signal)
      modifies this`handlerStack
      ensures State(signal) == ContinueHandle(old(State(input)), id, arms)
    {
      signal := input;
      if signal.Performed? {
        var matched := DispatchHandler(signal.request, arms);
        if !matched {
          signal := SuspendHandlerForPerform(signal, id, arms);
          return;
        }
        signal := Eval(EvalBlock, Dispatch(signal.cont));
      }
      if signal.Apply? || signal.Eval? || signal.HostCall? {
        signal := WrapHandlerBoundary(signal, id, arms);
      } else {
        signal := CloseHandlerScope(signal, id);
      }
    }

    method ReenterHandler(boundary: Cont, v: Value) returns (signal: Signal)
      modifies this`handlerStack
      ensures State(signal) == ReenterScope(old(State(Completed(v))), boundary, v)
    {
      if !boundary.Boundary? {
        return Fault(MissingBoundary);
      }
      if handlerStack != [] && handlerStack[|handlerStack| - 1].id >= boundary.id {
        return Fault(ReentryOrder);
      }
      handlerStack := handlerStack + [Scope(boundary.id, boundary.arms)];
      signal := Apply(boundary, OnValue(v));
    }

    method PassFrame(signal: Signal, leaf: Cont) returns (result: Signal)
      modifies this`handlerStack, this`modelPolicy
      ensures State(result) == PassLeaf(old(State(signal)), leaf)
    {
      if signal.Performed? {
        match leaf {
          case Boundary(id, _, arms) =>
            result := ContinueHandleSignal(signal, id, arms);
          case RestorePolicy(policy, _) =>
            result := signal;
            if signal.request.Raise? {
              modelPolicy := policy;
            } else {
              result := Performed(signal.request, Compose(signal.cont, leaf));
            }
          case TryExpr(captured) =>
            if Captures(captured, signal.request) {
              result := Completed(Payload(signal.request));
            } else {
              result := Performed(signal.request, Compose(signal.cont, leaf));
            }
          case _ =>
            result := Performed(signal.request, Compose(signal.cont, leaf));
        }
      } else {
        result := ContinueChain(signal, leaf);
      }
    }

    /** The work-stack loop: it terminates, and it computes `Propagate` on every tree. */
    method ApplyPerformToContinuation(request: Request, continuation: Cont) returns (signal: Signal)
      modifies this`handlerStack, this`modelPolicy
      ensures State(signal) == Propagate(old(State(Performed(request, BlockValue))), continuation)
    {
      hide Propagate, PassLeaf, PropagateWork, Units, WorkSize;
      signal := Performed(request, BlockValue);
      var work := [continuation];
      ghost var goal := Propagate(State(signal), continuation);
      assert [] + [continuation] == work;
      WorkPush(State(signal), [], continuation);
      WorkEmpty(goal);
      while work != []
        invariant PropagateWork(State(signal), work) == goal
        decreases WorkSize(work)
      {
        var k := work[|work| - 1];
        var rest := work[..|work| - 1];
        assert work == rest + [k];
        ghost var f := State(signal);
        WorkPush(f, rest, k);
        WorkSizePush(rest, k);
        match k {
          case Chain(inner, outer) =>
            LoopChain(f, rest, inner, outer);
            work := rest + [outer] + [inner];
          case Boundary(id, inner, arms) =>
            LoopBoundary(f, rest, id, inner, arms);
            if inner.BlockValue? {
              signal := PassFrame(signal, k);
              work := rest;
            } else {
              work := rest + [Boundary(id, BlockValue, arms)] + [inner];
            }
          case RestorePolicy(policy, inner) =>
            LoopRestore(f, rest, policy, inner);
            if !inner.BlockValue? && Raising(signal) {
              work := rest + [RestorePolicy(policy, BlockValue)] + [inner];
            } else {
              signal := PassFrame(signal, k);
              work := rest;
            }
          case _ =>
            LoopLeaf(f, k);
            signal := PassFrame(signal, k);
            work := rest;
        }
      }
      WorkEmpty(State(signal));
    }
  }

  method DispatchHandler(request: Request, arms: seq<Arm>) returns (matched: bool)
    ensures matched == ScopeMatches(request, arms)
    ensures matched <==> (request.Raise? && RaiseArm(request.errorType) in arms)
                         || (request.Action? && request.symbol.Some? && ActionArm(request.symbol) in arms)
  {
    ScopeMatchesExactly(request, arms);
    matched := false;
    for i := 0 to |arms|
      invariant !matched
      invariant forall j :: 0 <= j < i ==> !ArmMatches(request, arms[j])
    {
      if ArmMatches(request, arms[i]) {
        return true;
      }
    }
  }

  lemma LoopChain(f: Flow, rest: seq<Cont>, inner: Cont, outer: Cont)
    ensures PropagateWork(Propagate(f, Chain(inner, outer)), rest) == PropagateWork(f, rest + [outer] + [inner])
    ensures WorkSize(rest + [outer] + [inner]) < WorkSize(rest) + Units(Chain(inner, outer))
  {
    hide *;
    WorkPush(f, rest + [outer], inner);
    WorkPush(Propagate(f, inner), rest, outer);
    WorkSizePush(rest + [outer], inner);
    WorkSizePush(rest, outer);
    ChainStep(f, inner, outer);
  }

  lemma ChainStep(f: Flow, inner: Cont, outer: Cont)
    ensures Propagate(f, Chain(inner, outer)) == Propagate(Propagate(f, inner), outer)
    ensures Units(Chain(inner, outer)) == 1 + Units(inner) + Units(outer)
  {
  }

  lemma LoopBoundary(f: Flow, rest: seq<Cont>, id: nat, inner: Cont, arms: seq<Arm>)
    ensures var bare := Boundary(id, BlockValue, arms);
            if inner.BlockValue? then Propagate(f, Boundary(id, inner, arms)) == PassLeaf(f, bare)
            else && PropagateWork(Propagate(f, Boundary(id, inner, arms)), rest) == PropagateWork(f, rest + [bare] + [inner])
                 && WorkSize(rest + [bare] + [inner]) < WorkSize(rest) + Units(Boundary(id, inner, arms))
    ensures Units(Boundary(id, inner, arms)) > 0
  {
    var bare := Boundary(id, BlockValue, arms);
    hide PassLeaf;
    if !inner.BlockValue? {
      WorkPush(f, rest + [bare], inner);
      WorkPush(Propagate(f, inner), rest, bare);
      WorkSizePush(rest + [bare], inner);
      WorkSizePush(rest, bare);
    }
  }

  lemma LoopRestore(f: Flow, rest: seq<Cont>, policy: nat, inner: Cont)
    ensures var k := RestorePolicy(policy, inner);
            var bare := RestorePolicy(policy, BlockValue);
            if !inner.BlockValue? && Raising(f.signal)
            then && PropagateWork(Propagate(f, k), rest) == PropagateWork(f, rest + [bare] + [inner])
                 && WorkSize(rest + [bare] + [inner]) < WorkSize(rest) + Units(k)
            else Propagate(f, k) == PassLeaf(f, k)
    ensures Units(RestorePolicy(policy, inner)) > 0
  {
    var bare := RestorePolicy(policy, BlockValue);
    hide PassLeaf;
    if !inner.BlockValue? && Raising(f.signal) {
      WorkPush(f, rest + [bare], inner);
      WorkPush(Propagate(f, inner), rest, bare);
      WorkSizePush(rest + [bare], inner);
      WorkSizePush(rest, bare);
    }
  }

  lemma LoopLeaf(f: Flow, k: Cont)
    requires !k.Chain? && !k.Boundary? && !k.RestorePolicy?
    ensures Propagate(f, k) == PassLeaf(f, k) && Units(k) == 1
  {
    hide PassLeaf;
  }
}
