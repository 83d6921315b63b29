/** Reified continuations and the three worklists that walk them.

    A `Cont` is what the evaluator still has to do. `Chain(inner, outer)` runs
    `inner` first; a live `Boundary` sits outside everything that precedes it. */
module Continuations {
  type Value = int

  datatype Option<+T> = None | Some(value: T)

  /** A requested operation: a resolved (or unresolved) action symbol, or a typed error. */
  datatype Request =
    | Action(symbol: Option<nat>, args: Value)
    | Raise(errorType: nat, payload: Value)

  datatype Arm =
    | ActionArm(symbol: Option<nat>)
    | RaiseArm(errorType: nat)

  datatype Scope = Scope(id: nat, arms: seq<Arm>)

  /** Every frame that merely computes is `Plain`; what it emits is chosen by the environment. */
  datatype Cont =
    | BlockValue
    | Plain(tag: nat)
    | ExitReturn
    | ExitResume
    | ExitFinish
    | TryExpr(captured: set<nat>)
    | Loop(tag: nat)
    | HandleHandler
    | CallBoundary(outer: Cont)
    | Dispatch(outer: Cont)
    | Reenter(boundary: Cont)
    | Boundary(id: nat, inner: Cont, arms: seq<Arm>)
    | RestorePolicy(policy: nat, inner: Cont)
    | ScopedPolicy(policy: nat, inner: Cont)
    | Chain(inner: Cont, outer: Cont)

  function Compose(inner: Cont, outer: Cont): (k: Cont)
    ensures Leaves(k) == Leaves(inner) + Leaves(outer)
  {
    if inner.BlockValue? then outer else Chain(inner, outer)
  }

  // ------------------------------------------------------------ matching

  predicate ArmMatches(request: Request, arm: Arm) {
    match (request, arm)
    case (Raise(error, _), RaiseArm(handled)) => error == handled
    case (Action(Some(left), _), ActionArm(Some(right))) => left == right
    case _ => false
  }

  predicate ScopeMatches(request: Request, arms: seq<Arm>) {
    exists i :: 0 <= i < |arms| && ArmMatches(request, arms[i])
  }

  /** An arm for the very action symbol, or the very error type, that is requested. */
  lemma ScopeMatchesExactly(request: Request, arms: seq<Arm>)
    ensures ScopeMatches(request, arms)
            <==> (request.Raise? && RaiseArm(request.errorType) in arms)
                 || (request.Action? && request.symbol.Some? && ActionArm(request.symbol) in arms)
  {
    if ScopeMatches(request, arms) {
      var i :| 0 <= i < |arms| && ArmMatches(request, arms[i]);
      assert arms[i] in arms;
    }
    if request.Raise? && RaiseArm(request.errorType) in arms {
      var i :| 0 <= i < |arms| && arms[i] == RaiseArm(request.errorType);
      assert ArmMatches(request, arms[i]);
    }
    if request.Action? && request.symbol.Some? && ActionArm(request.symbol) in arms {
      var i :| 0 <= i < |arms| && arms[i] == ActionArm(request.symbol);
      assert ArmMatches(request, arms[i]);
    }
  }

  // ------------------------------------------------------- flattened order

  /** The leaves of the chain structure, innermost first. */
  function Raw(k: Cont): (leaves: seq<Cont>)
    ensures leaves != []
    ensures forall leaf <- leaves :: !leaf.Chain?
  {
    match k
    case Chain(inner, outer) => Raw(inner) + Raw(outer)
    case _ => [k]
  }

  /** The same order without the identity frames. */
  function Leaves(k: Cont): (leaves: seq<Cont>)
    ensures forall leaf <- leaves :: !leaf.Chain? && !leaf.BlockValue?
  {
    match k
    case Chain(inner, outer) => Leaves(inner) + Leaves(outer)
    case BlockValue => []
    case _ => [k]
  }

  function LeavesOf(frames: seq<Cont>): seq<Cont> {
    if frames == [] then [] else Leaves(frames[0]) + LeavesOf(frames[1..])
  }

  lemma {:induction false} LeavesOfConcat(left: seq<Cont>, right: seq<Cont>)
    ensures LeavesOf(left + right) == LeavesOf(left) + LeavesOf(right)
  {
    hide Leaves;
    if left == [] {
      assert left + right == right;
    } else {
      LeavesOfConcat(left[1..], right);
      assert (left + right)[1..] == left[1..] + right;
    }
  }

  lemma {:induction false} RawLeaves(k: Cont)
    ensures LeavesOf(Raw(k)) == Leaves(k)
  {
    match k
    case Chain(inner, outer) =>
      RawLeaves(inner);
      RawLeaves(outer);
      LeavesOfConcat(Raw(inner), Raw(outer));
    case _ =>
      assert Raw(k)[1..] == [];
  }

  function Reversed(frames: seq<Cont>): seq<Cont> {
    if frames == [] then [] else Reversed(frames[1..]) + [frames[0]]
  }

  lemma {:induction false} ReversedConcat(left: seq<Cont>, right: seq<Cont>)
    ensures Reversed(left + right) == Reversed(right) + Reversed(left)
  {
    if left == [] {
      assert left + right == right;
    } else {
      ReversedConcat(left[1..], right);
      assert (left + right)[1..] == left[1..] + right;
    }
  }

  /** Scratch branches still to be visited: the last one is next. */
  function PendingRaw(pending: seq<Cont>): seq<Cont> {
    if pending == [] then [] else PendingRaw(pending[..|pending| - 1]) + Raw(pending[|pending| - 1])
  }

  function Size(k: Cont): (size: nat)
    ensures size > 0
  {
    match k
    case Chain(inner, outer) => 1 + Size(inner) + Size(outer)
    case CallBoundary(outer) => 1 + Size(outer)
    case Dispatch(outer) => 1 + Size(outer)
    case Reenter(boundary) => 1 + Size(boundary)
    case Boundary(_, inner, _) => 1 + Size(inner)
    case RestorePolicy(_, inner) => 1 + Size(inner)
    case ScopedPolicy(_, inner) => 1 + Size(inner)
    case _ => 1
  }

  function TotalSize(pending: seq<Cont>): nat {
    if pending == [] then 0
    else TotalSize(pending[..|pending| - 1]) + Size(pending[|pending| - 1])
  }

  lemma PushSize(pending: seq<Cont>, k: Cont)
    ensures TotalSize(pending + [k]) == TotalSize(pending) + Size(k)
  {
    assert (pending + [k])[..|pending|] == pending;
  }

  lemma PopSize(pending: seq<Cont>)
    requires pending != []
    ensures TotalSize(pending) == TotalSize(pending[..|pending| - 1]) + Size(pending[|pending| - 1])
  {
  }

  lemma PushRaw(pending: seq<Cont>, k: Cont)
    ensures PendingRaw(pending + [k]) == PendingRaw(pending) + Raw(k)
  {
    hide Raw;
    assert (pending + [k])[..|pending|] == pending;
  }

  lemma VisitChain(visited: seq<Cont>, pending: seq<Cont>, inner: Cont, outer: Cont)
    ensures visited + Reversed(PendingRaw(pending + [inner]) + Raw(outer))
            == visited + Reversed(PendingRaw(pending) + Raw(Chain(inner, outer)))
    ensures TotalSize(pending + [inner]) + Size(outer) < TotalSize(pending) + Size(Chain(inner, outer))
  {
    ChainRaw(inner, outer);
    ChainSize(inner, outer);
    PushSize(pending, inner);
    PushRaw(pending, inner);
    hide *;
    assert PendingRaw(pending) + Raw(inner) + Raw(outer) == PendingRaw(pending) + (Raw(inner) + Raw(outer));
  }

  lemma ChainRaw(inner: Cont, outer: Cont)
    ensures Raw(Chain(inner, outer)) == Raw(inner) + Raw(outer)
  {
  }

  lemma ChainSize(inner: Cont, outer: Cont)
    ensures Size(Chain(inner, outer)) == 1 + Size(inner) + Size(outer)
  {
  }

  lemma VisitLeaf(visited: seq<Cont>, pending: seq<Cont>, leaf: Cont)
    requires !leaf.Chain?
    ensures visited + Reversed(PendingRaw(pending) + Raw(leaf))
            == (visited + [leaf]) + Reversed(PendingRaw(pending))
  {
    ReversedConcat(PendingRaw(pending), [leaf]);
    hide PendingRaw;
    assert [leaf][1..] == [];
  }

  /** Outer leaves first, so that they can go straight onto the machine stack. */
  method VisitStackOrder(k: Cont) returns (visited: seq<Cont>)
    ensures visited == Reversed(Raw(k))
  {
    hide Size, TotalSize, Raw;
    visited := [];
    var continuation := k;
    var pending: seq<Cont> := [];
    assert PendingRaw(pending) + Raw(continuation) == Raw(k);
    hide Reversed;
    while true
      invariant visited + Reversed(PendingRaw(pending) + Raw(continuation)) == Reversed(Raw(k))
      decreases TotalSize(pending) + Size(continuation)
    {
      if continuation.Chain? {
        VisitChain(visited, pending, continuation.inner, continuation.outer);
        pending := pending + [continuation.inner];
        continuation := continuation.outer;
      } else {
        VisitLeaf(visited, pending, continuation);
        visited := visited + [continuation];
        if pending == [] {
          NoneReversed();
          return;
        }
        PopSize(pending);
        continuation := pending[|pending| - 1];
        pending := pending[..|pending| - 1];
      }
    }
  }

  lemma NoneReversed()
    ensures Reversed(PendingRaw([])) == []
  {
  }

  // ------------------------------------------------------ scope occurrences

  /** How many boundaries of scope `id` the continuation holds, live or dormant. */
  function Occurrences(k: Cont, id: nat): nat {
    match k
    case Boundary(own, inner, _) => (if own == id then 1 else 0) + Occurrences(inner, id)
    case RestorePolicy(_, inner) => Occurrences(inner, id)
    case ScopedPolicy(_, inner) => Occurrences(inner, id)
    case Reenter(boundary) => Occurrences(boundary, id)
    case CallBoundary(outer) => Occurrences(outer, id)
    case Dispatch(outer) => Occurrences(outer, id)
    case Chain(inner, outer) => Occurrences(inner, id) + Occurrences(outer, id)
    case _ => 0
  }

  function TotalOccurrences(pending: seq<Cont>, id: nat): nat {
    if pending == [] then 0
    else TotalOccurrences(pending[..|pending| - 1], id) + Occurrences(pending[|pending| - 1], id)
  }

  lemma PushOccurrences(pending: seq<Cont>, k: Cont, id: nat)
    ensures TotalOccurrences(pending + [k], id) == TotalOccurrences(pending, id) + Occurrences(k, id)
    ensures TotalSize(pending + [k]) == TotalSize(pending) + Size(k)
  {
    hide Occurrences, Size;
    assert (pending + [k])[..|pending|] == pending;
  }

  lemma PopOccurrences(pending: seq<Cont>, id: nat)
    requires pending != []
    ensures var k, rest := pending[|pending| - 1], pending[..|pending| - 1];
            && TotalSize(pending) == TotalSize(rest) + Size(k)
            && TotalOccurrences(pending, id) == TotalOccurrences(rest, id) + Occurrences(k, id)
  {
    hide Occurrences, Size;
  }

  /** What one step of the search adds to the count and leaves to visit. */
  lemma OccurrencesHere(k: Cont, id: nat)
    ensures k.Boundary? ==> Occurrences(k, id) == (if k.id == id then 1 else 0) + Occurrences(k.inner, id)
                            && Size(k) == 1 + Size(k.inner)
    ensures k.RestorePolicy? ==> Occurrences(k, id) == Occurrences(k.inner, id) && Size(k) == 1 + Size(k.inner)
    ensures k.ScopedPolicy? ==> Occurrences(k, id) == Occurrences(k.inner, id) && Size(k) == 1 + Size(k.inner)
    ensures k.Reenter? ==> Occurrences(k, id) == Occurrences(k.boundary, id) && Size(k) == 1 + Size(k.boundary)
    ensures k.CallBoundary? ==> Occurrences(k, id) == Occurrences(k.outer, id) && Size(k) == 1 + Size(k.outer)
    ensures k.Dispatch? ==> Occurrences(k, id) == Occurrences(k.outer, id) && Size(k) == 1 + Size(k.outer)
    ensures k.Chain? ==> Occurrences(k, id) == Occurrences(k.inner, id) + Occurrences(k.outer, id)
                         && Size(k) == 1 + Size(k.inner) + Size(k.outer)
    ensures !(k.Boundary? || k.RestorePolicy? || k.ScopedPolicy? || k.Reenter? || k.CallBoundary? || k.Dispatch? || k.Chain?)
            ==> Occurrences(k, id) == 0
  {
  }

  method HandlerScopeOccurrences(k: Cont, id: nat) returns (count: nat)
    ensures count == Occurrences(k, id)
  {
    hide Occurrences, Size;
    count := 0;
    var pending := [k];
    PushOccurrences([], k, id);
    assert [] + [k] == [k];
    assert TotalOccurrences([], id) == 0;
    hide TotalSize, TotalOccurrences;
    while pending != []
      invariant count + TotalOccurrences(pending, id) == Occurrences(k, id)
      invariant pending == [] ==> TotalOccurrences(pending, id) == 0
      decreases TotalSize(pending)
    {
      var continuation := pending[|pending| - 1];
      var rest := pending[..|pending| - 1];
      PopOccurrences(pending, id);
      OccurrencesHere(continuation, id);
      match continuation {
        case Boundary(own, inner, _) =>
          if own == id {
            count := count + 1;
          }
          PushOccurrences(rest, inner, id);
          pending := rest + [inner];
        case RestorePolicy(_, inner) =>
          PushOccurrences(rest, inner, id);
          pending := rest + [inner];
        case ScopedPolicy(_, inner) =>
          PushOccurrences(rest, inner, id);
          pending := rest + [inner];
        case Reenter(inner) =>
          PushOccurrences(rest, inner, id);
          pending := rest + [inner];
        case CallBoundary(outer) =>
          PushOccurrences(rest, outer, id);
          pending := rest + [outer];
        case Dispatch(outer) =>
          PushOccurrences(rest, outer, id);
          pending := rest + [outer];
        case Chain(inner, outer) =>
          PushOccurrences(rest, outer, id);
          PushOccurrences(rest + [outer], inner, id);
          pending := rest + [outer] + [inner];
        case _ =>
          pending := rest;
      }
    }
  }
}
