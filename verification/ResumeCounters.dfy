/** Scope identities after a restored checkpoint: every new one differs from every old one. */
module ResumeCounters {
  import opened Continuations
  import opened HandlerMachine
  import opened HandlerMirror
  import opened HandlerRuns

  /** `id` is the scope of a boundary somewhere in `roots`. */
  predicate Occurs(roots: seq<Cont>, id: nat) {
    exists i :: 0 <= i < |roots| && Occurrences(roots[i], id) > 0
  }

  /** The scope of `k` itself and the continuations inside it. */
  function Inside(k: Cont): seq<Cont> {
    match k
    case Boundary(_, inner, _) => [inner]
    case RestorePolicy(_, inner) => [inner]
    case ScopedPolicy(_, inner) => [inner]
    case Reenter(boundary) => [boundary]
    case CallBoundary(outer) => [outer]
    case Dispatch(outer) => [outer]
    case Chain(inner, outer) => [outer, inner]
    case _ => []
  }

  lemma OccursInside(k: Cont, id: nat)
    ensures Occurrences(k, id) > 0 <==> (k.Boundary? && k.id == id) || Occurs(Inside(k), id)
  {
    var parts := Inside(k);
    if k.Chain? {
      assert parts[0] == k.outer && parts[1] == k.inner;
    } else if parts != [] {
      assert |parts| == 1 && (Occurrences(parts[0], id) > 0 ==> Occurs(parts, id));
    }
  }

  lemma OccursConcat(left: seq<Cont>, right: seq<Cont>, id: nat)
    ensures Occurs(left + right, id) <==> Occurs(left, id) || Occurs(right, id)
  {
    if Occurs(left, id) {
      var i :| 0 <= i < |left| && Occurrences(left[i], id) > 0;
      assert (left + right)[i] == left[i];
    }
    if Occurs(right, id) {
      var i :| 0 <= i < |right| && Occurrences(right[i], id) > 0;
      assert (left + right)[|left| + i] == right[i];
    }
  }

  lemma InsideSmaller(rest: seq<Cont>, k: Cont)
    ensures TotalSize(rest + Inside(k)) < TotalSize(rest) + Size(k)
  {
    if k.Chain? {
      PushSize(rest, k.outer);
      PushSize(rest + [k.outer], k.inner);
      assert rest + Inside(k) == rest + [k.outer] + [k.inner];
    } else if |Inside(k)| == 1 {
      PushSize(rest, Inside(k)[0]);
      assert Inside(k) == [Inside(k)[0]];
    } else {
      assert rest + Inside(k) == rest;
    }
  }

  /** Searches every saved continuation for scope identities. */
  method HandlerScopeIds(roots: seq<Cont>) returns (found: set<nat>)
    ensures forall id: nat :: id in found <==> Occurs(roots, id)
  {
    hide Occurrences, TotalSize, Size, Occurs, Inside;
    found := {};
    var work := roots;
    while work != []
      invariant forall id: nat :: Occurs(roots, id) <==> id in found || Occurs(work, id)
      decreases TotalSize(work)
    {
      var node, rest := work[|work| - 1], work[..|work| - 1];
      ghost var before, known := work, found;
      PopSize(work);
      InsideSmaller(rest, node);
      assert work == rest + [node];
      if node.Boundary? {
        found := found + {node.id};
      }
      work := rest + Inside(node);
      forall id: nat ensures Occurs(before, id) || id in known <==> id in found || Occurs(work, id) {
        OccursConcat(rest, [node], id);
        OccursConcat(rest, Inside(node), id);
        OccursOne(node, id);
        OccursInside(node, id);
      }
    }
    forall id: nat ensures !Occurs([], id) {
      OccursNone(id);
    }
  }

  lemma OccursOne(k: Cont, id: nat)
    ensures Occurs([k], id) <==> Occurrences(k, id) > 0
  {
    assert [k][0] == k;
  }

  lemma OccursNone(id: nat)
    ensures !Occurs([], id)
  {
  }

  /** One past the largest identity, or zero when there is none. */
  method NextAfter(ids: set<nat>) returns (next: nat)
    ensures forall id <- ids :: id < next
    ensures next == 0 || next - 1 in ids
  {
    next := 0;
    var rest := ids;
    while rest != {}
      invariant rest <= ids && (forall id <- ids :: id in rest || id < next) && (next == 0 || next - 1 in ids)
      decreases |rest|
    {
      var id :| id in rest;
      if id >= next {
        next := id + 1;
      }
      rest := rest - {id};
    }
  }

  /** The continuations of a captured machine. */
  function Roots(m: Machine): seq<Cont> {
    [SignalCont(m.flow.signal)] + StackRoots(m.stack)
  }

  function StackRoots(stack: seq<Frame>): seq<Cont> {
    if stack == [] then [] else [IntoContinuation(stack[|stack| - 1])] + StackRoots(stack[..|stack| - 1])
  }

  lemma {:induction false} LeavesOccur(k: Cont, id: nat)
    ensures OccurrencesIn(Leaves(k), id) == Occurrences(k, id)
  {
    match k
    case Chain(inner, outer) =>
      LeavesOccur(inner, id);
      LeavesOccur(outer, id);
      ConcatOccurrences(Leaves(inner), Leaves(outer), id);
    case BlockValue =>
    case _ =>
      assert [k][1..] == [];
  }

  lemma {:induction false} StackOccurs(stack: seq<Frame>, id: nat)
    ensures OccurrencesIn(StackLeaves(stack), id) > 0 <==> Occurs(StackRoots(stack), id)
    decreases |stack|
  {
    hide Occurrences, Leaves, Occurs, IntoContinuation;
    if stack == [] {
      OccursNone(id);
    } else {
      var top, below := stack[|stack| - 1], stack[..|stack| - 1];
      StackOccurs(below, id);
      LeavesOccur(IntoContinuation(top), id);
      ConcatOccurrences(FrameLeaves(top), StackLeaves(below), id);
      OccursConcat([IntoContinuation(top)], StackRoots(below), id);
      OccursOne(IntoContinuation(top), id);
    }
  }

  lemma FramesOccur(m: Machine, id: nat)
    ensures OccurrencesIn(Frames(m), id) > 0 <==> Occurs(Roots(m), id)
  {
    hide Occurrences, Leaves, Occurs, StackLeaves, StackRoots, OccurrencesIn;
    var k := SignalCont(m.flow.signal);
    LeavesOccur(k, id);
    StackOccurs(m.stack, id);
    ConcatOccurrences(Leaves(k), StackLeaves(m.stack), id);
    OccursConcat([k], StackRoots(m.stack), id);
    OccursOne(k, id);
  }

  /** Restores a captured machine: the counter is seeded above every identity in the handler
      stack and in the saved continuations, so the machine goes on with its books in order. */
  method Restore(captured: Machine) returns (m: Machine)
    requires Inv(captured)
    ensures m == captured.(next := m.next) && Inv(m)
    ensures forall id: nat :: OccurrencesIn(Frames(captured), id) > 0 ==> id < m.next
    ensures forall scope <- captured.flow.handlers :: scope.id < m.next
    ensures !captured.flow.signal.Fault? ==> m.next <= captured.next
  {
    hide Occurrences, Leaves, Occurs, StackLeaves, StackRoots, OccurrencesIn, Frames, Roots, ScopesIn;
    var found := HandlerScopeIds(Roots(captured));
    var stacked := set scope | scope in captured.flow.handlers :: scope.id;
    var next := NextAfter(found + stacked);
    m := captured.(next := next);
    forall id: nat ensures OccurrencesIn(Frames(captured), id) > 0 ==> id < next {
      FramesOccur(captured, id);
    }
    forall scope | scope in captured.flow.handlers ensures scope.id < next {
      assert scope.id in stacked;
    }
    SeededInv(captured, next);
    if !captured.flow.signal.Fault? && next > 0 {
      SeedIsOld(captured, next - 1);
      FramesOccur(captured, next - 1);
    }
  }

  /** A counter above every identity keeps the invariant. */
  lemma SeededInv(m: Machine, next: nat)
    requires Inv(m)
    requires forall id: nat :: OccurrencesIn(Frames(m), id) > 0 ==> id < next
    ensures Inv(m.(next := next))
  {
    hide OccurrencesIn, NestedIn, ScopesIn;
    assert Frames(m.(next := next)) == Frames(m);
  }

  lemma SeedIsOld(m: Machine, id: nat)
    requires Inv(m) && !m.flow.signal.Fault?
    ensures OccurrencesIn(Frames(m), id) > 0 ==> id < m.next
    ensures (exists scope <- m.flow.handlers :: scope.id == id) ==> OccurrencesIn(Frames(m), id) > 0
  {
    hide OccurrencesIn, NestedIn;
    if scope :| scope in m.flow.handlers && scope.id == id {
      StackLeavesFlat(m.stack);
      var i :| 0 <= i < |m.flow.handlers| && m.flow.handlers[i] == scope;
      ScopesOccur(Frames(m), i);
    }
  }
}
