/** Checking that a comparison callable is pure: a worklist over a shared call-target graph. */
module Comparators {
  /** A call target. Links and child lists are shared by identity; `shared` says whether more
      than one reference exists, which is what makes an identity worth remembering. */
  datatype Target =
    | Leaf(callable: nat)
    | Scoped(link: nat, program: nat)
    | Wrapped(link: nat, shared: bool)
    | Composed(children: seq<nat>, shared: bool)
    | Forbidden

  /** Targets by identity. Links point at targets built earlier, so the graph has no cycle. */
  type Graph = g: seq<Target> | Acyclic(g) witness []

  predicate Acyclic(g: seq<Target>) {
    forall n | 0 <= n < |g| :: forall m <- Links(g[n]) :: m < n
  }

  function Links(t: Target): seq<nat> {
    match t
    case Scoped(link, _) => [link]
    case Wrapped(link, _) => [link]
    case Composed(children, _) => children
    case _ => []
  }

  /** A target read in the program that owns it. */
  type Item = (nat, nat)

  /** Which program the links of an item are read in. */
  function OwnerInside(t: Target, owner: nat): nat {
    if t.Scoped? then t.program else owner
  }

  function Successors(g: Graph, item: Item): seq<Item>
    requires item.0 < |g|
  {
    var links := Links(g[item.0]);
    seq(|links|, i requires 0 <= i < |links| => (links[i], OwnerInside(g[item.0], item.1)))
  }

  /** What the checker knows about callables: whether a callable of a program has a pure,
      deterministic, local summary. */
  type Facts = (nat, nat) -> bool

  predicate Allowed(g: Graph, pure: Facts, item: Item)
    requires item.0 < |g|
  {
    match g[item.0]
    case Leaf(callable) => pure(item.1, callable)
    case Forbidden => false
    case _ => true
  }

  /** Every leaf below is an allowed callable of the program it is read in. */
  predicate Pure(g: Graph, pure: Facts, item: Item)
    requires item.0 < |g|
    decreases item.0
  {
    && Allowed(g, pure, item)
    && forall i | 0 <= i < |Successors(g, item)| ::
         (InGraph(g, item, i); Pure(g, pure, Successors(g, item)[i]))
  }

  lemma InGraph(g: Graph, item: Item, i: nat)
    requires item.0 < |g| && i < |Successors(g, item)|
    ensures Successors(g, item)[i].0 < item.0
  {
    assert Links(g[item.0])[i] in Links(g[item.0]);
  }

  // ------------------------------------------------------------- worklist

  /** The marks an item leaves: a wrapper marks its link, a composition its child list. */
  datatype Mark = LinkMark(owner: nat, target: nat) | ListMark(owner: nat, target: nat)

  function MarkOf(g: Graph, item: Item): (mark: Mark)
    requires item.0 < |g|
  {
    if g[item.0].Wrapped? then LinkMark(item.1, g[item.0].link) else ListMark(item.1, item.0)
  }

  predicate IsShared(t: Target) {
    (t.Wrapped? || t.Composed?) && t.shared
  }

  /** Rough tree size: a bound on the work without any sharing. */
  function Weight(g: Graph, n: nat): (w: nat)
    requires n < |g|
    ensures w > 0
    decreases n, |Links(g[n])| + 1
  {
    1 + LinkWeight(g, n, 0)
  }

  function LinkWeight(g: Graph, n: nat, i: nat): nat
    requires n < |g| && i <= |Links(g[n])|
    decreases n, |Links(g[n])| - i
  {
    if i == |Links(g[n])| then 0
    else
      assert Links(g[n])[i] in Links(g[n]);
      Weight(g, Links(g[n])[i]) + LinkWeight(g, n, i + 1)
  }

  predicate InBounds(g: Graph, items: seq<Item>) {
    forall item <- items :: item.0 < |g|
  }

  function PendingWeight(g: Graph, pending: seq<Item>): nat
    requires InBounds(g, pending)
  {
    if pending == [] then 0
    else
      assert pending[|pending| - 1] in pending;
      PendingWeight(g, pending[..|pending| - 1]) + Weight(g, pending[|pending| - 1].0)
  }

  lemma PushWeight(g: Graph, pending: seq<Item>, item: Item)
    requires InBounds(g, pending) && item.0 < |g|
    ensures InBounds(g, pending + [item])
    ensures PendingWeight(g, pending + [item]) == PendingWeight(g, pending) + Weight(g, item.0)
  {
    assert (pending + [item])[..|pending|] == pending;
  }

  lemma {:induction false} PushLinks(g: Graph, pending: seq<Item>, item: Item, i: nat)
    requires InBounds(g, pending) && item.0 < |g| && i <= |Successors(g, item)|
    ensures InBounds(g, pending + Successors(g, item)[i..])
    ensures PendingWeight(g, pending + Successors(g, item)[i..]) == PendingWeight(g, pending) + LinkWeight(g, item.0, i)
    decreases |Successors(g, item)| - i
  {
    hide Weight, PendingWeight;
    var next := Successors(g, item);
    if i == |next| {
      assert pending + next[i..] == pending;
    } else {
      InGraph(g, item, i);
      PushWeight(g, pending, next[i]);
      PushLinks(g, pending + [next[i]], item, i + 1);
      assert pending + next[i..] == pending + [next[i]] + next[i + 1..];
    }
  }

  /** Everything reached so far is done, still pending, or marked by something that is. */
  ghost predicate Covered(g: Graph, done: set<Item>, pending: seq<Item>) {
    && (forall item <- done :: item.0 < |g|)
    && (forall item <- done :: forall i | 0 <= i < |Successors(g, item)| ::
          Successors(g, item)[i] in done || Successors(g, item)[i] in pending)
  }

  ghost predicate MarksCovered(g: Graph, visited: set<Mark>, done: set<Item>, pending: seq<Item>) {
    forall mark <- visited ::
      if mark.LinkMark? then (mark.target, mark.owner) in done || (mark.target, mark.owner) in pending
      else (mark.target, mark.owner) in done
  }

  /** The loop's books: `start` has been reached, all done items are allowed, and nothing
      pending is needed that `start` does not need. */
  ghost predicate Checking(g: Graph, pure: Facts, start: Item, pending: seq<Item>, visited: set<Mark>, done: set<Item>)
    requires start.0 < |g|
  {
    && InBounds(g, pending) && Covered(g, done, pending) && MarksCovered(g, visited, done, pending)
    && (start in done || start in pending)
    && (forall item <- done :: Allowed(g, pure, item))
    && (Pure(g, pure, start) ==> forall item <- pending :: Pure(g, pure, item))
  }

  /** What the loop reports: its verdict, its turns, and each shared target it expanded. */
  datatype Report = Report(ok: bool, turns: nat, expanded: seq<Mark>)

  lemma PopBounds(g: Graph, pending: seq<Item>)
    requires InBounds(g, pending) && pending != []
    ensures var item, rest := pending[|pending| - 1], pending[..|pending| - 1];
            && item.0 < |g| && InBounds(g, rest) && InBounds(g, rest + Successors(g, item))
            && PendingWeight(g, rest) < PendingWeight(g, pending)
            && PendingWeight(g, rest + Successors(g, item)) < PendingWeight(g, pending)
  {
    var item, rest := pending[|pending| - 1], pending[..|pending| - 1];
    assert item in pending;
    PushLinks(g, rest, item, 0);
    assert Successors(g, item)[0..] == Successors(g, item);
  }

  /** The worklist from any of its states: what is pending, and what has been marked. */
  function Check(g: Graph, pure: Facts, pending: seq<Item>, visited: set<Mark>): Report
    requires InBounds(g, pending)
    decreases PendingWeight(g, pending)
  {
    if pending == [] then Report(true, 0, [])
    else
      PopBounds(g, pending);
      var item, rest := pending[|pending| - 1], pending[..|pending| - 1];
      if !Allowed(g, pure, item) then Report(false, 1, [])
      else if !IsShared(g[item.0]) then After([], Check(g, pure, rest + Successors(g, item), visited))
      else
        var mark := MarkOf(g, item);
        if mark in visited then After([], Check(g, pure, rest, visited))
        else After([mark], Check(g, pure, rest + Successors(g, item), visited + {mark}))
  }

  function After(expanded: seq<Mark>, r: Report): Report {
    Report(r.ok, 1 + r.turns, expanded + r.expanded)
  }

  lemma AfterAfter(first: seq<Mark>, turns: nat, second: seq<Mark>, r: Report, whole: Report)
    requires whole == Report(After(second, r).ok, turns + After(second, r).turns, first + After(second, r).expanded)
    ensures whole == Report(r.ok, turns + 1 + r.turns, first + second + r.expanded)
  {
    assert first + (second + r.expanded) == first + second + r.expanded;
  }

  /** The loop of the source, turn by turn. */
  method ValidateComparator(g: Graph, pure: Facts, root: nat, program: nat) returns (r: Report)
    requires root < |g|
    ensures r == Check(g, pure, [(root, program)], {})
  {
    hide Allowed, MarkOf, IsShared, Successors, PendingWeight, After;
    var pending: seq<Item> := [(root, program)];
    var visited: set<Mark> := {};
    var turns, expanded := 0, [];
    ghost var whole := Check(g, pure, pending, visited);
    while pending != []
      invariant InBounds(g, pending)
      invariant whole == var rest := Check(g, pure, pending, visited);
                         Report(rest.ok, turns + rest.turns, expanded + rest.expanded)
      decreases PendingWeight(g, pending)
    {
      PopBounds(g, pending);
      var item, rest := pending[|pending| - 1], pending[..|pending| - 1];
      if !Allowed(g, pure, item) {
        return Report(false, turns + 1, expanded);
      }
      var next, more, seen := rest + Successors(g, item), [], visited;
      if IsShared(g[item.0]) {
        var mark := MarkOf(g, item);
        if mark in visited {
          next := rest;
        } else {
          more, seen := [mark], visited + {mark};
        }
      }
      AfterAfter(expanded, turns, more, Check(g, pure, next, seen), whole);
      pending, visited, turns, expanded := next, seen, turns + 1, expanded + more;
    }
    return Report(true, turns, expanded);
  }

  /** Accepts exactly the targets all of whose leaves are pure callables of their program. */
  lemma AcceptsExactly(g: Graph, pure: Facts, root: nat, program: nat)
    requires root < |g|
    ensures Check(g, pure, [(root, program)], {}).ok <==> Pure(g, pure, (root, program))
  {
    hide Checking, Check, Pure;
    var start := (root, program);
    StartChecking(g, pure, start);
    CheckDecides(g, pure, start, [start], {}, {});
  }

  lemma {:induction false} CheckDecides(g: Graph, pure: Facts, start: Item, pending: seq<Item>, visited: set<Mark>, done: set<Item>)
    requires start.0 < |g| && Checking(g, pure, start, pending, visited, done) && InBounds(g, pending)
    ensures Check(g, pure, pending, visited).ok <==> Pure(g, pure, start)
    decreases PendingWeight(g, pending)
  {
    hide Checking, Pure, PendingWeight, Allowed, MarkOf, IsShared, Successors;
    if pending == [] {
      DoneIsPure(g, pure, start, visited, done);
    } else {
      PopBounds(g, pending);
      PopChecking(g, pure, start, pending, visited, done);
      var item, rest := pending[|pending| - 1], pending[..|pending| - 1];
      if Allowed(g, pure, item) {
        var next := rest + Successors(g, item);
        if !IsShared(g[item.0]) {
          ExpandChecking(g, pure, start, pending, visited, done);
          CheckDecides(g, pure, start, next, visited, done + {item});
        } else if MarkOf(g, item) in visited {
          SkipChecking(g, pure, start, pending, visited, done);
          CheckDecides(g, pure, start, rest, visited, done + {item});
        } else {
          ExpandChecking(g, pure, start, pending, visited, done);
          CheckDecides(g, pure, start, next, visited + {MarkOf(g, item)}, done + {item});
        }
      }
    }
  }

  lemma NothingBefore(r: Report)
    ensures After([], r).expanded == r.expanded
  {
    assert [] + r.expanded == r.expanded;
  }

  predicate DistinctOutside(marks: seq<Mark>, visited: set<Mark>) {
    && (forall i, j | 0 <= i < j < |marks| :: marks[i] != marks[j])
    && (forall i | 0 <= i < |marks| :: marks[i] !in visited)
  }

  lemma NoneDistinct(visited: set<Mark>)
    ensures DistinctOutside([], visited)
  {
  }

  lemma DistinctFirst(mark: Mark, marks: seq<Mark>, visited: set<Mark>)
    requires mark !in visited && DistinctOutside(marks, visited + {mark})
    ensures DistinctOutside([mark] + marks, visited)
  {
  }

  /** Each shared target is expanded at most once for each owner. */
  lemma {:induction false} ExpandsOnce(g: Graph, pure: Facts, pending: seq<Item>, visited: set<Mark>)
    requires InBounds(g, pending)
    ensures DistinctOutside(Check(g, pure, pending, visited).expanded, visited)
    decreases PendingWeight(g, pending)
  {
    hide PendingWeight, Allowed, MarkOf, IsShared, Successors, DistinctOutside;
    if pending == [] {
      NoneDistinct(visited);
    } else {
      PopBounds(g, pending);
      var item, rest := pending[|pending| - 1], pending[..|pending| - 1];
      if !Allowed(g, pure, item) {
        NoneDistinct(visited);
      } else {
        var next := rest + Successors(g, item);
        if !IsShared(g[item.0]) {
          ExpandsOnce(g, pure, next, visited);
          NothingBefore(Check(g, pure, next, visited));
        } else if MarkOf(g, item) in visited {
          ExpandsOnce(g, pure, rest, visited);
          NothingBefore(Check(g, pure, rest, visited));
        } else {
          ExpandsOnce(g, pure, next, visited + {MarkOf(g, item)});
          DistinctFirst(MarkOf(g, item), Check(g, pure, next, visited + {MarkOf(g, item)}).expanded, visited);
        }
      }
    }
  }

  lemma StartChecking(g: Graph, pure: Facts, start: Item)
    requires start.0 < |g|
    ensures Checking(g, pure, start, [start], {}, {}) && InBounds(g, [start])
  {
  }

  lemma PopChecking(g: Graph, pure: Facts, start: Item, pending: seq<Item>, visited: set<Mark>, done: set<Item>)
    requires start.0 < |g| && pending != [] && Checking(g, pure, start, pending, visited, done)
    ensures pending[|pending| - 1].0 < |g|
    ensures !Allowed(g, pure, pending[|pending| - 1]) ==> !Pure(g, pure, start)
  {
    assert pending[|pending| - 1] in pending;
  }

  lemma SkipChecking(g: Graph, pure: Facts, start: Item, pending: seq<Item>, visited: set<Mark>, done: set<Item>)
    requires start.0 < |g| && pending != [] && Checking(g, pure, start, pending, visited, done)
    requires var item := pending[|pending| - 1];
             item.0 < |g| && Allowed(g, pure, item) && IsShared(g[item.0]) && MarkOf(g, item) in visited
    ensures var item, rest := pending[|pending| - 1], pending[..|pending| - 1];
            Checking(g, pure, start, rest, visited, done + {item})
  {
    hide Pure;
    var item, rest := pending[|pending| - 1], pending[..|pending| - 1];
    assert pending == rest + [item];
    SkipCovers(g, visited, done, rest, item);
  }

  lemma ExpandChecking(g: Graph, pure: Facts, start: Item, pending: seq<Item>, visited: set<Mark>, done: set<Item>)
    requires start.0 < |g| && pending != [] && Checking(g, pure, start, pending, visited, done)
    requires var item := pending[|pending| - 1]; item.0 < |g| && Allowed(g, pure, item)
    ensures var item, rest := pending[|pending| - 1], pending[..|pending| - 1];
            && Checking(g, pure, start, rest + Successors(g, item), visited, done + {item})
            && (IsShared(g[item.0]) ==>
                  Checking(g, pure, start, rest + Successors(g, item), visited + {MarkOf(g, item)}, done + {item}))
  {
    var item, rest := pending[|pending| - 1], pending[..|pending| - 1];
    var next := Successors(g, item);
    assert item in pending && forall other <- pending :: other == item || other in rest;
    forall i | 0 <= i < |next| ensures next[i].0 < |g| && (Pure(g, pure, item) ==> Pure(g, pure, next[i])) {
      InGraph(g, item, i);
    }
    hide Pure, Allowed;
    if g[item.0].Wrapped? {
      WrappedLink(g, item);
      assert next[0] in next;
    }
  }

  lemma WrappedLink(g: Graph, item: Item)
    requires item.0 < |g| && g[item.0].Wrapped?
    ensures Successors(g, item) == [(g[item.0].link, item.1)]
  {
    var t := g[item.0];
    assert Links(t) == [t.link] && OwnerInside(t, item.1) == item.1;
    assert Successors(g, item)[0] == (Links(t)[0], OwnerInside(t, item.1));
  }

  /** A marked target needs no second visit: what it leads to is already covered. */
  lemma SkipCovers(g: Graph, visited: set<Mark>, done: set<Item>, rest: seq<Item>, item: Item)
    requires item.0 < |g| && IsShared(g[item.0]) && MarkOf(g, item) in visited
    requires Covered(g, done, rest + [item]) && MarksCovered(g, visited, done, rest + [item])
    ensures Covered(g, done + {item}, rest) && MarksCovered(g, visited, done + {item}, rest)
  {
    if g[item.0].Wrapped? {
      WrappedLink(g, item);
      InGraph(g, item, 0);
    }
  }

  lemma DoneIsPure(g: Graph, pure: Facts, start: Item, visited: set<Mark>, done: set<Item>)
    requires start.0 < |g| && Checking(g, pure, start, [], visited, done)
    ensures Pure(g, pure, start)
  {
    ClosedIsPure(g, pure, done, start);
  }

  lemma {:induction false} ClosedIsPure(g: Graph, pure: Facts, done: set<Item>, item: Item)
    requires Covered(g, done, []) && item in done && forall other <- done :: Allowed(g, pure, other)
    ensures Pure(g, pure, item)
    decreases item.0
  {
    forall i | 0 <= i < |Successors(g, item)|
      ensures Successors(g, item)[i].0 < |g| && Pure(g, pure, Successors(g, item)[i])
    {
      InGraph(g, item, i);
      ClosedIsPure(g, pure, done, Successors(g, item)[i]);
    }
  }

  // ---------------------------------------------------- acceptance by paths

  /** A chain of links from `root`. */
  predicate IsPath(g: Graph, path: seq<nat>, root: nat) {
    && path != [] && path[0] == root && (forall k | 0 <= k < |path| :: path[k] < |g|)
    && forall k | 0 <= k < |path| - 1 :: path[k + 1] in Links(g[path[k]])
  }

  /** The program the end of a path is read in: that of the last scope passed on the way. */
  function OwnerAt(g: Graph, path: seq<nat>, program: nat): nat
    requires path != [] && forall k | 0 <= k < |path| :: path[k] < |g|
    decreases |path|
  {
    if |path| == 1 then program
    else
      var before := g[path[|path| - 2]];
      if before.Scoped? then before.program else OwnerAt(g, path[..|path| - 1], program)
  }

  /** What the path ends at: a leaf that is pure in its program, or something that holds others. */
  predicate EndsWell(g: Graph, pure: Facts, path: seq<nat>, root: nat, program: nat)
    requires IsPath(g, path, root)
  {
    match g[path[|path| - 1]]
    case Leaf(callable) => pure(OwnerAt(g, path, program), callable)
    case Forbidden => false
    case _ => true
  }

  lemma OwnerStep(g: Graph, path: seq<nat>, program: nat)
    requires |path| > 1 && forall k | 0 <= k < |path| :: path[k] < |g|
    ensures OwnerAt(g, path, program) == OwnerInside(g[path[|path| - 2]], OwnerAt(g, path[..|path| - 1], program))
  {
  }

  lemma {:induction false} PureAlong(g: Graph, pure: Facts, path: seq<nat>, root: nat, program: nat)
    requires IsPath(g, path, root) && Pure(g, pure, (root, program))
    ensures Pure(g, pure, (path[|path| - 1], OwnerAt(g, path, program)))
    decreases |path|
  {
    if |path| > 1 {
      var front, n := path[..|path| - 1], |path| - 2;
      assert IsPath(g, front, root);
      PureAlong(g, pure, front, root, program);
      var item := (path[n], OwnerAt(g, front, program));
      var i :| 0 <= i < |Links(g[path[n]])| && Links(g[path[n]])[i] == path[n + 1];
      InGraph(g, item, i);
      OwnerStep(g, path, program);
      assert Successors(g, item)[i] == (path[n + 1], OwnerInside(g[path[n]], item.1));
    }
  }

  lemma {:induction false} OwnerFurther(g: Graph, n: nat, path: seq<nat>, program: nat)
    requires n < |g| && path != [] && forall k | 0 <= k < |path| :: path[k] < |g|
    ensures OwnerAt(g, [n] + path, program) == OwnerAt(g, path, if g[n].Scoped? then g[n].program else program)
    decreases |path|
  {
    var whole := [n] + path;
    if |path| > 1 {
      OwnerFurther(g, n, path[..|path| - 1], program);
      assert whole[..|whole| - 1] == [n] + path[..|path| - 1];
    } else {
      assert whole[..1] == [n];
    }
  }

  lemma PathFurther(g: Graph, root: nat, path: seq<nat>, next: nat)
    requires root < |g| && IsPath(g, path, next) && next in Links(g[root])
    ensures IsPath(g, [root] + path, root) && ([root] + path)[|path|] == path[|path| - 1]
  {
    var whole := [root] + path;
    assert forall k | 0 <= k < |path| :: whole[k + 1] == path[k];
    forall k | 0 <= k < |whole| - 1 ensures whole[k + 1] in Links(g[whole[k]]) {
      if k > 0 {
        assert whole[k] == path[k - 1] && path[k - 1 + 1] in Links(g[path[k - 1]]);
      }
    }
  }

  /** What ends well from the root ends well from what the root links to. */
  lemma EndsFurther(g: Graph, pure: Facts, root: nat, program: nat, path: seq<nat>, next: nat)
    requires root < |g| && IsPath(g, path, next) && next in Links(g[root])
    requires forall longer | IsPath(g, longer, root) :: EndsWell(g, pure, longer, root, program)
    ensures EndsWell(g, pure, path, next, OwnerInside(g[root], program))
  {
    hide IsPath;
    PathFurther(g, root, path, next);
    assert EndsWell(g, pure, [root] + path, root, program);
    PathInGraph(g, path, next);
    OwnerFurther(g, root, path, program);
  }

  lemma PathInGraph(g: Graph, path: seq<nat>, root: nat)
    requires IsPath(g, path, root)
    ensures path != [] && forall k | 0 <= k < |path| :: path[k] < |g|
  {
  }

  lemma {:induction false} PathsSuffice(g: Graph, pure: Facts, root: nat, program: nat)
    requires root < |g| && forall path | IsPath(g, path, root) :: EndsWell(g, pure, path, root, program)
    ensures Pure(g, pure, (root, program))
    decreases root
  {
    var item := (root, program);
    assert IsPath(g, [root], root);
    assert EndsWell(g, pure, [root], root, program);
    hide IsPath, EndsWell;
    forall i | 0 <= i < |Successors(g, item)|
      ensures Successors(g, item)[i].0 < |g| && Pure(g, pure, Successors(g, item)[i])
    {
      InGraph(g, item, i);
      var next := Links(g[root])[i];
      assert next in Links(g[root]);
      forall path | IsPath(g, path, next) ensures EndsWell(g, pure, path, next, OwnerInside(g[root], program)) {
        EndsFurther(g, pure, root, program, path, next);
      }
      PathsSuffice(g, pure, next, OwnerInside(g[root], program));
    }
  }

  /** A check accepts exactly when every chain of links from the root that ends at a leaf ends
      at one that is pure in the program of the last scope passed, and none ends at a forbidden
      target. */
  lemma AcceptsByPaths(g: Graph, pure: Facts, root: nat, program: nat)
    requires root < |g|
    ensures Check(g, pure, [(root, program)], {}).ok
            <==> forall path | IsPath(g, path, root) :: EndsWell(g, pure, path, root, program)
  {
    hide Check;
    AcceptsExactly(g, pure, root, program);
    if Pure(g, pure, (root, program)) {
      forall path | IsPath(g, path, root) ensures EndsWell(g, pure, path, root, program) {
        PureAlong(g, pure, path, root, program);
      }
    } else if forall path | IsPath(g, path, root) :: EndsWell(g, pure, path, root, program) {
      PathsSuffice(g, pure, root, program);
    }
  }

  // ------------------------------------------------------ how much work it is

  /** Targets that are expanded again every time they are reached: nothing marks what they
      hold, either because nobody else can hold it or because a scope is never marked. */
  predicate Unmarked(t: Target) {
    t.Scoped? || ((t.Wrapped? || t.Composed?) && !t.shared)
  }

  lemma LinkBelow(g: Graph, n: nat, i: nat)
    requires n < |g| && i < |Links(g[n])|
    ensures Links(g[n])[i] < n
  {
    assert Links(g[n])[i] in Links(g[n]);
  }

  /** Turns one visit of a target takes, up to the marked targets below it. */
  function Turns(g: Graph, n: nat): (turns: nat)
    requires n < |g|
    ensures turns > 0
    decreases n, |Links(g[n])| + 1
  {
    if Unmarked(g[n]) then 1 + LinkTurns(g, n, 0) else 1
  }

  function LinkTurns(g: Graph, n: nat, i: nat): nat
    requires n < |g| && i <= |Links(g[n])|
    decreases n, |Links(g[n])| - i
  {
    if i == |Links(g[n])| then 0
    else
      LinkBelow(g, n, i);
      Turns(g, Links(g[n])[i]) + LinkTurns(g, n, i + 1)
  }

  /** Wrappers around one shared link hold the same place: only the last one is counted. */
  ghost predicate Counted(g: Graph, n: nat)
    requires n < |g|
  {
    IsShared(g[n]) && g[n].Wrapped? ==>
      forall later | n < later < |g| :: !SameLink(g, n, later)
  }

  predicate SameLink(g: Graph, n: nat, later: nat)
    requires n < |g| && later < |g|
  {
    g[n].Wrapped? && g[later].Wrapped? && g[later].shared && g[later].link == g[n].link
  }

  /** Places that hold a target: shared links, scopes, and positions of child lists. */
  ghost function Places(g: Graph, n: nat): nat
    requires n <= |g|
    decreases |g| - n
  {
    if n == |g| then 0 else (if Counted(g, n) then |Links(g[n])| else 0) + Places(g, n + 1)
  }

  /** Turns the marked targets from `n` on can still cause below an owner. */
  ghost function Unspent(g: Graph, visited: set<Mark>, owner: nat, n: nat): nat
    requires n <= |g|
    decreases |g| - n
  {
    if n == |g| then 0
    else
      (if IsShared(g[n]) && Counted(g, n) && MarkOf(g, (n, owner)) !in visited then LinkTurns(g, n, 0) else 0)
      + Unspent(g, visited, owner, n + 1)
  }

  ghost function UnspentIn(g: Graph, visited: set<Mark>, owners: seq<nat>): nat
    decreases |owners|
  {
    if owners == [] then 0 else Unspent(g, visited, owners[0], 0) + UnspentIn(g, visited, owners[1..])
  }

  lemma {:induction false} UnspentShrinks(g: Graph, visited: set<Mark>, mark: Mark, owner: nat, n: nat)
    requires n <= |g|
    ensures Unspent(g, visited + {mark}, owner, n) <= Unspent(g, visited, owner, n)
    decreases |g| - n
  {
    hide LinkTurns, MarkOf, Counted;
    if n < |g| {
      UnspentShrinks(g, visited, mark, owner, n + 1);
    }
  }

  lemma {:induction false} SpendAt(g: Graph, visited: set<Mark>, owner: nat, n: nat, at: nat)
    requires n <= at < |g| && IsShared(g[at]) && Counted(g, at) && MarkOf(g, (at, owner)) !in visited
    ensures Unspent(g, visited + {MarkOf(g, (at, owner))}, owner, n) + LinkTurns(g, at, 0) <= Unspent(g, visited, owner, n)
    decreases at - n
  {
    hide LinkTurns, MarkOf, Counted;
    if n == at {
      UnspentShrinks(g, visited, MarkOf(g, (at, owner)), owner, n + 1);
    } else {
      SpendAt(g, visited, owner, n + 1, at);
    }
  }

  lemma {:induction false} UnspentInShrinks(g: Graph, visited: set<Mark>, mark: Mark, owners: seq<nat>)
    ensures UnspentIn(g, visited + {mark}, owners) <= UnspentIn(g, visited, owners)
    decreases |owners|
  {
    hide Unspent;
    if owners != [] {
      UnspentShrinks(g, visited, mark, owners[0], 0);
      UnspentInShrinks(g, visited, mark, owners[1..]);
    }
  }

  lemma {:induction false} Spend(g: Graph, visited: set<Mark>, owners: seq<nat>, owner: nat, at: nat)
    requires at < |g| && IsShared(g[at]) && Counted(g, at) && MarkOf(g, (at, owner)) !in visited && owner in owners
    ensures UnspentIn(g, visited + {MarkOf(g, (at, owner))}, owners) + LinkTurns(g, at, 0) <= UnspentIn(g, visited, owners)
    decreases |owners|
  {
    hide Unspent, LinkTurns, MarkOf, Counted;
    var mark := MarkOf(g, (at, owner));
    if owners[0] == owner {
      SpendAt(g, visited, owner, 0, at);
      UnspentInShrinks(g, visited, mark, owners[1..]);
    } else {
      UnspentShrinks(g, visited, mark, owners[0], 0);
      Spend(g, visited, owners[1..], owner, at);
    }
  }

  /** The last wrapper around the same link. */
  lemma {:induction false} CountedTwin(g: Graph, n: nat) returns (at: nat)
    requires n < |g| && IsShared(g[n])
    ensures at < |g| && IsShared(g[at]) && Counted(g, at) && LinkTurns(g, at, 0) == LinkTurns(g, n, 0)
    ensures forall owner: nat :: MarkOf(g, (at, owner)) == MarkOf(g, (n, owner))
    decreases |g| - n
  {
    if Counted(g, n) {
      at := n;
    } else {
      var later: nat :| n < later < |g| && SameLink(g, n, later);
      at := CountedTwin(g, later);
      LinkBelow(g, n, 0);
      LinkBelow(g, later, 0);
      assert LinkTurns(g, n, 1) == 0 && LinkTurns(g, later, 1) == 0;
    }
  }

  function PendingTurns(g: Graph, pending: seq<Item>): nat
    requires InBounds(g, pending)
  {
    if pending == [] then 0
    else
      assert pending[|pending| - 1] in pending;
      PendingTurns(g, pending[..|pending| - 1]) + Turns(g, pending[|pending| - 1].0)
  }

  lemma PushTurns(g: Graph, pending: seq<Item>, item: Item)
    requires InBounds(g, pending) && item.0 < |g|
    ensures InBounds(g, pending + [item])
    ensures PendingTurns(g, pending + [item]) == PendingTurns(g, pending) + Turns(g, item.0)
  {
    hide Turns;
    assert (pending + [item])[..|pending|] == pending;
  }

  lemma {:induction false} PushLinkTurns(g: Graph, pending: seq<Item>, item: Item, i: nat)
    requires InBounds(g, pending) && item.0 < |g| && i <= |Successors(g, item)|
    ensures InBounds(g, pending + Successors(g, item)[i..])
    ensures PendingTurns(g, pending + Successors(g, item)[i..]) == PendingTurns(g, pending) + LinkTurns(g, item.0, i)
    decreases |Successors(g, item)| - i
  {
    hide Turns, PendingTurns;
    var next := Successors(g, item);
    if i == |next| {
      assert pending + next[i..] == pending;
    } else {
      InGraph(g, item, i);
      PushTurns(g, pending, next[i]);
      PushLinkTurns(g, pending + [next[i]], item, i + 1);
      assert pending + next[i..] == pending + [next[i]] + next[i + 1..];
    }
  }

  /** The programs a check may read targets in. */
  predicate Owners(g: Graph, owners: seq<nat>) {
    forall t <- g :: t.Scoped? ==> t.program in owners
  }

  lemma NextOwners(g: Graph, owners: seq<nat>, item: Item)
    requires Owners(g, owners) && item.0 < |g| && item.1 in owners
    ensures forall other <- Successors(g, item) :: other.1 in owners
  {
    assert g[item.0] in g;
    forall other | other in Successors(g, item) ensures other.1 in owners {
      var i :| 0 <= i < |Successors(g, item)| && Successors(g, item)[i] == other;
      assert other.1 == OwnerInside(g[item.0], item.1);
    }
  }

  /** From any state of the loop: what is pending and what is unmarked bound the turns left. */
  lemma {:induction false} WorkLeft(g: Graph, pure: Facts, pending: seq<Item>, visited: set<Mark>, owners: seq<nat>)
    requires InBounds(g, pending) && Owners(g, owners) && forall item <- pending :: item.1 in owners
    ensures Check(g, pure, pending, visited).turns <= PendingTurns(g, pending) + UnspentIn(g, visited, owners)
    decreases PendingWeight(g, pending)
  {
    hide PendingWeight, Allowed, MarkOf, IsShared, Successors, Owners, UnspentIn, PendingTurns, LinkTurns, Turns;
    if pending != [] {
      PopBounds(g, pending);
      var item, rest := pending[|pending| - 1], pending[..|pending| - 1];
      assert item in pending && pending == rest + [item];
      PushTurns(g, rest, item);
      PushLinkTurns(g, rest, item, 0);
      var next := rest + Successors(g, item);
      assert next == rest + Successors(g, item)[0..];
      NextOwners(g, owners, item);
      TurnsHere(g, item);
      if Allowed(g, pure, item) {
        if !IsShared(g[item.0]) {
          WorkLeft(g, pure, next, visited, owners);
        } else if MarkOf(g, item) in visited {
          WorkLeft(g, pure, rest, visited, owners);
        } else {
          var at := CountedTwin(g, item.0);
          Spend(g, visited, owners, item.1, at);
          WorkLeft(g, pure, next, visited + {MarkOf(g, item)}, owners);
        }
      }
    }
  }

  /** A visit of an unmarked target pays for what it holds; any other visit for itself. */
  lemma TurnsHere(g: Graph, item: Item)
    requires item.0 < |g|
    ensures !IsShared(g[item.0]) ==> Turns(g, item.0) == 1 + LinkTurns(g, item.0, 0)
    ensures Turns(g, item.0) >= 1
  {
  }

  // ------------------------------------------------ one holder, linear work

  /** How many of the places from `n` on hold target `m`. */
  ghost function Holders(g: Graph, m: nat, n: nat): nat
    requires n <= |g|
    decreases |g| - n
  {
    if n == |g| then 0 else (if Counted(g, n) then HeldBy(g, m, n, 0) else 0) + Holders(g, m, n + 1)
  }

  function HeldBy(g: Graph, m: nat, n: nat, i: nat): nat
    requires n < |g| && i <= |Links(g[n])|
    decreases |Links(g[n])| - i
  {
    if i == |Links(g[n])| then 0 else (if Links(g[n])[i] == m then 1 else 0) + HeldBy(g, m, n, i + 1)
  }

  /** What nothing marks has one holder, as a target without a shared identity does; nobody
      but the caller holds the one that is checked. */
  ghost predicate SingleHolders(g: Graph, root: nat) {
    forall n | 0 <= n < |g| :: Unmarked(g[n]) ==> Holders(g, n, 0) <= if n == root then 0 else 1
  }

  /** Places from `n` on, those holding a target below `k` at the turns it takes. */
  ghost function Priced(g: Graph, n: nat, k: nat): nat
    requires n <= |g|
    decreases |g| - n
  {
    if n == |g| then 0 else (if Counted(g, n) then PricedBy(g, n, 0, k) else 0) + Priced(g, n + 1, k)
  }

  function PricedBy(g: Graph, n: nat, i: nat, k: nat): nat
    requires n < |g| && i <= |Links(g[n])|
    decreases |Links(g[n])| - i
  {
    if i == |Links(g[n])| then 0
    else
      LinkBelow(g, n, i);
      (if Links(g[n])[i] < k then Turns(g, Links(g[n])[i]) else 1) + PricedBy(g, n, i + 1, k)
  }

  lemma Distribute(a: int, b: int, c: int)
    ensures (a + b) * c == a * c + b * c
  {
  }

  lemma {:induction false} RowPrice(g: Graph, n: nat, i: nat, k: nat)
    requires n < |g| && k < |g| && i <= |Links(g[n])|
    ensures PricedBy(g, n, i, k + 1) == PricedBy(g, n, i, k) + HeldBy(g, k, n, i) * (Turns(g, k) - 1)
    decreases |Links(g[n])| - i
  {
    hide Turns;
    if i < |Links(g[n])| {
      LinkBelow(g, n, i);
      RowPrice(g, n, i + 1, k);
      Distribute(if Links(g[n])[i] == k then 1 else 0, HeldBy(g, k, n, i + 1), Turns(g, k) - 1);
    }
  }

  lemma {:induction false} Price(g: Graph, n: nat, k: nat)
    requires n <= |g| && k < |g|
    ensures Priced(g, n, k + 1) == Priced(g, n, k) + Holders(g, k, n) * (Turns(g, k) - 1)
    decreases |g| - n
  {
    hide Turns, PricedBy, HeldBy, Counted;
    if n < |g| {
      RowPrice(g, n, 0, k);
      Price(g, n + 1, k);
      Distribute(if Counted(g, n) then HeldBy(g, k, n, 0) else 0, Holders(g, k, n + 1), Turns(g, k) - 1);
    }
  }

  lemma {:induction false} RowEnds(g: Graph, n: nat, i: nat)
    requires n < |g| && i <= |Links(g[n])|
    ensures PricedBy(g, n, i, 0) == |Links(g[n])| - i
    ensures forall k: nat | n <= k :: PricedBy(g, n, i, k) == LinkTurns(g, n, i)
    ensures forall m: nat | n <= m :: HeldBy(g, m, n, i) == 0
    decreases |Links(g[n])| - i
  {
    hide Turns;
    if i < |Links(g[n])| {
      LinkBelow(g, n, i);
      RowEnds(g, n, i + 1);
    }
  }

  lemma {:induction false} AllPlaces(g: Graph, n: nat)
    requires n <= |g|
    ensures Priced(g, n, 0) == Places(g, n)
    decreases |g| - n
  {
    hide Turns, PricedBy, Counted;
    if n < |g| {
      RowEnds(g, n, 0);
      AllPlaces(g, n + 1);
    }
  }

  /** Only later targets hold an earlier one. */
  lemma {:induction false} HeldLater(g: Graph, m: nat, n: nat)
    requires n <= m < |g|
    ensures Holders(g, m, n) == Holders(g, m, m + 1)
    decreases m - n
  {
    hide HeldBy, Counted;
    RowEnds(g, n, 0);
    if n < m {
      HeldLater(g, m, n + 1);
    }
  }

  /** The work below marked targets, and below the checked one, fits the places. */
  lemma {:induction false} WorkFits(g: Graph, root: nat, owner: nat, k: nat)
    requires root < |g| && k <= |g| && SingleHolders(g, root)
    ensures Unspent(g, {}, owner, k) + (if k <= root then Turns(g, root) - 1 else 0) <= Priced(g, k, k)
    decreases |g| - k
  {
    hide Turns, LinkTurns, PricedBy, HeldBy, Counted, Holders, SingleHolders;
    if k < |g| {
      WorkFits(g, root, owner, k + 1);
      Price(g, k + 1, k);
      RowEnds(g, k, 0);
      HeldLater(g, k, 0);
      FewHolders(g, root, k);
      var held, extra := Holders(g, k, k + 1), Turns(g, k) - 1;
      assert held * extra <= extra && (k == root ==> held * extra == 0);
    }
  }

  lemma FewHolders(g: Graph, root: nat, k: nat)
    requires root < |g| && k < |g| && SingleHolders(g, root)
    ensures Unmarked(g[k]) ==> Counted(g, k) && Turns(g, k) - 1 == LinkTurns(g, k, 0)
                               && Holders(g, k, 0) <= (if k == root then 0 else 1) && !IsShared(g[k])
    ensures !Unmarked(g[k]) ==> Turns(g, k) == 1
  {
    hide Holders;
  }

  lemma {:induction false} WorkFitsAll(g: Graph, root: nat, owners: seq<nat>)
    requires root < |g| && SingleHolders(g, root) && owners != []
    ensures UnspentIn(g, {}, owners) + Turns(g, root) - 1 <= |owners| * Places(g, 0)
    decreases |owners|
  {
    hide Unspent, Turns, Places, SingleHolders, Priced;
    WorkFits(g, root, owners[0], 0);
    AllPlaces(g, 0);
    if owners[1..] == [] {
      assert UnspentIn(g, {}, owners) == Unspent(g, {}, owners[0], 0);
    } else {
      WorkFitsAll(g, root, owners[1..]);
      assert |owners| * Places(g, 0) == Places(g, 0) + |owners[1..]| * Places(g, 0);
    }
  }

  /** For every graph whatever its sharing: a check takes at most the turns of one visit of
      its root and, for each owner, one visit of what each marked target holds. */
  lemma WorkBound(g: Graph, pure: Facts, root: nat, program: nat, owners: seq<nat>)
    requires root < |g| && Owners(g, owners) && program in owners
    ensures Check(g, pure, [(root, program)], {}).turns <= Turns(g, root) + UnspentIn(g, {}, owners)
  {
    hide Check, Turns, UnspentIn;
    var start := (root, program);
    PushTurns(g, [], start);
    assert [] + [start] == [start];
    WorkLeft(g, pure, [start], {}, owners);
  }

  /** Where sharing is not seen everywhere: at most one turn for each place and owner, and one
      for the root, as long as what nothing marks has one holder. */
  lemma SingleHolderWork(g: Graph, pure: Facts, root: nat, program: nat, owners: seq<nat>)
    requires root < |g| && Owners(g, owners) && program in owners && SingleHolders(g, root)
    ensures Check(g, pure, [(root, program)], {}).turns <= 1 + |owners| * Places(g, 0)
  {
    WorkBound(g, pure, root, program, owners);
    WorkFitsAll(g, root, owners);
  }

  // ---------------------------------------------- targets as a check sees them

  /** A check clones each target before it looks whether others hold what is inside, so every
      wrapper and composition it reaches counts as shared; and a scope is never put around a
      scope, whose projections are added to it instead. */
  predicate AsChecked(g: Graph) {
    && (forall n | 0 <= n < |g| :: g[n].Wrapped? || g[n].Composed? ==> g[n].shared)
    && (forall n | 0 <= n < |g| && g[n].Scoped? :: (LinkBelow(g, n, 0); !g[g[n].link].Scoped?))
  }

  lemma ShortTurns(g: Graph, n: nat)
    requires n < |g| && AsChecked(g)
    ensures Turns(g, n) <= 2
  {
    if g[n].Scoped? {
      LinkBelow(g, n, 0);
      assert LinkTurns(g, n, 1) == 0;
      assert LinkTurns(g, n, 0) == Turns(g, g[n].link);
      assert !Unmarked(g[g[n].link]);
    }
  }

  lemma {:induction false} ShortLinks(g: Graph, n: nat, i: nat)
    requires n < |g| && i <= |Links(g[n])| && AsChecked(g)
    ensures LinkTurns(g, n, i) <= 2 * (|Links(g[n])| - i)
    decreases |Links(g[n])| - i
  {
    hide Turns, AsChecked;
    if i < |Links(g[n])| {
      LinkBelow(g, n, i);
      ShortTurns(g, Links(g[n])[i]);
      ShortLinks(g, n, i + 1);
    }
  }

  lemma {:induction false} ShortUnspent(g: Graph, visited: set<Mark>, owner: nat, n: nat)
    requires n <= |g| && AsChecked(g)
    ensures Unspent(g, visited, owner, n) <= 2 * Places(g, n)
    decreases |g| - n
  {
    hide LinkTurns, MarkOf, Counted, AsChecked;
    if n < |g| {
      ShortLinks(g, n, 0);
      ShortUnspent(g, visited, owner, n + 1);
    }
  }

  lemma {:induction false} ShortUnspentIn(g: Graph, visited: set<Mark>, owners: seq<nat>)
    requires AsChecked(g)
    ensures UnspentIn(g, visited, owners) <= |owners| * (2 * Places(g, 0))
    decreases |owners|
  {
    hide Unspent, AsChecked, Places;
    if owners != [] {
      ShortUnspent(g, visited, owners[0], 0);
      ShortUnspentIn(g, visited, owners[1..]);
      assert |owners| * (2 * Places(g, 0)) == 2 * Places(g, 0) + |owners[1..]| * (2 * Places(g, 0));
    }
  }

  /** The work is linear in places times owners, however often a scoped callable is held. */
  lemma LinearWork(g: Graph, pure: Facts, root: nat, program: nat, owners: seq<nat>)
    requires root < |g| && Owners(g, owners) && program in owners && AsChecked(g)
    ensures Check(g, pure, [(root, program)], {}).turns <= 2 + |owners| * (2 * Places(g, 0))
  {
    hide Check, Turns, UnspentIn, AsChecked, Places, Owners;
    WorkBound(g, pure, root, program, owners);
    ShortTurns(g, root);
    ShortUnspentIn(g, {}, owners);
  }
}
