/** Composed callables: how a nested composition runs, and where each stage says it is. */
module ComposedCalls {
  datatype Option<T> = None | Some(value: T)

  // ------------------------------------------------------- invocation paths

  /** A persistent path: the last index first. */
  datatype Path = Top | Node(parent: Path, index: nat)

  function Push(path: Path, index: nat): Path {
    Node(path, index)
  }

  function Advance(path: Path): Option<Path> {
    if path.Top? then None else Some(Push(path.parent, path.index + 1))
  }

  /** The indices from the root down. */
  function IndicesOf(path: Path): seq<nat> {
    if path.Top? then [] else IndicesOf(path.parent) + [path.index]
  }

  function PathOf(indices: seq<nat>): Path {
    if indices == [] then Top else Push(PathOf(indices[..|indices| - 1]), indices[|indices| - 1])
  }

  function Reversed(xs: seq<nat>): seq<nat> {
    if xs == [] then [] else Reversed(xs[1..]) + [xs[0]]
  }

  /** Collects indices on the way up and reverses them. */
  method Indices(path: Path) returns (indices: seq<nat>)
    ensures indices == IndicesOf(path)
  {
    var collected: seq<nat> := [];
    var node := path;
    while node.Node?
      invariant IndicesOf(path) == IndicesOf(node) + Reversed(collected)
      decreases node
    {
      ReversedMore(collected, node.index);
      collected := collected + [node.index];
      node := node.parent;
    }
    indices := Reversed(collected);
  }

  lemma {:induction false} ReversedMore(xs: seq<nat>, x: nat)
    ensures Reversed(xs + [x]) == [x] + Reversed(xs)
  {
    if xs == [] {
      assert xs + [x] == [x] && [x][1..] == [];
    } else {
      ReversedMore(xs[1..], x);
      assert (xs + [x])[1..] == xs[1..] + [x];
    }
  }

  /** Pushes the indices one by one. */
  method FromIndices(indices: seq<nat>) returns (path: Path)
    ensures path == PathOf(indices)
  {
    path := Top;
    var i := 0;
    while i < |indices|
      invariant 0 <= i <= |indices| && path == PathOf(indices[..i])
    {
      assert indices[..i + 1][..i] == indices[..i];
      path := Push(path, indices[i]);
      i := i + 1;
    }
    assert indices[..i] == indices;
  }

  lemma PathStep(front: seq<nat>, last: nat)
    ensures PathOf(front + [last]) == Push(PathOf(front), last)
  {
    assert (front + [last])[..|front|] == front;
  }

  lemma {:induction false} BuiltPathReads(indices: seq<nat>, n: nat)
    requires n <= |indices|
    ensures IndicesOf(PathOf(indices[..n])) == indices[..n]
    decreases n
  {
    hide PathOf;
    if n == 0 {
      EmptyPath();
    } else {
      BuiltPathReads(indices, n - 1);
      assert indices[..n] == indices[..n - 1] + [indices[n - 1]];
      PathStep(indices[..n - 1], indices[n - 1]);
    }
  }

  lemma EmptyPath()
    ensures PathOf([]) == Top
  {
  }

  lemma {:induction false} ReadPathBuilds(path: Path)
    ensures PathOf(IndicesOf(path)) == path
  {
    if path.Node? {
      ReadPathBuilds(path.parent);
      assert IndicesOf(path)[..|IndicesOf(path)| - 1] == IndicesOf(path.parent);
    }
  }

  /** Reading a path and building one undo each other, and advancing moves the last index. */
  lemma PathRoundTrip(path: Path, indices: seq<nat>)
    ensures PathOf(IndicesOf(path)) == path && IndicesOf(PathOf(indices)) == indices
    ensures Advance(path).Some? <==> IndicesOf(path) != []
    ensures Advance(path).Some? ==>
              var last := |IndicesOf(path)| - 1;
              IndicesOf(Advance(path).value) == IndicesOf(path)[last := IndicesOf(path)[last] + 1]
  {
    ReadPathBuilds(path);
    BuiltPathReads(indices, |indices|);
    assert indices[..|indices|] == indices;
  }

  // ---------------------------------------------------------------- running

  datatype Target = Plain(f: nat) | Composed(stages: seq<Target>)

  /** What the outside computes for a plain callable. */
  type Callee = (nat, int) -> int

  datatype Site = Site(root: Target, path: Path)

  datatype Frame = Frame(stages: seq<Target>, next: nat, site: Option<Site>)

  datatype Signal = Calls(target: Target, arg: int, site: Option<Site>) | Returns(v: int)

  datatype Entry = Entry(f: nat, arg: int, site: Option<Site>)

  datatype Machine = Machine(signal: Signal, stack: seq<Frame>, log: seq<Entry>)

  /** The site of the first stage: a new composition is its own root. */
  function EnterSite(stages: seq<Target>, site: Option<Site>): Option<Site> {
    if site.Some? then Some(Site(site.value.root, Push(site.value.path, 0)))
    else Some(Site(Composed(stages), Push(Top, 0)))
  }

  function AdvanceSite(site: Option<Site>): Option<Site> {
    if site.None? || Advance(site.value.path).None? then site
    else Some(Site(site.value.root, Advance(site.value.path).value))
  }

  /** The next stage runs with the input; the rest waits in a frame. */
  function Resume(m: Machine, input: int, stages: seq<Target>, next: nat, site: Option<Site>): Machine {
    if next >= |stages| then m.(signal := Returns(input))
    else m.(signal := Calls(stages[next], input, site),
            stack := [Frame(stages, next + 1, AdvanceSite(site))] + m.stack)
  }

  function Step(callee: Callee, m: Machine): Machine {
    match m.signal
    case Calls(target, arg, site) => (
      match target
      case Plain(f) => m.(signal := Returns(callee(f, arg)), log := m.log + [Entry(f, arg, site)])
      case Composed(stages) => Resume(m, arg, stages, 0, EnterSite(stages, site)))
    case Returns(v) =>
      if m.stack == [] then m
      else
        var frame := m.stack[0];
        Resume(m.(stack := m.stack[1..]), v, frame.stages, frame.next, frame.site)
  }

  function Run(callee: Callee, m: Machine, n: nat): Machine
    decreases n
  {
    if n == 0 then m else Step(callee, Run(callee, m, n - 1))
  }

  // ---------------------------------------------------------------- addresses

  /** The part of a composition that a list of indices leads to. */
  function At(root: Target, indices: seq<nat>): Option<Target> {
    if indices == [] then Some(root)
    else
      var outer := At(root, indices[..|indices| - 1]);
      var i := indices[|indices| - 1];
      if outer.Some? && outer.value.Composed? && i < |outer.value.stages| then Some(outer.value.stages[i]) else None
  }

  predicate Addresses(site: Site, target: Target) {
    At(site.root, IndicesOf(site.path)) == Some(target)
  }

  /** A frame's site points at the stage it will run next (or just past the last one). */
  predicate FrameAddresses(frame: Frame) {
    && frame.site.Some? && frame.next <= |frame.stages|
    && frame.site.value.path.Node? && frame.site.value.path.index == frame.next
    && Addresses(Site(frame.site.value.root, frame.site.value.path.parent), Composed(frame.stages))
  }

  predicate Addressed(m: Machine) {
    && (m.signal.Calls? && m.signal.site.Some? ==> Addresses(m.signal.site.value, m.signal.target))
    && (m.signal.Calls? && m.signal.site.None? ==> m.stack == [])
    && (forall frame <- m.stack :: FrameAddresses(frame))
    && (forall entry <- m.log :: entry.site.Some? ==> Addresses(entry.site.value, Plain(entry.f)))
  }

  lemma ChildAddress(root: Target, parent: Path, stages: seq<Target>, i: nat)
    requires Addresses(Site(root, parent), Composed(stages)) && i < |stages|
    ensures Addresses(Site(root, Push(parent, i)), stages[i])
  {
    var indices := IndicesOf(Push(parent, i));
    assert indices[..|indices| - 1] == IndicesOf(parent);
  }

  lemma ResumeKeeps(m: Machine, input: int, stages: seq<Target>, next: nat, site: Option<Site>)
    requires (forall frame <- m.stack :: FrameAddresses(frame))
    requires forall entry <- m.log :: entry.site.Some? ==> Addresses(entry.site.value, Plain(entry.f))
    requires FrameAddresses(Frame(stages, next, site))
    ensures Addressed(Resume(m, input, stages, next, site))
  {
    if next < |stages| {
      ChildAddress(site.value.root, site.value.path.parent, stages, next);
      assert Push(site.value.path.parent, next) == site.value.path;
    }
  }

  lemma StepKeeps(callee: Callee, m: Machine)
    requires Addressed(m)
    ensures Addressed(Step(callee, m))
  {
    match m.signal
    case Calls(target, arg, site) =>
      if target.Composed? {
        ResumeKeeps(m, arg, target.stages, 0, EnterSite(target.stages, site));
      }
    case Returns(v) =>
      if m.stack != [] {
        var frame := m.stack[0];
        assert frame in m.stack && FrameAddresses(frame);
        ResumeKeeps(m.(stack := m.stack[1..]), v, frame.stages, frame.next, frame.site);
      }
  }

  function Begin(target: Target, arg: int): Machine {
    Machine(Calls(target, arg, None), [], [])
  }

  /** At every moment of every run, whatever is being called is what the recorded root and
      path lead to. */
  lemma {:induction false} PathsAddressStages(callee: Callee, target: Target, arg: int, n: nat)
    ensures Addressed(Run(callee, Begin(target, arg), n))
    decreases n
  {
    hide Step;
    if n > 0 {
      PathsAddressStages(callee, target, arg, n - 1);
      StepKeeps(callee, Run(callee, Begin(target, arg), n - 1));
    }
  }

  /** Every recorded site has `target` as its root; only the very first call has none. */
  predicate Rooted(m: Machine, target: Target) {
    && (m.signal.Calls? && m.signal.site.Some? ==> m.signal.site.value.root == target)
    && (m.signal.Calls? && m.signal.site.None? ==> m.signal.target == target)
    && (forall frame <- m.stack :: frame.site.Some? && frame.site.value.root == target)
    && (forall entry <- m.log :: entry.site.Some? ==> entry.site.value.root == target)
  }

  lemma StepRooted(callee: Callee, m: Machine, target: Target)
    requires Rooted(m, target)
    ensures Rooted(Step(callee, m), target)
  {
    if m.signal.Returns? && m.stack != [] {
      assert m.stack[0] in m.stack && m.stack[0].site.Some?;
    }
  }

  /** However deep compositions are nested, every stage of a run is addressed from the
      composition that was called first. */
  lemma {:induction false} SitesShareRoot(callee: Callee, target: Target, arg: int, n: nat)
    ensures Rooted(Run(callee, Begin(target, arg), n), target)
    decreases n
  {
    hide Step;
    if n > 0 {
      SitesShareRoot(callee, target, arg, n - 1);
      StepRooted(callee, Run(callee, Begin(target, arg), n - 1), target);
    }
  }

  // -------------------------------------------------------------- left fold

  datatype Outcome = Outcome(v: int, calls: seq<(nat, int)>)

  /** A composition is the left fold of its stages. */
  function Fold(callee: Callee, target: Target, arg: int): Outcome
    decreases target, 1, 0
  {
    match target
    case Plain(f) => Outcome(callee(f, arg), [(f, arg)])
    case Composed(stages) => FoldFrom(callee, target, 0, arg)
  }

  function FoldFrom(callee: Callee, target: Target, i: nat, arg: int): Outcome
    requires target.Composed? && i <= |target.stages|
    decreases target, 0, |target.stages| - i
  {
    if i == |target.stages| then Outcome(arg, [])
    else
      var first := Fold(callee, target.stages[i], arg);
      var rest := FoldFrom(callee, target, i + 1, first.v);
      Outcome(rest.v, first.calls + rest.calls)
  }

  function CallsIn(log: seq<Entry>): seq<(nat, int)> {
    seq(|log|, i requires 0 <= i < |log| => (log[i].f, log[i].arg))
  }

  /** After `n` steps the machine has returned `out` to the stack it started with. */
  predicate Returned(callee: Callee, m: Machine, n: nat, out: Outcome) {
    var r := Run(callee, m, n);
    r.signal == Returns(out.v) && CallsIn(r.log) == CallsIn(m.log) + out.calls
  }

  lemma {:induction false} RunOn(callee: Callee, m: Machine, a: nat, b: nat)
    ensures Run(callee, m, a + b) == Run(callee, Run(callee, m, a), b)
    decreases b
  {
    hide Step;
    if b > 0 {
      RunOn(callee, m, a, b - 1);
      assert Run(callee, m, a + b) == Step(callee, Run(callee, m, a + b - 1));
    }
  }

  /** Calling any target returns the left fold, having made its calls in order. */
  lemma {:induction false} CallFolds(callee: Callee, m: Machine) returns (n: nat)
    requires m.signal.Calls?
    ensures var out := Fold(callee, m.signal.target, m.signal.arg);
            Returned(callee, m, n, out) && Run(callee, m, n).stack == m.stack
    decreases m.signal.target, 1, 0, 0
  {
    match m.signal.target
    case Plain(f) =>
      n := 1;
      assert Run(callee, m, 0) == m && Run(callee, m, 1) == Step(callee, m);
    case Composed(stages) =>
      var k := StagesFold(callee, m, m.signal.target, 0, m.signal.arg, EnterSite(stages, m.signal.site));
      n := k + 1;
      assert Run(callee, m, 0) == m && Run(callee, m, 1) == Step(callee, m);
      RunOn(callee, m, 1, k);
  }

  lemma {:induction false} StagesFold(callee: Callee, m: Machine, target: Target, i: nat, arg: int, site: Option<Site>) returns (n: nat)
    requires target.Composed? && i <= |target.stages|
    ensures var start := Resume(m, arg, target.stages, i, site);
            Returned(callee, start, n, FoldFrom(callee, target, i, arg)) && Run(callee, start, n).stack == m.stack
    decreases target, 0, |target.stages| - i, 1
  {
    if i == |target.stages| {
      n := 0;
      assert CallsIn(m.log) + [] == CallsIn(m.log);
    } else {
      n := StageThenRest(callee, m, target, i, arg, site);
    }
  }

  lemma {:induction false} StageThenRest(callee: Callee, m: Machine, target: Target, i: nat, arg: int, site: Option<Site>) returns (n: nat)
    requires target.Composed? && i < |target.stages|
    ensures var start := Resume(m, arg, target.stages, i, site);
            Returned(callee, start, n, FoldFrom(callee, target, i, arg)) && Run(callee, start, n).stack == m.stack
    decreases target, 0, |target.stages| - i, 0
  {
    hide *;
    var stages, next := target.stages, AdvanceSite(site);
    var start := Resume(m, arg, stages, i, site);
    StageStarts(m, arg, stages, i, site);
    FoldStep(callee, target, i, arg);
    var first := Fold(callee, stages[i], arg);
    var rest := FoldFrom(callee, target, i + 1, first.v);
    var a := CallFolds(callee, start);
    ReturnedMeans(callee, start, a, first);
    var mid := Run(callee, start, a);
    AfterStage(callee, mid, m.stack, stages, i + 1, first.v, next);
    var below := mid.(stack := m.stack);
    var b := StagesFold(callee, below, target, i + 1, first.v, next);
    n := a + (1 + b);
    StagesJoin(callee, start, a, mid, Resume(below, first.v, stages, i + 1, next), b, first, rest);
  }

  lemma StageStarts(m: Machine, arg: int, stages: seq<Target>, i: nat, site: Option<Site>)
    requires i < |stages|
    ensures var start := Resume(m, arg, stages, i, site);
            start.signal == Calls(stages[i], arg, site) && start.stack == [Frame(stages, i + 1, AdvanceSite(site))] + m.stack
  {
  }

  lemma FoldStep(callee: Callee, target: Target, i: nat, arg: int)
    requires target.Composed? && i < |target.stages|
    ensures var first := Fold(callee, target.stages[i], arg);
            var rest := FoldFrom(callee, target, i + 1, first.v);
            FoldFrom(callee, target, i, arg) == Outcome(rest.v, first.calls + rest.calls)
  {
  }

  /** Runs and logs of a stage and of the stages after it, put together. */
  lemma StagesJoin(callee: Callee, start: Machine, a: nat, mid: Machine, resumed: Machine, b: nat, first: Outcome, rest: Outcome)
    requires Run(callee, start, a) == mid && CallsIn(mid.log) == CallsIn(start.log) + first.calls
    requires Run(callee, mid, 1) == resumed && resumed.log == mid.log
    requires Returned(callee, resumed, b, rest)
    ensures Run(callee, start, a + (1 + b)) == Run(callee, resumed, b)
    ensures Returned(callee, start, a + (1 + b), Outcome(rest.v, first.calls + rest.calls))
  {
    hide Run, CallsIn;
    RunOn(callee, start, a, 1 + b);
    RunOn(callee, mid, 1, b);
    assert CallsIn(start.log) + first.calls + rest.calls == CallsIn(start.log) + (first.calls + rest.calls);
  }

  lemma ReturnedMeans(callee: Callee, m: Machine, n: nat, out: Outcome)
    ensures Returned(callee, m, n, out) <==>
              Run(callee, m, n).signal == Returns(out.v) && CallsIn(Run(callee, m, n).log) == CallsIn(m.log) + out.calls
  {
    hide Run, CallsIn;
  }

  /** A stage has returned: one step resumes the frame it left. */
  lemma AfterStage(callee: Callee, mid: Machine, stack: seq<Frame>, stages: seq<Target>, next: nat, v: int, site: Option<Site>)
    requires mid.signal == Returns(v) && mid.stack == [Frame(stages, next, site)] + stack
    ensures Run(callee, mid, 1) == Resume(mid.(stack := stack), v, stages, next, site)
    ensures Resume(mid.(stack := stack), v, stages, next, site).log == mid.log
  {
    assert Run(callee, mid, 0) == mid && mid.stack[1..] == stack;
  }

  /** A whole composed call. */
  lemma ComposedIsFold(callee: Callee, target: Target, arg: int)
    ensures exists n: nat :: Run(callee, Begin(target, arg), n).stack == []
                             && Returned(callee, Begin(target, arg), n, Fold(callee, target, arg))
  {
    var n := CallFolds(callee, Begin(target, arg));
  }
}
