/** Taking a checkpoint: admission stops, work that has left the coordinator is committed,
    and the gate opens again. */
module CheckpointBarrier {
  import opened Coordinator

  datatype RootHost = Idle | InFlight | Arrived

  /** What happens in one turn of the drain loop: CPU completions in any order, which commits
      fail, whether native work was cancelled, and then one finished host operation if any. */
  datatype Tick = Tick(batch: seq<Completion>, host: Option<nat>, rootDone: bool, rootFails: bool, failing: set<nat>, nativeCancelled: bool)

  /** `Waits` is a barrier still waiting for work in flight; `Panicked` is a failed assertion. */
  datatype Entry = Entered | Waits | Faulted | Panicked

  /** Nothing that the coordinator started is still outside it. */
  predicate Quiescent(s: State) {
    s.jobs == map[] && s.pending == [] && s.completed == {}
  }

  /** A finished host operation is committed only into a task that is still ready. */
  predicate ReadyTask(s: State, id: nat) {
    id in s.tasks && s.tasks[id].state.Ready?
  }

  // -------------------------------------------------- the barrier, turn by turn

  datatype Commitment = AllCommitted | CommitFailed | OwnerNotReady

  lemma {:induction false} LeastExists(ids: set<nat>, one: nat)
    requires one in ids
    ensures exists id <- ids :: forall other <- ids :: id <= other
    decreases one
  {
    if smaller :| smaller in ids && smaller < one {
      LeastExists(ids, smaller);
    } else {
      assert forall other <- ids :: one <= other;
    }
  }

  ghost function LeastOf(ids: set<nat>): (id: nat)
    requires ids != {}
    ensures id in ids && forall other <- ids :: id <= other
  {
    var one :| one in ids;
    LeastExists(ids, one);
    var id :| id in ids && forall other <- ids :: id <= other;
    id
  }

  datatype Committed = Committed(books: State, end: Commitment)

  /** The results are handed to their owners in task order until one fails. */
  ghost function Committing(s: State, failing: set<nat>): Committed
    decreases |s.completed|
  {
    if s.completed == {} then Committed(s, AllCommitted)
    else
      var id := LeastOf(s.completed);
      if !ReadyTask(s, id) then Committed(s, OwnerNotReady)
      else if id in failing then Committed(CommitHost(s, id), CommitFailed)
      else Committing(CommitHost(s, id), failing)
  }

  /** The first result that cannot be committed: every smaller one can. */
  predicate Stuck(s: State, failing: set<nat>, id: nat) {
    && id in s.completed && (!ReadyTask(s, id) || id in failing)
    && (forall other <- s.completed :: other < id ==> ReadyTask(s, other) && other !in failing)
  }

  /** The assertion on a result's owner fails exactly when the first result that cannot be
      committed belongs to a task that is not ready. */
  lemma {:induction false} CommittingExactly(s: State, failing: set<nat>)
    ensures Committing(s, failing).end.OwnerNotReady? <==> exists id :: Stuck(s, failing, id) && !ReadyTask(s, id)
    ensures Committing(s, failing).end.CommitFailed? <==> exists id :: Stuck(s, failing, id) && ReadyTask(s, id)
    decreases |s.completed|
  {
    if s.completed != {} {
      var id := LeastOf(s.completed);
      var c := CommitHost(s, id);
      if ReadyTask(s, id) && id !in failing {
        CommittingExactly(c, failing);
        forall other: nat ensures Stuck(s, failing, other) <==> Stuck(c, failing, other) {
          assert forall t <- s.completed :: t == id || t in c.completed;
        }
      } else {
        assert Stuck(s, failing, id);
      }
    }
  }

  /** Commits change no task, and each result leaves the reactor as it is handed over. */
  lemma {:induction false} CommittingKeeps(s: State, failing: set<nat>)
    requires Inv(s)
    ensures var r := Committing(s, failing);
            && Inv(r.books) && r.books == s.(completed := r.books.completed, committed := r.books.committed)
            && multiset(r.books.committed) + multiset(r.books.completed) == multiset(s.committed) + multiset(s.completed)
            && (r.end.AllCommitted? ==> r.books.completed == {})
    decreases |s.completed|
  {
    hide Inv;
    if s.completed != {} {
      var id := LeastOf(s.completed);
      if ReadyTask(s, id) {
        CommitHostKeeps(s, id);
        assert multiset(s.completed) == multiset(s.completed - {id}) + multiset{id};
        if id !in failing {
          CommittingKeeps(CommitHost(s, id), failing);
        }
      }
    }
  }

  /** Some completion of the batch is of a job that nobody submitted. */
  predicate Unknown(s: State, batch: seq<Completion>)
    decreases |batch|
  {
    batch != [] && (batch[0].job !in s.jobs || Unknown(FinishJob(s, batch[0]), batch[1..]))
  }

  datatype Outcome = Outcome(books: State, root: RootHost, commits: nat, entry: Entry)

  /** One turn: drain, commit the root's result, commit the tasks' results, and stop when
      nothing is outside. `Waits` means that another turn follows. */
  ghost function Turn(s: State, root: RootHost, t: Tick): Outcome {
    var drained := FinishJobs(s, ByJob(t.batch));
    if Unknown(s, ByJob(t.batch)) || (root.Arrived? && t.rootFails) then Outcome(drained, root, 0, Faulted)
    else
      var left, commits := if root.Arrived? then Idle else root, if root.Arrived? then 1 else 0;
      var c := Committing(drained, t.failing);
      if c.end.OwnerNotReady? then Outcome(c.books, left, commits, Panicked)
      else if c.end.CommitFailed? then Outcome(c.books, left, commits, Faulted)
      else if c.books.jobs == map[] && c.books.pending == [] && !left.InFlight? then
        Outcome(c.books, left, commits, if t.nativeCancelled then Faulted else Entered)
      else if t.host.Some? && t.host.value < |c.books.pending| then
        Outcome(HostDone(c.books, t.host.value), left, commits, Waits)
      else Outcome(c.books, if left.InFlight? && t.rootDone then Arrived else left, commits, Waits)
  }

  ghost function Draining(s: State, root: RootHost, script: seq<Tick>): Outcome
    decreases |script|
  {
    if script == [] then Outcome(s, root, 0, Waits)
    else
      var o := Turn(s, root, script[0]);
      if o.entry.Waits? then Then(o, Draining(o.books, o.root, script[1..])) else o
  }

  function Then(first: Outcome, second: Outcome): Outcome {
    second.(commits := first.commits + second.commits)
  }

  /** The turn that panics: nothing before the commits goes wrong, and the first result that
      cannot be committed belongs to a task that is not ready once the batch is drained. */
  ghost predicate TurnPanics(s: State, root: RootHost, t: Tick) {
    && !Unknown(s, ByJob(t.batch)) && !(root.Arrived? && t.rootFails)
    && var drained := FinishJobs(s, ByJob(t.batch));
       exists id :: Stuck(drained, t.failing, id) && !ReadyTask(drained, id)
  }

  lemma TurnPanicsExactly(s: State, root: RootHost, t: Tick)
    ensures Turn(s, root, t).entry.Panicked? <==> TurnPanics(s, root, t)
  {
    hide FinishJobs, Committing, Stuck, HostDone, Unknown, ByJob;
    CommittingExactly(FinishJobs(s, ByJob(t.batch)), t.failing);
  }

  /** The barrier panics exactly when some turn it reaches does. */
  lemma {:induction false} PanicsExactly(s: State, root: RootHost, script: seq<Tick>)
    ensures Draining(s, root, script).entry.Panicked?
            <==> exists n :: 0 <= n < |script| && PanicsAt(s, root, script, n)
    decreases |script|
  {
    hide Turn, TurnPanics;
    if script != [] {
      var t, rest := script[0], script[1..];
      var o := Turn(s, root, t);
      TurnPanicsExactly(s, root, t);
      assert script[..0] == [];
      assert Draining(s, root, script[..0]) == Outcome(s, root, 0, Waits);
      forall n | 0 <= n < |rest| ensures PanicsAt(s, root, script, n + 1) == (o.entry.Waits? && PanicsAt(o.books, o.root, rest, n)) {
        PanicsLater(s, root, script, n);
      }
      if o.entry.Waits? {
        PanicsExactly(o.books, o.root, rest);
        if exists n :: 0 <= n < |script| && PanicsAt(s, root, script, n) {
          var n :| 0 <= n < |script| && PanicsAt(s, root, script, n);
          assert n > 0;
          assert PanicsAt(s, root, script, (n - 1) + 1);
          assert PanicsAt(o.books, o.root, rest, n - 1);
        }
        if Draining(o.books, o.root, rest).entry.Panicked? {
          var n :| 0 <= n < |rest| && PanicsAt(o.books, o.root, rest, n);
          assert PanicsAt(s, root, script, n + 1);
        }
      } else {
        assert PanicsAt(s, root, script, 0) == TurnPanics(s, root, t);
        if exists n :: 0 <= n < |script| && PanicsAt(s, root, script, n) {
          var n :| 0 <= n < |script| && PanicsAt(s, root, script, n);
          if n > 0 {
            assert PanicsAt(s, root, script, (n - 1) + 1);
          }
        }
      }
    }
  }

  /** Turn `n` is reached and panics. */
  ghost predicate PanicsAt(s: State, root: RootHost, script: seq<Tick>, n: nat)
    requires n < |script|
  {
    var d := Draining(s, root, script[..n]);
    d.entry.Waits? && TurnPanics(d.books, d.root, script[n])
  }

  lemma PanicsLater(s: State, root: RootHost, script: seq<Tick>, n: nat)
    requires n + 1 < |script|
    ensures var o := Turn(s, root, script[0]);
            PanicsAt(s, root, script, n + 1) == (o.entry.Waits? && PanicsAt(o.books, o.root, script[1..], n))
  {
    hide Turn, TurnPanics;
    assert script[..n + 1][1..] == script[1..][..n] && script[..n + 1][0] == script[0];
    assert script[1..][n] == script[n + 1];
  }

  /** The root's operation is committed at most once, and exactly once by the time the
      barrier is entered if there was one. */
  lemma {:induction false} RootCommitsOnce(s: State, root: RootHost, script: seq<Tick>)
    ensures var d := Draining(s, root, script);
            && d.commits + (if d.root.Idle? then 0 else 1) == (if root.Idle? then 0 else 1)
            && (d.entry.Entered? ==> d.root.Idle?)
    decreases |script|
  {
    hide FinishJobs, Committing, HostDone, Unknown, ByJob;
    if script != [] {
      var o := Turn(s, root, script[0]);
      if o.entry.Waits? {
        RootCommitsOnce(o.books, o.root, script[1..]);
      }
    }
  }

  /** The barrier starts nothing: no task is dispatched, no job submitted, no task admitted. */
  predicate StartsNothing(before: State, after: State) {
    && after.started == before.started && after.submitted == before.submitted && after.nextTask == before.nextTask
    && after.running == before.running
  }

  class Checkpointer {
    var books: State
    var root: RootHost
    var rootCommits: nat

    constructor (books: State, root: RootHost)
      ensures this.books == books && this.root == root && rootCommits == 0
    {
      this.books, this.root, this.rootCommits := books, root, 0;
    }

    /** Commits the results in task order, into tasks taken out of the scheduler for it. */
    method CommitTasks(failing: set<nat>) returns (end: Commitment)
      requires Inv(books)
      modifies this`books
      ensures Inv(books) && Committed(books, end) == Committing(old(books), failing)
      ensures books == old(books).(completed := books.completed, committed := books.committed)
      ensures end.AllCommitted? ==> books.completed == {} && multiset(books.committed) == multiset(old(books).committed) + multiset(old(books).completed)
    {
      hide Inv;
      CommittingKeeps(books, failing);
      while books.completed != {}
        invariant Committing(books, failing) == Committing(old(books), failing)
        decreases |books.completed|
      {
        var id := Least(books.completed);
        if id !in books.tasks || !books.tasks[id].state.Ready? {
          return OwnerNotReady;
        }
        books := CommitHost(books, id);
        if id in failing {
          return CommitFailed;
        }
      }
      return AllCommitted;
    }

    /** Handles the completions that have arrived, in job order, up to the first job nobody
        submitted. */
    method DrainCpuCompletions(arrived: seq<Completion>) returns (unknown: bool)
      requires Inv(books) && books.running.None?
      modifies this`books
      ensures Inv(books) && books.barrier == old(books).barrier && StartsNothing(old(books), books)
      ensures books == FinishJobs(old(books), ByJob(arrived))
      ensures States(books) == Fates(States(old(books)), old(books).jobs, ByJob(arrived))
      ensures unknown == Unknown(old(books), ByJob(arrived))
      ensures !unknown ==> |books.finished| == |old(books).finished| + |arrived|
    {
      hide Inv, FinishJob, States, Fates;
      var rest := SortByJob(arrived);
      FinishStartsNothing(books, rest);
      FinishJobsExactly(books, rest);
      ByJobPermutes(arrived);
      while rest != []
        invariant Inv(books) && books.running.None?
        invariant FinishJobs(books, rest) == FinishJobs(old(books), ByJob(arrived))
        invariant Unknown(books, rest) == Unknown(old(books), ByJob(arrived))
        invariant |books.finished| + |rest| == |old(books).finished| + |arrived|
        decreases |rest|
      {
        if rest[0].job !in books.jobs {
          return true;
        }
        FinishJobKeeps(books, rest[0]);
        FinishedOne(books, rest[0]);
        books := FinishJob(books, rest[0]);
        rest := rest[1..];
      }
      return false;
    }

    /** One turn of the loop; `Waits` asks for another. */
    method TakeTurn(tick: Tick) returns (r: Entry)
      requires Inv(books) && books.running.None?
      modifies this
      ensures Inv(books) && books.barrier == old(books.barrier) && StartsNothing(old(books), books)
      ensures rootCommits >= old(rootCommits)
      ensures Outcome(books, root, rootCommits - old(rootCommits), r) == Turn(old(books), old(root), tick)
      ensures r.Entered? ==> Quiescent(books) && root.Idle?
    {
      hide Inv, FinishJobs, HostDone, Committing, ByJob, Unknown;
      var unknown := DrainCpuCompletions(tick.batch);
      if unknown || (root.Arrived? && tick.rootFails) {
        return Faulted;
      }
      if root.Arrived? {
        root, rootCommits := Idle, rootCommits + 1;
      }
      var end := CommitTasks(tick.failing);
      if end.OwnerNotReady? {
        return Panicked;
      }
      if end.CommitFailed? {
        return Faulted;
      }
      if books.jobs == map[] && books.pending == [] && !root.InFlight? {
        return if tick.nativeCancelled then Faulted else Entered;
      }
      if tick.host.Some? && tick.host.value < |books.pending| {
        HostDoneKeeps(books, tick.host.value);
        HostStartsNothing(books, tick.host.value);
        books := HostDone(books, tick.host.value);
      } else if root.InFlight? && tick.rootDone {
        root := Arrived;
      }
      return Waits;
    }

    /** Runs until nothing is outside, waits between turns, and never dispatches. */
    method Drain(script: seq<Tick>) returns (r: Entry)
      requires Inv(books) && books.running.None?
      modifies this
      ensures Inv(books) && books.barrier == old(books.barrier) && StartsNothing(old(books), books)
      ensures var d := Draining(old(books), old(root), script);
              books == d.books && root == d.root && rootCommits == old(rootCommits) + d.commits && r == d.entry
      ensures r.Entered? ==> Quiescent(books) && root.Idle?
    {
      hide Inv, Turn;
      ghost var whole := Draining(books, root, script);
      assert script[0..] == script;
      var i := 0;
      while i < |script|
        invariant 0 <= i <= |script| && old(rootCommits) <= rootCommits
        invariant Inv(books) && books.barrier == old(books.barrier) && StartsNothing(old(books), books)
        invariant whole == var d := Draining(books, root, script[i..]);
                           d.(commits := rootCommits - old(rootCommits) + d.commits)
      {
        assert script[i..][1..] == script[i + 1..];
        r := TakeTurn(script[i]);
        if !r.Waits? {
          return r;
        }
        i := i + 1;
      }
      assert script[i..] == [];
      return Waits;
    }

    /** Success leaves the gate closed with nothing outside, every polled result committed
        once and the root's operation too; failure opens the gate; and the assertion fails
        exactly in the scripts that `PanicsExactly` describes. */
    method Enter(script: seq<Tick>) returns (r: Entry)
      requires Inv(books) && books.running.None? && !books.barrier
      modifies this
      ensures Inv(books) && StartsNothing(old(books), books)
      ensures var d := Draining(old(books).(barrier := true), old(root), script);
              r == d.entry && root == d.root && books == d.books.(barrier := !r.Faulted?)
      ensures r.Entered? ==> books.barrier && Quiescent(books) && root.Idle?
      ensures r.Entered? ==> multiset(books.committed) == multiset(books.polled)
      ensures rootCommits + (if root.Idle? then 0 else 1) == old(rootCommits) + (if old(root).Idle? then 0 else 1)
      ensures r.Panicked? <==> exists n :: 0 <= n < |script| && PanicsAt(old(books).(barrier := true), old(root), script, n)
    {
      hide Draining, PanicsAt;
      GateKeeps(books, true);
      books := books.(barrier := true);
      PanicsExactly(books, root, script);
      RootCommitsOnce(books, root, script);
      r := Drain(script);
      if r.Faulted? {
        GateKeeps(books, false);
        books := books.(barrier := false);
      }
    }

    /** However capturing ends, the gate is open afterwards. */
    method Create(script: seq<Tick>, captures: bool) returns (r: Entry)
      requires Inv(books) && books.running.None? && !books.barrier
      modifies this
      ensures Inv(books) && StartsNothing(old(books), books)
      ensures r.Entered? || r.Faulted? ==> !books.barrier
      ensures r.Entered? ==> Quiescent(books) && captures
      ensures r.Panicked? <==> exists n :: 0 <= n < |script| && PanicsAt(old(books).(barrier := true), old(root), script, n)
    {
      r := Enter(script);
      if r.Entered? {
        GateKeeps(books, false);
        books := books.(barrier := false);
        if !captures {
          r := Faulted;
        }
      }
    }
  }

  function InsertByJob(c: Completion, sorted: seq<Completion>): seq<Completion> {
    if sorted == [] || c.job <= sorted[0].job then [c] + sorted else [sorted[0]] + InsertByJob(c, sorted[1..])
  }

  function ByJob(batch: seq<Completion>): seq<Completion> {
    if batch == [] then [] else InsertByJob(batch[|batch| - 1], ByJob(batch[..|batch| - 1]))
  }

  predicate InJobOrder(batch: seq<Completion>) {
    forall i, j | 0 <= i < j < |batch| :: batch[i].job <= batch[j].job
  }

  lemma {:induction false} InsertPermutes(c: Completion, sorted: seq<Completion>)
    requires InJobOrder(sorted)
    ensures |InsertByJob(c, sorted)| == |sorted| + 1
    ensures InsertByJob(c, sorted)[0] == c || (sorted != [] && InsertByJob(c, sorted)[0] == sorted[0])
    ensures InJobOrder(InsertByJob(c, sorted)) && multiset(InsertByJob(c, sorted)) == multiset(sorted) + multiset{c}
  {
    if sorted != [] && sorted[0].job < c.job {
      var rest := sorted[1..];
      InsertPermutes(c, rest);
      InOrderCons(sorted[0], InsertByJob(c, rest));
      assert sorted == [sorted[0]] + rest;
    } else if sorted != [] {
      InOrderCons(c, sorted);
    }
  }

  lemma InOrderCons(first: Completion, rest: seq<Completion>)
    requires InJobOrder(rest) && rest != [] && first.job <= rest[0].job
    ensures InJobOrder([first] + rest)
  {
    var all := [first] + rest;
    forall i, j | 0 <= i < j < |all| ensures all[i].job <= all[j].job {
      assert all[j] == rest[j - 1] && rest[0].job <= rest[j - 1].job;
      if i > 0 {
        assert all[i] == rest[i - 1];
      }
    }
  }

  lemma {:induction false} ByJobPermutes(batch: seq<Completion>)
    ensures InJobOrder(ByJob(batch)) && multiset(ByJob(batch)) == multiset(batch) && |ByJob(batch)| == |batch|
  {
    if batch != [] {
      var front, last := batch[..|batch| - 1], batch[|batch| - 1];
      ByJobPermutes(front);
      InsertPermutes(last, ByJob(front));
      assert batch == front + [last];
    }
  }

  method SortByJob(batch: seq<Completion>) returns (sorted: seq<Completion>)
    ensures sorted == ByJob(batch) && InJobOrder(sorted) && multiset(sorted) == multiset(batch)
  {
    sorted := [];
    var i := 0;
    while i < |batch|
      invariant 0 <= i <= |batch| && sorted == ByJob(batch[..i])
    {
      assert batch[..i + 1][..i] == batch[..i];
      sorted := InsertByJob(batch[i], sorted);
      i := i + 1;
    }
    assert batch[..i] == batch;
    ByJobPermutes(batch);
  }

  lemma FinishedOne(s: State, c: Completion)
    requires c.job in s.jobs
    ensures |FinishJob(s, c).finished| == |s.finished| + 1
  {
    var removed := Removed(s, c.job);
    var id := s.jobs[c.job];
    if id in s.tasks && !s.tasks[id].state.Settled? {
      CancelFinishesNothing(Move(Move(removed, id, Running), id, Settled(c.kind)).(running := None, settled := removed.settled + [id]), c.cancelled);
    }
  }

  lemma {:induction false} CancelFinishesNothing(s: State, ids: seq<nat>)
    ensures CancelAll(s, ids).finished == s.finished
  {
    if ids != [] {
      CancelFinishesNothing(s, ids[..|ids| - 1]);
    }
  }

  method Least(ids: set<nat>) returns (id: nat)
    requires ids != {}
    ensures id in ids && forall other <- ids :: id <= other
  {
    id :| id in ids;
    var rest := ids - {id};
    while rest != {}
      invariant rest <= ids && id in ids && forall other <- ids :: other in rest || id <= other
      decreases |rest|
    {
      var next :| next in rest;
      if next < id {
        id := next;
      }
      rest := rest - {next};
    }
  }

  lemma HostStartsNothing(s: State, i: nat)
    requires i < |s.pending|
    ensures StartsNothing(s, HostDone(s, i)) && HostDone(s, i).barrier == s.barrier
  {
  }

  lemma {:induction false} CancelStartsNothing(s: State, ids: seq<nat>)
    ensures StartsNothing(s, CancelAll(s, ids)) && CancelAll(s, ids).barrier == s.barrier
  {
    if ids != [] {
      CancelStartsNothing(s, ids[..|ids| - 1]);
    }
  }

  lemma {:induction false} FinishStartsNothing(s: State, batch: seq<Completion>)
    requires s.running.None?
    ensures StartsNothing(s, FinishJobs(s, batch)) && FinishJobs(s, batch).barrier == s.barrier
    decreases |batch|
  {
    if batch != [] && batch[0].job in s.jobs {
      var c := batch[0];
      var removed := Removed(s, c.job);
      var id := s.jobs[c.job];
      if id in s.tasks && !s.tasks[id].state.Settled? {
        CancelStartsNothing(Move(Move(removed, id, Running), id, Settled(c.kind)).(running := None, settled := removed.settled + [id]), c.cancelled);
      }
      FinishStartsNothing(FinishJob(s, c), batch[1..]);
    }
  }

  /** Nothing new goes out, and what is out only comes back. */
  predicate OnlyReturns(before: State, after: State) {
    && StartsNothing(before, after) && after.barrier && after.running.None?
    && after.jobs.Keys <= before.jobs.Keys && |after.pending| <= |before.pending|
  }

  lemma {:induction false} CancelSendsNothing(s: State, ids: seq<nat>)
    ensures CancelAll(s, ids).jobs == s.jobs && CancelAll(s, ids).pending == s.pending
  {
    if ids != [] {
      CancelSendsNothing(s, ids[..|ids| - 1]);
    }
  }

  lemma {:induction false} FinishSendsNothing(s: State, batch: seq<Completion>)
    ensures FinishJobs(s, batch).jobs.Keys <= s.jobs.Keys && FinishJobs(s, batch).pending == s.pending
    decreases |batch|
  {
    if batch != [] && batch[0].job in s.jobs {
      var c := batch[0];
      var removed := Removed(s, c.job);
      var id := s.jobs[c.job];
      if id in s.tasks && !s.tasks[id].state.Settled? {
        CancelSendsNothing(Move(Move(removed, id, Running), id, Settled(c.kind)).(running := None, settled := removed.settled + [id]), c.cancelled);
      }
      FinishSendsNothing(FinishJob(s, c), batch[1..]);
    }
  }

  lemma ClosedStep(s: State, e: Event)
    requires s.barrier && s.running.None? && !e.Opens?
    ensures OnlyReturns(s, Step(s, e))
  {
    hide CancelAll, FinishJobs;
    match e
    case Drains(batch) =>
      FinishStartsNothing(s, batch);
      FinishSendsNothing(s, batch);
    case Cancels(ids) =>
      CancelStartsNothing(s, ids);
      CancelSendsNothing(s, ids);
    case _ =>
  }

  /** From a closed gate, whatever happens and in whatever order, until the gate opens no task
      is admitted, dispatched or run, no job is submitted and no host operation is issued. */
  lemma {:induction false} ClosedGate(s: State, events: seq<Event>)
    requires s.barrier && s.running.None? && forall i | 0 <= i < |events| :: !events[i].Opens?
    ensures OnlyReturns(s, Run(s, events))
    decreases |events|
  {
    hide Step;
    if events != [] {
      ClosedGate(s, events[..|events| - 1]);
      ClosedStep(Run(s, events[..|events| - 1]), events[|events| - 1]);
    }
  }

  /** A task that is cancelled between the end of its host operation and its next dispatch
      leaves its result behind: a reachable state in which the barrier's assertion fails
      in the first turn. */
  lemma CancelledResultIsLeftBehind()
    ensures var events := [Spawns(false), Dispatches({0}), AwaitsHost(7), Polls(0), Cancels([0])];
            var s := Run(Initial(1), events);
            && Inv(s) && s.running.None? && !s.barrier
            && s.completed == {0} && s.tasks[0].state == Settled(Cancelled)
            && TurnPanics(s.(barrier := true), Idle, Tick([], None, false, false, {}, false))
  {
    var e0, e1, e2, e3, e4 := Spawns(false), Dispatches({0}), AwaitsHost(7), Polls(0), Cancels([0]);
    RunKeeps(1, [e0, e1, e2, e3, e4]);
    FirstSteps();
    LastSteps();
    hide Step, Inv, Run;
    RunFive(Initial(1), e0, e1, e2, e3, e4);
    LeftBehind();
  }

  lemma LeftBehind()
    ensures var s := OneTask(Settled(Cancelled), [0], None, [], {0}, [0], [0]).(barrier := true);
            TurnPanics(s, Idle, Tick([], None, false, false, {}, false))
  {
    var s := OneTask(Settled(Cancelled), [0], None, [], {0}, [0], [0]).(barrier := true);
    assert FinishJobs(s, ByJob([])) == s;
    assert Stuck(s, {}, 0) && !ReadyTask(s, 0);
  }

  lemma RunFive(s: State, e0: Event, e1: Event, e2: Event, e3: Event, e4: Event)
    ensures Run(s, [e0, e1, e2, e3, e4]) == Step(Step(Step(Step(Step(s, e0), e1), e2), e3), e4)
  {
    hide Step, Run;
    var events := [e0, e1, e2, e3, e4];
    RunOne(s, events, 4);
    RunOne(s, events, 3);
    RunOne(s, events, 2);
    RunOne(s, events, 1);
    RunOne(s, events, 0);
    RunNone(s);
    assert events[..5] == events && events[..0] == [];
  }

  lemma RunOne(s: State, events: seq<Event>, n: nat)
    requires n < |events|
    ensures Run(s, events[..n + 1]) == Step(Run(s, events[..n]), events[n])
  {
    hide Step;
    assert events[..n + 1][..n] == events[..n];
  }

  lemma RunNone(s: State)
    ensures Run(s, []) == s
  {
  }

  /** The books of one task in the given state. */
  function OneTask(state: TaskState, ready: seq<nat>, running: Option<nat>, pending: seq<(nat, nat)>, completed: set<nat>,
                   settled: seq<nat>, polled: seq<nat>): State {
    State(map[0 := Task(state, false)], 1, ready, running, false, map[], 1, 0, 0, 0, pending, completed, [0], [], [], settled, polled, [])
  }

  lemma FirstSteps()
    ensures Step(Step(Initial(1), Spawns(false)), Dispatches({0})) == OneTask(Running, [], Some(0), [], {}, [], [])
  {
    var s := Step(Initial(1), Spawns(false));
    assert s == State(map[0 := Task(Ready, false)], 1, [0], None, false, map[], 1, 0, 0, 0, [], {}, [], [], [], [], [], []);
    assert s.ready[1..] == [];
    assert Scan(s, {0}, 1) == OneTask(Running, [], Some(0), [], {}, [], []);
  }

  lemma LastSteps()
    ensures Step(OneTask(Running, [], Some(0), [], {}, [], []), AwaitsHost(7)) == OneTask(Waiting(OnHost(7)), [], None, [(0, 7)], {}, [], [])
    ensures Step(OneTask(Waiting(OnHost(7)), [], None, [(0, 7)], {}, [], []), Polls(0)) == OneTask(Ready, [0], None, [], {0}, [], [0])
    ensures Step(OneTask(Ready, [0], None, [], {0}, [], [0]), Cancels([0])) == OneTask(Settled(Cancelled), [0], None, [], {0}, [0], [0])
  {
    Awaiting();
    Polling();
    Cancelling();
  }

  lemma Awaiting()
    ensures Step(OneTask(Running, [], Some(0), [], {}, [], []), AwaitsHost(7)) == OneTask(Waiting(OnHost(7)), [], None, [(0, 7)], {}, [], [])
  {
  }

  lemma Polling()
    ensures Step(OneTask(Waiting(OnHost(7)), [], None, [(0, 7)], {}, [], []), Polls(0)) == OneTask(Ready, [0], None, [], {0}, [], [0])
  {
    var s := OneTask(Waiting(OnHost(7)), [], None, [(0, 7)], {}, [], []);
    assert s.pending[..0] + s.pending[1..] == [];
  }

  lemma Cancelling()
    ensures Step(OneTask(Ready, [0], None, [], {0}, [], [0]), Cancels([0])) == OneTask(Settled(Cancelled), [0], None, [], {0}, [0], [0])
  {
    var s := OneTask(Ready, [0], None, [], {0}, [], [0]);
    assert CancelAll(s, []) == s;
    assert CancelAll(s, [0]) == CancelOne(s, 0);
  }
}
