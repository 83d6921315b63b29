/** The task coordinator as a step system: admission, CPU jobs, host operations, cancellation. */
module Coordinator {
  datatype Option<T> = None | Some(value: T)

  datatype Wait = OnCpu(job: nat) | OnHost(operation: nat) | OnOther

  datatype Kind = Completed | Raised | Failed | Cancelled

  datatype TaskState = Ready | Running | Waiting(wait: Wait) | Settled(kind: Kind)

  /** `capsule` says that CPU work is still attached. */
  datatype Task = Task(state: TaskState, capsule: bool)

  /** The coordinator's books. The last five fields are logs, oldest first. */
  datatype State = State(
    tasks: map<nat, Task>,
    nextTask: nat,
    ready: seq<nat>,
    running: Option<nat>,
    barrier: bool,
    jobs: map<nat, nat>,
    capacity: nat,
    nextJob: nat,
    nextDispatch: nat,
    nextCompletion: nat,
    pending: seq<(nat, nat)>,
    completed: set<nat>,
    started: seq<nat>,
    submitted: seq<(nat, nat)>,
    finished: seq<(nat, nat)>,
    settled: seq<nat>,
    polled: seq<nat>,
    committed: seq<nat>)

  function Initial(capacity: nat): State {
    State(map[], 0, [], None, false, map[], capacity, 0, 0, 0, [], {}, [], [], [], [], [], [])
  }

  function Move(s: State, id: nat, state: TaskState): State
    requires id in s.tasks
  {
    s.(tasks := s.tasks[id := s.tasks[id].(state := state)])
  }

  // ------------------------------------------------------------- admission

  /** Admission is refused while a checkpoint is being taken. */
  function Spawn(s: State, capsule: bool): State {
    if s.barrier then s
    else s.(tasks := s.tasks[s.nextTask := Task(Ready, capsule)], nextTask := s.nextTask + 1, ready := s.ready + [s.nextTask])
  }

  /** One pass over the ready queue: stale entries are dropped, tasks without a free slot go
      to the back, and the first admissible task starts. */
  function Scan(s: State, admissible: set<nat>, n: nat): State
    decreases n
  {
    if n == 0 || s.ready == [] then s
    else
      var id := s.ready[0];
      var rest := s.(ready := s.ready[1..]);
      if id !in s.tasks || !s.tasks[id].state.Ready? then Scan(rest, admissible, n - 1)
      else if id !in admissible then Scan(rest.(ready := rest.ready + [id]), admissible, n - 1)
      else Move(rest, id, Running).(running := Some(id), started := s.started + [id])
  }

  function DispatchReady(s: State, admissible: set<nat>): State {
    if s.barrier || s.running.Some? then s else Scan(s, admissible, |s.ready|)
  }

  function Requeue(s: State, id: nat): State
    requires id in s.tasks
  {
    Move(s, id, Ready).(running := None, ready := s.ready + [id])
  }

  // --------------------------------------------------------------- CPU jobs

  /** A dispatched task with CPU work: wait for room, or hand the work over. The executor may
      refuse; the work has left the task by then, and the dispatch number is used up. */
  function StartCpu(s: State, id: nat, accepted: bool): State
    requires id in s.tasks
  {
    if |s.jobs| >= s.capacity then Requeue(s, id)
    else
      var taken := s.(tasks := s.tasks[id := s.tasks[id].(capsule := false)],
                      nextDispatch := s.nextDispatch + 1, nextJob := s.nextJob + 1);
      if !accepted then Requeue(taken, id)
      else Move(taken, id, Waiting(OnCpu(s.nextJob))).(
             running := None,
             jobs := s.jobs[s.nextJob := id],
             submitted := s.submitted + [(s.nextJob, s.nextDispatch)])
  }

  /** Cancelling settles a task, except while a host operation of its own is in flight. */
  function CancelOne(s: State, id: nat): State {
    if id !in s.tasks || s.tasks[id].state.Settled? || s.tasks[id].state.Running?
       || (s.tasks[id].state.Waiting? && s.tasks[id].state.wait.OnHost?) then s
    else Move(s, id, Settled(Cancelled)).(settled := s.settled + [id])
  }

  function CancelAll(s: State, ids: seq<nat>): State {
    if ids == [] then s else CancelOne(CancelAll(s, ids[..|ids| - 1]), ids[|ids| - 1])
  }

  /** A task ends, and its group's policy cancels others. */
  function Settle(s: State, id: nat, kind: Kind, cancelled: seq<nat>): State
    requires id in s.tasks
  {
    CancelAll(Move(s, id, Settled(kind)).(running := None, settled := s.settled + [id]), cancelled)
  }

  datatype Completion = Completion(job: nat, kind: Kind, cancelled: seq<nat>)

  /** One CPU completion: the job leaves the books; its task settles unless it already has. */
  function FinishJob(s: State, c: Completion): State
    requires c.job in s.jobs
  {
    var id := s.jobs[c.job];
    var removed := s.(jobs := s.jobs - {c.job},
                      nextCompletion := s.nextCompletion + 1,
                      finished := s.finished + [(c.job, s.nextCompletion)]);
    if id !in s.tasks || s.tasks[id].state.Settled? then removed
    else Settle(Move(removed, id, Running), id, c.kind, c.cancelled)
  }

  /** A batch of completions in job order; an unknown job stops the batch with a fault. */
  function FinishJobs(s: State, batch: seq<Completion>): State
    decreases |batch|
  {
    if batch == [] || batch[0].job !in s.jobs then s else FinishJobs(FinishJob(s, batch[0]), batch[1..])
  }

  predicate KnownBatch(s: State, batch: seq<Completion>) {
    && (forall c <- batch :: c.job in s.jobs)
    && (forall i, j | 0 <= i < j < |batch| :: batch[i].job < batch[j].job)
  }

  // --------------------------------------------------------- host operations

  /** A host operation finishes: its result waits in the reactor and its task is woken. */
  function HostDone(s: State, i: nat): State
    requires i < |s.pending|
  {
    var (id, operation) := s.pending[i];
    var done := s.(pending := s.pending[..i] + s.pending[i + 1..],
                   completed := s.completed + {id}, polled := s.polled + [id]);
    if id in s.tasks && s.tasks[id].state == Waiting(OnHost(operation))
    then Move(done, id, Ready).(ready := s.ready + [id])
    else done
  }

  /** The result is handed to the task's machine. */
  function CommitHost(s: State, id: nat): State {
    s.(completed := s.completed - {id}, committed := s.committed + [id])
  }

  // ------------------------------------------------------------------- steps

  datatype Event =
    | Spawns(capsule: bool)
    | Dispatches(admissible: set<nat>)
    | Submits(accepted: bool)
    | Yields
    | AwaitsHost(operation: nat)
    | AwaitsOther
    | Takes
    | Ends(kind: Kind, cancelled: seq<nat>)
    | Wakes(id: nat)
    | Polls(i: nat)
    | Drains(batch: seq<Completion>)
    | Cancels(ids: seq<nat>)
    | Closes
    | Commits(id: nat)
    | Opens

  /** A dispatched task runs language code only once its CPU work has left it, and takes a
      finished host result before it asks for anything else. */
  predicate RunsCode(s: State) {
    s.running.Some? && s.running.value in s.tasks && !s.tasks[s.running.value].capsule
  }

  /** One coordinator event; an event that does not apply changes nothing. */
  function Step(s: State, e: Event): State {
    match e
    case Spawns(capsule) => Spawn(s, capsule)
    case Dispatches(admissible) => DispatchReady(s, admissible)
    case Submits(accepted) =>
      if s.running.Some? && s.running.value in s.tasks && s.tasks[s.running.value].capsule
      then StartCpu(s, s.running.value, accepted) else s
    case Yields => if RunsCode(s) then Requeue(s, s.running.value) else s
    case AwaitsHost(operation) =>
      if RunsCode(s) && s.running.value !in s.completed
      then Move(s, s.running.value, Waiting(OnHost(operation))).(
             running := None, pending := s.pending + [(s.running.value, operation)])
      else s
    case AwaitsOther =>
      if RunsCode(s) && s.running.value !in s.completed
      then Move(s, s.running.value, Waiting(OnOther)).(running := None) else s
    case Takes => if RunsCode(s) && s.running.value in s.completed then CommitHost(s, s.running.value) else s
    case Ends(kind, cancelled) =>
      if s.running.Some? && s.running.value in s.tasks then Settle(s, s.running.value, kind, cancelled) else s
    case Wakes(id) =>
      if id in s.tasks && s.tasks[id].state == Waiting(OnOther)
      then Move(s, id, Ready).(ready := s.ready + [id]) else s
    case Polls(i) => if i < |s.pending| && s.running.None? then HostDone(s, i) else s
    case Drains(batch) => if KnownBatch(s, batch) && s.running.None? then FinishJobs(s, batch) else s
    case Cancels(ids) => CancelAll(s, ids)
    case Closes => if s.running.None? then s.(barrier := true) else s
    case Commits(id) =>
      if s.barrier && id in s.completed && id in s.tasks && s.tasks[id].state.Ready? then CommitHost(s, id) else s
    case Opens => s.(barrier := false)
  }

  function Run(s: State, events: seq<Event>): State {
    if events == [] then s else Step(Run(s, events[..|events| - 1]), events[|events| - 1])
  }

  // -------------------------------------------------------------- invariants

  predicate Distinct(xs: seq<nat>) {
    forall i, j | 0 <= i < j < |xs| :: xs[i] != xs[j]
  }

  /** One task runs at a time, and the ready queue holds every ready task once. */
  predicate Scheduled(s: State) {
    && (forall id <- s.tasks :: id < s.nextTask && (s.tasks[id].state.Running? <==> s.running == Some(id)))
    && (s.running.Some? ==> s.running.value in s.tasks)
    && Distinct(s.ready)
    && (forall id <- s.ready :: id in s.tasks && (s.tasks[id].state.Ready? || s.tasks[id].state.Settled?))
    && (forall id <- s.tasks :: s.tasks[id].state.Ready? ==> id in s.ready)
  }

  /** Each job in flight belongs to one task that waits on exactly that job or has already
      settled, and no task waits on a job that is not in flight. */
  predicate Owned(s: State) {
    && |s.jobs| <= s.capacity
    && (forall j <- s.jobs :: j < s.nextJob && s.jobs[j] in s.tasks
          && (s.tasks[s.jobs[j]].state == Waiting(OnCpu(j)) || s.tasks[s.jobs[j]].state.Settled?))
    && (forall j, k | j in s.jobs && k in s.jobs && j != k :: s.jobs[j] != s.jobs[k])
    && (forall id <- s.tasks :: s.tasks[id].state.Waiting? && s.tasks[id].state.wait.OnCpu? ==>
          s.tasks[id].state.wait.job in s.jobs && s.jobs[s.tasks[id].state.wait.job] == id)
  }

  /** Each pending host operation has its own waiting task, each result not yet taken belongs
      to a task that has been woken, and neither task has CPU work attached. */
  predicate Hosted(s: State) {
    && (forall i | 0 <= i < |s.pending| ::
          s.pending[i].0 in s.tasks && s.tasks[s.pending[i].0].state == Waiting(OnHost(s.pending[i].1)))
    && (forall i, j | 0 <= i < j < |s.pending| :: s.pending[i].0 != s.pending[j].0)
    && (forall id <- s.completed :: id in s.tasks && !s.tasks[id].state.Waiting?)
    && (forall i | 0 <= i < |s.pending| :: !s.tasks[s.pending[i].0].capsule)
    && (forall id <- s.completed :: !s.tasks[id].capsule)
  }

  /** Dispatch numbers and job identities only grow. */
  predicate Numbered(s: State) {
    && (forall i | 0 <= i < |s.submitted| :: s.submitted[i].0 < s.nextJob && s.submitted[i].1 < s.nextDispatch)
    && (forall i, j | 0 <= i < j < |s.submitted| :: s.submitted[i].0 < s.submitted[j].0 && s.submitted[i].1 < s.submitted[j].1)
  }

  /** Completion numbers are consecutive, and every submitted job is in flight or has been
      removed exactly once. */
  predicate Accounted(s: State) {
    && s.nextCompletion == |s.finished|
    && (forall i | 0 <= i < |s.finished| :: s.finished[i].1 == i && s.finished[i].0 !in s.jobs)
    && (forall i, j | 0 <= i < j < |s.finished| :: s.finished[i].0 != s.finished[j].0)
    && (forall i | 0 <= i < |s.submitted| :: s.submitted[i].0 in s.jobs || (s.submitted[i].0 in JobsOf(s.finished)))
    && (forall j <- s.jobs :: j in JobsOf(s.submitted))
    && (forall j <- JobsOf(s.finished) :: j in JobsOf(s.submitted))
  }

  function JobsOf(log: seq<(nat, nat)>): set<nat> {
    set i | 0 <= i < |log| :: log[i].0
  }

  /** No task settles twice, and no host result is committed twice. */
  ghost predicate Once(s: State) {
    && Distinct(s.settled)
    && (forall id :: id in s.settled <==> id in s.tasks && s.tasks[id].state.Settled?)
    && multiset(s.polled) == multiset(s.committed) + multiset(s.completed)
  }

  ghost predicate Inv(s: State) {
    Scheduled(s) && Owned(s) && Hosted(s) && Numbered(s) && Accounted(s) && Once(s)
  }

  lemma InitialInv(capacity: nat)
    ensures Inv(Initial(capacity))
  {
  }

  // ------------------------------------- one task moves, one book at a time

  predicate OnCpuState(state: TaskState) {
    state.Waiting? && state.wait.OnCpu?
  }

  predicate OnHostState(state: TaskState) {
    state.Waiting? && state.wait.OnHost?
  }

  /** `r` is `s` with task `id` in another state; other books may differ. */
  predicate Moved(s: State, r: State, id: nat) {
    && id in s.tasks && id in r.tasks
    && r.tasks == s.tasks[id := r.tasks[id]]
  }

  lemma MoveOwned(s: State, r: State, id: nat)
    requires Owned(s) && Moved(s, r, id) && r.jobs == s.jobs && r.capacity == s.capacity && s.nextJob <= r.nextJob
    requires r.tasks[id].state.Settled? || !(OnCpuState(s.tasks[id].state) || s.tasks[id].state.Settled? || OnCpuState(r.tasks[id].state))
    ensures Owned(r)
  {
  }

  lemma MoveHosted(s: State, r: State, id: nat)
    requires Hosted(s) && Moved(s, r, id) && r.pending == s.pending && r.completed == s.completed
    requires !OnHostState(s.tasks[id].state) && (id in s.completed ==> !r.tasks[id].state.Waiting?)
    requires r.tasks[id].capsule ==> s.tasks[id].capsule
    ensures Hosted(r)
  {
  }

  lemma MoveOnce(s: State, r: State, id: nat)
    requires Once(s) && Moved(s, r, id)
    requires r.settled == s.settled && r.polled == s.polled && r.committed == s.committed && r.completed == s.completed
    requires !s.tasks[id].state.Settled? && !r.tasks[id].state.Settled?
    ensures Once(r)
  {
  }

  lemma SettleOnce(s: State, r: State, id: nat)
    requires Once(s) && Moved(s, r, id)
    requires r.settled == s.settled + [id] && r.polled == s.polled && r.committed == s.committed && r.completed == s.completed
    requires !s.tasks[id].state.Settled? && r.tasks[id].state.Settled?
    ensures Once(r)
  {
    assert id !in s.settled;
  }

  lemma SameLogs(s: State, r: State)
    requires Numbered(s) && Accounted(s)
    requires r.jobs == s.jobs && r.submitted == s.submitted && r.finished == s.finished && r.nextCompletion == s.nextCompletion
    requires s.nextJob <= r.nextJob && s.nextDispatch <= r.nextDispatch
    ensures Numbered(r) && Accounted(r)
  {
  }

  /** The running task goes back to the end of the queue. */
  lemma BackScheduled(s: State, r: State, id: nat)
    requires Scheduled(s) && s.running == Some(id) && Moved(s, r, id) && r.nextTask == s.nextTask
    requires r.tasks[id].state.Ready? && r.running.None? && r.ready == s.ready + [id]
    ensures Scheduled(r)
  {
    assert id !in s.ready;
    assert forall t :: t in r.ready <==> t == id || t in s.ready;
  }

  /** The running task stops running without becoming ready. */
  lemma StopScheduled(s: State, r: State, id: nat)
    requires Scheduled(s) && s.running == Some(id) && Moved(s, r, id) && r.nextTask == s.nextTask
    requires !r.tasks[id].state.Ready? && !r.tasks[id].state.Running? && r.running.None? && r.ready == s.ready
    ensures Scheduled(r)
  {
    assert id !in s.ready;
  }

  /** A waiting task joins the queue. */
  lemma WakeScheduled(s: State, r: State, id: nat)
    requires Scheduled(s) && Moved(s, r, id) && s.tasks[id].state.Waiting? && r.nextTask == s.nextTask
    requires r.tasks[id].state.Ready? && r.running == s.running && r.ready == s.ready + [id]
    ensures Scheduled(r)
  {
    assert id !in s.ready;
    assert forall t :: t in r.ready <==> t == id || t in s.ready;
  }

  /** A task that does not run is settled; its queue entry goes stale. */
  lemma CancelScheduled(s: State, r: State, id: nat)
    requires Scheduled(s) && Moved(s, r, id) && !s.tasks[id].state.Running? && r.nextTask == s.nextTask
    requires r.tasks[id].state.Settled? && r.running == s.running && r.ready == s.ready
    ensures Scheduled(r)
  {
  }

  // ------------------------------------------------------------- admission

  lemma SpawnKeeps(s: State, capsule: bool)
    requires Inv(s)
    ensures Inv(Spawn(s, capsule))
  {
    SpawnScheduled(s, capsule);
    SpawnOwned(s, capsule);
    SpawnHosted(s, capsule);
    SpawnOnce(s, capsule);
    SameLogs(s, Spawn(s, capsule));
    hide Scheduled, Owned, Hosted, Numbered, Accounted, Once;
  }

  lemma SpawnScheduled(s: State, capsule: bool)
    requires Scheduled(s)
    ensures Scheduled(Spawn(s, capsule))
  {
    var r := Spawn(s, capsule);
    if !s.barrier {
      assert s.nextTask !in s.tasks && s.nextTask !in s.ready;
      assert forall id :: id in r.ready <==> id in s.ready || id == s.nextTask;
    }
  }

  lemma SpawnOwned(s: State, capsule: bool)
    requires Scheduled(s) && Owned(s)
    ensures Owned(Spawn(s, capsule))
  {
    assert s.nextTask !in s.tasks;
  }

  lemma SpawnHosted(s: State, capsule: bool)
    requires Scheduled(s) && Hosted(s)
    ensures Hosted(Spawn(s, capsule))
  {
    assert s.nextTask !in s.tasks;
  }

  lemma SpawnOnce(s: State, capsule: bool)
    requires Scheduled(s) && Once(s)
    ensures Once(Spawn(s, capsule))
  {
    assert s.nextTask !in s.tasks;
  }

  lemma {:induction false} ScanKeeps(s: State, admissible: set<nat>, n: nat)
    requires Inv(s) && s.running.None?
    ensures Inv(Scan(s, admissible, n))
    decreases n
  {
    hide Inv;
    if n > 0 && s.ready != [] {
      var id := s.ready[0];
      var rest := s.(ready := s.ready[1..]);
      var back := rest.(ready := rest.ready + [id]);
      PopKeeps(s);
      if !s.tasks[id].state.Ready? {
        ScanKeeps(rest, admissible, n - 1);
      } else if id !in admissible {
        ScanKeeps(back, admissible, n - 1);
      } else {
        StartKeeps(s);
      }
    }
  }

  /** Dropping a stale entry, or putting an entry back at the end. */
  lemma PopKeeps(s: State)
    requires Inv(s) && s.running.None? && s.ready != []
    ensures var id, rest := s.ready[0], s.(ready := s.ready[1..]);
            && id in s.tasks
            && (!s.tasks[id].state.Ready? ==> Inv(rest))
            && Inv(rest.(ready := rest.ready + [id]))
  {
    hide Scheduled, Owned, Hosted, Numbered, Accounted, Once;
    PopScheduled(s);
    SameBooks(s, s.(ready := s.ready[1..]));
    SameBooks(s, s.(ready := s.ready[1..] + [s.ready[0]]));
  }

  lemma StartKeeps(s: State)
    requires Inv(s) && s.running.None? && s.ready != [] && s.ready[0] in s.tasks && s.tasks[s.ready[0]].state.Ready?
    ensures Inv(Move(s.(ready := s.ready[1..]), s.ready[0], Running).(running := Some(s.ready[0]), started := s.started + [s.ready[0]]))
  {
    hide Scheduled, Owned, Hosted, Numbered, Accounted, Once;
    var id := s.ready[0];
    var r := Move(s.(ready := s.ready[1..]), id, Running).(running := Some(id), started := s.started + [id]);
    PopScheduled(s);
    MoveOwned(s, r, id);
    MoveHosted(s, r, id);
    MoveOnce(s, r, id);
    SameLogs(s, r);
  }

  /** The books other than the ready queue do not depend on it. */
  lemma SameBooks(s: State, r: State)
    requires Owned(s) && Hosted(s) && Numbered(s) && Accounted(s) && Once(s)
    requires r == s.(ready := r.ready)
    ensures Owned(r) && Hosted(r) && Numbered(r) && Accounted(r) && Once(r)
  {
  }

  lemma PopScheduled(s: State)
    requires Scheduled(s) && s.ready != [] && s.running.None?
    ensures var id, rest := s.ready[0], s.ready[1..];
            && id in s.tasks
            && (!s.tasks[id].state.Ready? ==> Scheduled(s.(ready := rest)))
            && Scheduled(s.(ready := rest + [id]))
            && (s.tasks[id].state.Ready? ==>
                  Scheduled(Move(s.(ready := rest), id, Running).(running := Some(id), started := s.started + [id])))
  {
    var id, rest := s.ready[0], s.ready[1..];
    assert id in s.ready && id !in rest;
    assert forall t :: t in s.ready <==> t == id || t in rest;
    assert forall t :: t in rest + [id] <==> t == id || t in rest;
  }

  lemma RequeueKeeps(s: State, id: nat)
    requires Inv(s) && s.running == Some(id)
    ensures Inv(Requeue(s, id))
  {
    assert id in s.tasks && s.tasks[id].state.Running?;
    hide Scheduled, Owned, Hosted, Numbered, Accounted, Once;
    var r := Requeue(s, id);
    BackScheduled(s, r, id);
    MoveOwned(s, r, id);
    MoveHosted(s, r, id);
    MoveOnce(s, r, id);
    SameLogs(s, r);
  }

  lemma CancelOneKeeps(s: State, id: nat)
    requires Inv(s)
    ensures Inv(CancelOne(s, id)) && CancelOne(s, id).running == s.running
  {
    hide Scheduled, Owned, Hosted, Numbered, Accounted, Once;
    var r := CancelOne(s, id);
    if r != s {
      CancelScheduled(s, r, id);
      MoveOwned(s, r, id);
      MoveHosted(s, r, id);
      SettleOnce(s, r, id);
      SameLogs(s, r);
    }
  }

  lemma {:induction false} CancelAllKeeps(s: State, ids: seq<nat>)
    requires Inv(s)
    ensures Inv(CancelAll(s, ids)) && CancelAll(s, ids).running == s.running
  {
    hide Inv, CancelOne;
    if ids != [] {
      CancelAllKeeps(s, ids[..|ids| - 1]);
      CancelOneKeeps(CancelAll(s, ids[..|ids| - 1]), ids[|ids| - 1]);
    }
  }

  lemma SettleKeeps(s: State, id: nat, kind: Kind, cancelled: seq<nat>)
    requires Inv(s) && s.running == Some(id)
    ensures Inv(Settle(s, id, kind, cancelled)) && Settle(s, id, kind, cancelled).running.None?
  {
    assert id in s.tasks && s.tasks[id].state.Running?;
    hide Scheduled, Owned, Hosted, Numbered, Accounted, Once;
    var r := Move(s, id, Settled(kind)).(running := None, settled := s.settled + [id]);
    StopScheduled(s, r, id);
    MoveOwned(s, r, id);
    MoveHosted(s, r, id);
    SettleOnce(s, r, id);
    SameLogs(s, r);
    hide Inv;
    CancelAllKeeps(r, cancelled);
  }

  lemma AwaitKeeps(s: State, id: nat, wait: Wait)
    requires Inv(s) && s.running == Some(id) && !wait.OnCpu? && id !in s.completed && !s.tasks[id].capsule
    ensures var parked := Move(s, id, Waiting(wait)).(running := None);
            Inv(if wait.OnHost? then parked.(pending := s.pending + [(id, wait.operation)]) else parked)
  {
    assert id in s.tasks && s.tasks[id].state.Running?;
    hide Scheduled, Owned, Hosted, Numbered, Accounted, Once;
    var parked := Move(s, id, Waiting(wait)).(running := None);
    var r := if wait.OnHost? then parked.(pending := s.pending + [(id, wait.operation)]) else parked;
    StopScheduled(s, r, id);
    MoveOwned(s, r, id);
    MoveOnce(s, r, id);
    SameLogs(s, r);
    if wait.OnHost? {
      AwaitHosted(s, r, id, wait.operation);
    } else {
      MoveHosted(s, r, id);
    }
  }

  lemma AwaitHosted(s: State, r: State, id: nat, operation: nat)
    requires Hosted(s) && Moved(s, r, id) && !s.tasks[id].state.Waiting? && id !in s.completed && !r.tasks[id].capsule
    requires r.tasks[id].state == Waiting(OnHost(operation)) && r.pending == s.pending + [(id, operation)] && r.completed == s.completed
    ensures Hosted(r)
  {
    assert forall i | 0 <= i < |s.pending| :: s.pending[i].0 != id;
  }

  lemma WakeKeeps(s: State, id: nat)
    requires Inv(s) && id in s.tasks && s.tasks[id].state == Waiting(OnOther)
    ensures Inv(Move(s, id, Ready).(ready := s.ready + [id]))
  {
    hide Scheduled, Owned, Hosted, Numbered, Accounted, Once;
    var r := Move(s, id, Ready).(ready := s.ready + [id]);
    WakeScheduled(s, r, id);
    MoveOwned(s, r, id);
    MoveHosted(s, r, id);
    MoveOnce(s, r, id);
    SameLogs(s, r);
  }

  // --------------------------------------------------------------- CPU jobs

  lemma StartCpuKeeps(s: State, id: nat, accepted: bool)
    requires Inv(s) && s.running == Some(id) && s.tasks[id].capsule
    ensures Inv(StartCpu(s, id, accepted)) && StartCpu(s, id, accepted).running.None?
  {
    assert id in s.tasks && s.tasks[id].state.Running? && id !in s.completed;
    hide Inv;
    if |s.jobs| >= s.capacity {
      RequeueKeeps(s, id);
    } else if !accepted {
      RefusedKeeps(s, id);
    } else {
      AcceptedKeeps(s, id);
    }
  }

  lemma RefusedKeeps(s: State, id: nat)
    requires Inv(s) && s.running == Some(id) && id in s.tasks && s.tasks[id].state.Running? && id !in s.completed
    requires |s.jobs| < s.capacity
    ensures Inv(StartCpu(s, id, false))
  {
    hide Scheduled, Owned, Hosted, Numbered, Accounted, Once;
    var r := StartCpu(s, id, false);
    MoveOnce(s, r, id);
    BackScheduled(s, r, id);
    MoveHosted(s, r, id);
    MoveOwned(s, r, id);
    SameLogs(s, r);
  }

  lemma AcceptedKeeps(s: State, id: nat)
    requires Inv(s) && s.running == Some(id) && id in s.tasks && s.tasks[id].state.Running? && id !in s.completed
    requires |s.jobs| < s.capacity
    ensures Inv(StartCpu(s, id, true))
  {
    hide Scheduled, Owned, Hosted, Numbered, Accounted, Once;
    var r := StartCpu(s, id, true);
    MoveOnce(s, r, id);
    MoveHosted(s, r, id);
    StopScheduled(s, r, id);
    AcceptedOwned(s, r, id);
    AcceptedLogs(s, id);
  }

  lemma AcceptedOwned(s: State, r: State, id: nat)
    requires Owned(s) && Moved(s, r, id) && s.tasks[id].state.Running? && |s.jobs| < s.capacity
    requires r.tasks[id].state == Waiting(OnCpu(s.nextJob)) && r.jobs == s.jobs[s.nextJob := id]
    requires r.nextJob == s.nextJob + 1 && r.capacity == s.capacity
    ensures Owned(r)
  {
    var job := s.nextJob;
    JobsGrow(s.jobs, job, id);
    forall j | j in s.jobs ensures j != job && s.jobs[j] != id && r.tasks[s.jobs[j]] == s.tasks[s.jobs[j]] {
    }
    forall t | t in r.tasks && OnCpuState(r.tasks[t].state)
      ensures r.tasks[t].state.wait.job in r.jobs && r.jobs[r.tasks[t].state.wait.job] == t
    {
      if t != id {
        assert r.tasks[t] == s.tasks[t];
      }
    }
    hide OnCpuState;
  }

  lemma JobsGrow(jobs: map<nat, nat>, job: nat, id: nat)
    requires job !in jobs
    ensures |jobs[job := id]| == |jobs| + 1
  {
    assert jobs[job := id].Keys == jobs.Keys + {job} && |jobs[job := id]| == |jobs[job := id].Keys|;
  }

  lemma AcceptedLogs(s: State, id: nat)
    requires Owned(s) && Numbered(s) && Accounted(s) && id in s.tasks && |s.jobs| < s.capacity
    ensures Numbered(StartCpu(s, id, true)) && Accounted(StartCpu(s, id, true))
  {
    LogGrows(s.submitted, (s.nextJob, s.nextDispatch));
    forall i | 0 <= i < |s.finished| ensures s.finished[i].0 != s.nextJob {
      assert s.finished[i].0 in JobsOf(s.finished);
      assert s.finished[i].0 in JobsOf(s.submitted);
    }
  }

  lemma LogGrows(log: seq<(nat, nat)>, entry: (nat, nat))
    ensures JobsOf(log + [entry]) == JobsOf(log) + {entry.0}
  {
    var more := log + [entry];
    assert forall i | 0 <= i < |log| :: more[i] == log[i];
    assert more[|log|] == entry;
  }

  /** The state between removing a job and settling its task. */
  function Removed(s: State, job: nat): State {
    s.(jobs := s.jobs - {job}, nextCompletion := s.nextCompletion + 1, finished := s.finished + [(job, s.nextCompletion)])
  }

  lemma FinishJobKeeps(s: State, c: Completion)
    requires Inv(s) && c.job in s.jobs && s.running.None?
    ensures Inv(FinishJob(s, c)) && FinishJob(s, c).running.None?
  {
    var id := s.jobs[c.job];
    assert id in s.tasks && (s.tasks[id].state == Waiting(OnCpu(c.job)) || s.tasks[id].state.Settled?);
    RemovedLogs(s, c.job);
    RemovedOwned(s, c.job);
    hide Scheduled, Owned, Hosted, Numbered, Accounted, Once;
    var removed := Removed(s, c.job);
    if s.tasks[id].state.Settled? {
      SameTasks(s, removed);
    } else {
      var back := Move(removed, id, Running).(running := Some(id));
      ResumeScheduled(s, back, id);
      MoveHosted(s, back, id);
      MoveOnce(s, back, id);
      SameLogs(removed, back);
      SettleKeeps(back, id, c.kind, c.cancelled);
      assert Settle(Move(removed, id, Running), id, c.kind, c.cancelled) == Settle(back, id, c.kind, c.cancelled);
    }
  }

  lemma SameTasks(s: State, r: State)
    requires Scheduled(s) && Hosted(s) && Once(s)
    requires r == s.(jobs := r.jobs, nextCompletion := r.nextCompletion, finished := r.finished)
    ensures Scheduled(r) && Hosted(r) && Once(r)
  {
  }

  /** A completed job's task is taken straight from its wait. */
  lemma ResumeScheduled(s: State, r: State, id: nat)
    requires Scheduled(s) && s.running.None? && Moved(s, r, id) && s.tasks[id].state.Waiting? && r.nextTask == s.nextTask
    requires r.tasks[id].state.Running? && r.running == Some(id) && r.ready == s.ready
    ensures Scheduled(r)
  {
    assert id !in s.ready;
  }

  lemma RemovedOwned(s: State, job: nat)
    requires Owned(s) && job in s.jobs
    ensures var id, removed := s.jobs[job], Removed(s, job);
            && (s.tasks[id].state.Settled? ==> Owned(removed))
            && (!s.tasks[id].state.Settled? ==> Owned(Move(removed, id, Running).(running := Some(id))))
  {
    assert s.jobs.Keys - {job} == (s.jobs - {job}).Keys;
    assert |(s.jobs - {job}).Keys| == |s.jobs - {job}| && |s.jobs.Keys| == |s.jobs|;
  }

  lemma RemovedLogs(s: State, job: nat)
    requires Numbered(s) && Accounted(s) && job in s.jobs
    ensures Numbered(Removed(s, job)) && Accounted(Removed(s, job))
  {
    LogGrows(s.finished, (job, s.nextCompletion));
  }

  lemma {:induction false} FinishJobsKeeps(s: State, batch: seq<Completion>)
    requires Inv(s) && s.running.None?
    ensures Inv(FinishJobs(s, batch)) && FinishJobs(s, batch).running.None?
    decreases |batch|
  {
    hide Inv, FinishJob;
    if batch != [] && batch[0].job in s.jobs {
      FinishJobKeeps(s, batch[0]);
      FinishJobsKeeps(FinishJob(s, batch[0]), batch[1..]);
    }
  }

  // ------------------------------------------------------- host operations

  lemma HostDoneKeeps(s: State, i: nat)
    requires Inv(s) && i < |s.pending|
    ensures Inv(HostDone(s, i))
    ensures s.pending[i].0 in HostDone(s, i).tasks && HostDone(s, i).tasks[s.pending[i].0].state.Ready?
  {
    var (id, operation) := s.pending[i];
    assert id in s.tasks && s.tasks[id].state == Waiting(OnHost(operation)) && id !in s.completed;
    HostDoneOnce(s, i);
    PolledHosted(s, i);
    hide Scheduled, Owned, Hosted, Numbered, Accounted, Once;
    var r := HostDone(s, i);
    WakeScheduled(s, r, id);
    MoveOwned(s, r, id);
    SameLogs(s, r);
  }

  lemma PolledHosted(s: State, i: nat)
    requires Hosted(s) && i < |s.pending|
    ensures Hosted(HostDone(s, i))
  {
    var rest := s.pending[..i] + s.pending[i + 1..];
    assert forall k | 0 <= k < |rest| :: rest[k] == s.pending[if k < i then k else k + 1];
  }

  lemma HostDoneOnce(s: State, i: nat)
    requires Once(s) && Hosted(s) && i < |s.pending|
    ensures Once(HostDone(s, i))
  {
    var id := s.pending[i].0;
    assert id !in s.completed;
    assert multiset(s.completed + {id}) == multiset(s.completed) + multiset{id};
    assert multiset(s.polled + [id]) == multiset(s.polled) + multiset{id};
  }

  lemma CommitHostKeeps(s: State, id: nat)
    requires Inv(s) && id in s.completed
    ensures Inv(CommitHost(s, id))
  {
    CommitScheduled(s, id);
    CommitHosted(s, id);
    CommitOnce(s, id);
    SameLogs(s, CommitHost(s, id));
    hide Scheduled, Owned, Hosted, Numbered, Accounted, Once;
  }

  lemma CommitScheduled(s: State, id: nat)
    requires Scheduled(s) && Owned(s)
    ensures Scheduled(CommitHost(s, id)) && Owned(CommitHost(s, id))
  {
  }

  lemma CommitHosted(s: State, id: nat)
    requires Hosted(s)
    ensures Hosted(CommitHost(s, id))
  {
  }

  lemma CommitOnce(s: State, id: nat)
    requires Once(s) && id in s.completed
    ensures Once(CommitHost(s, id))
  {
    assert multiset(s.completed) == multiset(s.completed - {id}) + multiset{id};
    assert multiset(s.committed + [id]) == multiset(s.committed) + multiset{id};
  }

  lemma GateKeeps(s: State, barrier: bool)
    requires Inv(s)
    ensures Inv(s.(barrier := barrier))
  {
  }

  // ---------------------------------------------------------- main results

  lemma StepKeeps(s: State, e: Event)
    requires Inv(s)
    ensures Inv(Step(s, e))
  {
    hide Inv, Scan, CancelAll, FinishJobs, HostDone, CommitHost, Spawn, RunsCode, Move;
    match e
    case Spawns(capsule) => SpawnKeeps(s, capsule);
    case Dispatches(admissible) =>
      if !s.barrier && s.running.None? {
        ScanKeeps(s, admissible, |s.ready|);
      }
    case Wakes(id) =>
      if id in s.tasks && s.tasks[id].state == Waiting(OnOther) {
        WakeKeeps(s, id);
      }
    case Polls(i) =>
      if i < |s.pending| && s.running.None? {
        HostDoneKeeps(s, i);
      }
    case Drains(batch) =>
      if KnownBatch(s, batch) && s.running.None? {
        FinishJobsKeeps(s, batch);
      }
    case Cancels(ids) => CancelAllKeeps(s, ids);
    case Closes => GateKeeps(s, true);
    case Commits(id) =>
      if id in s.completed {
        CommitHostKeeps(s, id);
      }
    case Opens => GateKeeps(s, false);
    case _ => RunningStepKeeps(s, e);
  }

  /** What the running task does. */
  lemma RunningStepKeeps(s: State, e: Event)
    requires Inv(s) && (e.Submits? || e.Yields? || e.AwaitsHost? || e.AwaitsOther? || e.Takes? || e.Ends?)
    ensures Inv(Step(s, e))
  {
    assert s.running.Some? ==> s.running.value in s.tasks;
    hide Inv, Requeue, StartCpu, Settle, CommitHost;
    match e
    case Submits(accepted) =>
      if s.running.Some? && s.tasks[s.running.value].capsule {
        StartCpuKeeps(s, s.running.value, accepted);
      }
    case Yields =>
      if RunsCode(s) {
        RequeueKeeps(s, s.running.value);
      }
    case AwaitsHost(operation) =>
      if RunsCode(s) && s.running.value !in s.completed {
        AwaitKeeps(s, s.running.value, OnHost(operation));
      }
    case AwaitsOther =>
      if RunsCode(s) && s.running.value !in s.completed {
        AwaitKeeps(s, s.running.value, OnOther);
      }
    case Takes =>
      if RunsCode(s) && s.running.value in s.completed {
        CommitHostKeeps(s, s.running.value);
      }
    case Ends(kind, cancelled) =>
      if s.running.Some? {
        SettleKeeps(s, s.running.value, kind, cancelled);
      }
  }

  /** Every state of every run keeps its books. */
  lemma {:induction false} RunKeeps(capacity: nat, events: seq<Event>)
    ensures Inv(Run(Initial(capacity), events))
    decreases |events|
  {
    hide Inv, Step;
    if events == [] {
      InitialInv(capacity);
    } else {
      RunKeeps(capacity, events[..|events| - 1]);
      StepKeeps(Run(Initial(capacity), events[..|events| - 1]), events[|events| - 1]);
    }
  }

  /** What the books say about every reachable state. */
  lemma Reachable(capacity: nat, events: seq<Event>)
    ensures var s := Run(Initial(capacity), events);
            && |s.jobs| <= capacity
            && (forall j <- s.jobs :: s.jobs[j] in s.tasks
                  && (s.tasks[s.jobs[j]].state == Waiting(OnCpu(j)) || s.tasks[s.jobs[j]].state.Settled?))
            && Distinct(s.settled)
            && (forall i, j | 0 <= i < j < |s.submitted| :: s.submitted[i].1 < s.submitted[j].1)
            && (forall i | 0 <= i < |s.finished| :: s.finished[i].1 == i)
            && (forall i, j | 0 <= i < j < |s.finished| :: s.finished[i].0 != s.finished[j].0)
            && (forall i, j | 0 <= i < j < |s.submitted| :: s.submitted[i].0 < s.submitted[j].0)
            && JobsOf(s.submitted) == s.jobs.Keys + JobsOf(s.finished)
            && s.jobs.Keys !! JobsOf(s.finished)
  {
    hide Run, Scheduled, Hosted;
    RunKeeps(capacity, events);
    CapacityKept(capacity, events);
    var s := Run(Initial(capacity), events);
    EveryJob(s);
  }

  /** Every submitted job is in flight or was removed, and never both. */
  lemma EveryJob(s: State)
    requires Accounted(s)
    ensures JobsOf(s.submitted) == s.jobs.Keys + JobsOf(s.finished) && s.jobs.Keys !! JobsOf(s.finished)
  {
    forall j | j in JobsOf(s.submitted) ensures j in s.jobs.Keys + JobsOf(s.finished) {
      var i :| 0 <= i < |s.submitted| && s.submitted[i].0 == j;
    }
  }

  lemma {:induction false} CancelKeepsCapacity(s: State, ids: seq<nat>)
    ensures CancelAll(s, ids).capacity == s.capacity && CancelAll(s, ids).started == s.started
    ensures CancelAll(s, ids).nextDispatch == s.nextDispatch && CancelAll(s, ids).barrier == s.barrier
  {
    if ids != [] {
      CancelKeepsCapacity(s, ids[..|ids| - 1]);
    }
  }

  lemma {:induction false} FinishKeepsCapacity(s: State, batch: seq<Completion>)
    ensures FinishJobs(s, batch).capacity == s.capacity && FinishJobs(s, batch).started == s.started
    ensures FinishJobs(s, batch).barrier == s.barrier
    decreases |batch|
  {
    if batch != [] && batch[0].job in s.jobs {
      var removed := Removed(s, batch[0].job);
      var id := s.jobs[batch[0].job];
      if id in s.tasks && !s.tasks[id].state.Settled? {
        CancelKeepsCapacity(Move(Move(removed, id, Running), id, Settled(batch[0].kind)).(running := None, settled := removed.settled + [id]),
                            batch[0].cancelled);
      }
      FinishKeepsCapacity(FinishJob(s, batch[0]), batch[1..]);
    }
  }

  lemma {:induction false} ScanKeepsCapacity(s: State, admissible: set<nat>, n: nat)
    ensures Scan(s, admissible, n).capacity == s.capacity
    decreases n
  {
    if n > 0 && s.ready != [] {
      var id := s.ready[0];
      var rest := s.(ready := s.ready[1..]);
      if id !in s.tasks || !s.tasks[id].state.Ready? {
        ScanKeepsCapacity(rest, admissible, n - 1);
      } else if id !in admissible {
        ScanKeepsCapacity(rest.(ready := rest.ready + [id]), admissible, n - 1);
      }
    }
  }

  lemma {:induction false} CapacityKept(capacity: nat, events: seq<Event>)
    ensures Run(Initial(capacity), events).capacity == capacity
    decreases |events|
  {
    hide Step;
    if events != [] {
      CapacityKept(capacity, events[..|events| - 1]);
      StepKeepsCapacity(Run(Initial(capacity), events[..|events| - 1]), events[|events| - 1]);
    }
  }

  lemma StepKeepsCapacity(s: State, e: Event)
    ensures Step(s, e).capacity == s.capacity
  {
    hide Scan, CancelAll, FinishJobs, StartCpu, Spawn, HostDone;
    match e
    case Spawns(capsule) => OthersKeepCapacity(s, e);
    case Submits(accepted) => OthersKeepCapacity(s, e);
    case Polls(i) => OthersKeepCapacity(s, e);
    case Dispatches(admissible) => ScanKeepsCapacity(s, admissible, |s.ready|);
    case Ends(kind, cancelled) =>
      if s.running.Some? && s.running.value in s.tasks {
        var id := s.running.value;
        CancelKeepsCapacity(Move(s, id, Settled(kind)).(running := None, settled := s.settled + [id]), cancelled);
      }
    case Drains(batch) => FinishKeepsCapacity(s, batch);
    case Cancels(ids) => CancelKeepsCapacity(s, ids);
    case _ =>
  }

  lemma OthersKeepCapacity(s: State, e: Event)
    requires e.Spawns? || e.Submits? || e.Polls?
    ensures Step(s, e).capacity == s.capacity
  {
  }

  /** The task has no CPU work left to hand over and none in flight. */
  predicate Workless(s: State, id: nat) {
    id in s.tasks && !s.tasks[id].capsule && forall j <- s.jobs :: s.jobs[j] != id
  }

  lemma {:induction false} ScanWorkless(s: State, admissible: set<nat>, n: nat, id: nat)
    requires Workless(s, id)
    ensures Workless(Scan(s, admissible, n), id)
    decreases n
  {
    if n > 0 && s.ready != [] {
      var first, rest := s.ready[0], s.(ready := s.ready[1..]);
      if first !in s.tasks || !s.tasks[first].state.Ready? {
        ScanWorkless(rest, admissible, n - 1, id);
      } else if first !in admissible {
        ScanWorkless(rest.(ready := rest.ready + [first]), admissible, n - 1, id);
      }
    }
  }

  lemma {:induction false} CancelWorkless(s: State, ids: seq<nat>, id: nat)
    requires Workless(s, id)
    ensures Workless(CancelAll(s, ids), id)
  {
    if ids != [] {
      CancelWorkless(s, ids[..|ids| - 1], id);
    }
  }

  lemma SettleWorkless(s: State, ended: nat, kind: Kind, cancelled: seq<nat>, id: nat)
    requires Workless(s, id) && ended in s.tasks
    ensures Workless(Settle(s, ended, kind, cancelled), id)
  {
    CancelWorkless(Move(s, ended, Settled(kind)).(running := None, settled := s.settled + [ended]), cancelled, id);
  }

  lemma {:induction false} FinishWorkless(s: State, batch: seq<Completion>, id: nat)
    requires Workless(s, id)
    ensures Workless(FinishJobs(s, batch), id)
    decreases |batch|
  {
    if batch != [] && batch[0].job in s.jobs {
      var c := batch[0];
      var removed := Removed(s, c.job);
      var owner := s.jobs[c.job];
      if owner in s.tasks && !s.tasks[owner].state.Settled? {
        hide Settle;
        SettleWorkless(Move(removed, owner, Running), owner, c.kind, c.cancelled, id);
      }
      FinishWorkless(FinishJob(s, c), batch[1..], id);
    }
  }

  lemma RequeueWorkless(s: State, back: nat, id: nat)
    requires Workless(s, id) && back in s.tasks
    ensures Workless(Requeue(s, back), id)
  {
  }

  lemma SubmitWorkless(s: State, owner: nat, accepted: bool, id: nat)
    requires Workless(s, id) && owner in s.tasks && s.tasks[owner].capsule
    ensures Workless(StartCpu(s, owner, accepted), id)
  {
  }

  lemma StepWorkless(s: State, e: Event, id: nat)
    requires Scheduled(s) && Workless(s, id)
    ensures Workless(Step(s, e), id)
  {
    hide Scan, CancelAll, FinishJobs, Settle, StartCpu, Requeue;
    match e
    case Submits(accepted) =>
      if s.running.Some? && s.running.value in s.tasks && s.tasks[s.running.value].capsule {
        SubmitWorkless(s, s.running.value, accepted, id);
      }
    case Yields =>
      if RunsCode(s) {
        RequeueWorkless(s, s.running.value, id);
      }
    case Dispatches(admissible) => ScanWorkless(s, admissible, |s.ready|, id);
    case Ends(kind, cancelled) =>
      if s.running.Some? && s.running.value in s.tasks {
        SettleWorkless(s, s.running.value, kind, cancelled, id);
      }
    case Drains(batch) => FinishWorkless(s, batch, id);
    case Cancels(ids) => CancelWorkless(s, ids, id);
    case _ =>
  }

  lemma {:induction false} RunWorkless(s: State, events: seq<Event>, id: nat)
    requires Inv(s) && Workless(s, id)
    ensures Inv(Run(s, events)) && Workless(Run(s, events), id)
    decreases |events|
  {
    hide Step, Workless, Inv;
    if events != [] {
      var before := Run(s, events[..|events| - 1]);
      RunWorkless(s, events[..|events| - 1], id);
      StepKeeps(before, events[|events| - 1]);
      InvScheduled(before);
      StepWorkless(before, events[|events| - 1], id);
    }
  }

  lemma InvScheduled(s: State)
    requires Inv(s)
    ensures Scheduled(s)
  {
  }

  /** A refused submission puts the task back at the end of the queue and uses up a dispatch
      number; the work is gone, and over any later run the task never owns a job again. */
  lemma RefusedForever(s: State, id: nat, events: seq<Event>)
    requires Inv(s) && s.running == Some(id) && s.tasks[id].capsule && |s.jobs| < s.capacity
    ensures var r := StartCpu(s, id, false);
            && r.tasks[id] == Task(Ready, false) && r.ready == s.ready + [id]
            && r.jobs == s.jobs && r.submitted == s.submitted && r.nextDispatch == s.nextDispatch + 1
            && Inv(r) && Workless(Run(r, events), id)
  {
    StartCpuKeeps(s, id, false);
    assert Workless(StartCpu(s, id, false), id) by {
      RefusedWorkless(s, id);
    }
    hide Inv, Workless;
    RunWorkless(StartCpu(s, id, false), events, id);
  }

  lemma RefusedWorkless(s: State, id: nat)
    requires Scheduled(s) && Owned(s) && s.running == Some(id) && |s.jobs| < s.capacity
    ensures Workless(StartCpu(s, id, false), id)
  {
  }

  // ------------------------------------------------- who starts, who settles how

  predicate Startable(s: State, id: nat, admissible: set<nat>) {
    id in s.tasks && s.tasks[id].state.Ready? && id in admissible
  }

  /** The entries among `ids` that are not stale, in order. */
  function StillReady(s: State, ids: seq<nat>): seq<nat> {
    if ids == [] then []
    else (if ids[0] in s.tasks && s.tasks[ids[0]].state.Ready? then [ids[0]] else []) + StillReady(s, ids[1..])
  }

  /** Entry `i` of the queue starts, or none if `i` is `n`: the entries passed go to the back in
      order unless they are stale, which drops them, and the others stay in front. */
  function Started(s: State, n: nat, i: nat): State
    requires i <= n <= |s.ready| && (i < n ==> s.ready[i] in s.tasks)
  {
    if i == n then s.(ready := s.ready[n..] + StillReady(s, s.ready[..n]))
    else
      var id := s.ready[i];
      s.(ready := s.ready[i + 1..] + StillReady(s, s.ready[..i]), running := Some(id), started := s.started + [id],
         tasks := s.tasks[id := s.tasks[id].(state := Running)])
  }

  /** The pass over the queue starts its first startable task. */
  lemma {:induction false} ScanExactly(s: State, admissible: set<nat>, n: nat, i: nat)
    requires i <= n <= |s.ready| && forall j | 0 <= j < i :: !Startable(s, s.ready[j], admissible)
    requires i == n || Startable(s, s.ready[i], admissible)
    ensures Scan(s, admissible, n) == Started(s, n, i)
    decreases n
  {
    if i == 0 {
      ScanHead(s, admissible, n);
    } else {
      hide Scan, StillReady, Started;
      var id := s.ready[0];
      var kept := if id in s.tasks && s.tasks[id].state.Ready? then [id] else [];
      var next := s.(ready := s.ready[1..] + kept);
      assert forall j | 0 <= j < i - 1 :: next.ready[j] == s.ready[j + 1];
      ScanSkip(s, admissible, n, kept);
      StartedShift(s, next, kept, n, i);
      ScanExactly(next, admissible, n - 1, i - 1);
    }
  }

  lemma StartedShift(s: State, next: State, kept: seq<nat>, n: nat, i: nat)
    requires 0 < i <= n <= |s.ready| && (i < n ==> s.ready[i] in s.tasks)
    requires kept == if s.ready[0] in s.tasks && s.tasks[s.ready[0]].state.Ready? then [s.ready[0]] else []
    requires next == s.(ready := s.ready[1..] + kept)
    ensures i < n ==> next.ready[i - 1] == s.ready[i]
    ensures Started(next, n - 1, i - 1) == Started(s, n, i)
  {
    hide StillReady;
    ScanShift(s, next, kept, n, i);
  }

  lemma ScanHead(s: State, admissible: set<nat>, n: nat)
    requires n <= |s.ready| && (n == 0 || Startable(s, s.ready[0], admissible))
    ensures Scan(s, admissible, n) == Started(s, n, 0)
  {
    assert StillReady(s, s.ready[..0]) == [];
    assert s.ready[0..] + [] == s.ready;
    if n > 0 {
      assert s.ready[1..] + [] == s.ready[1..];
    }
  }

  /** An entry that cannot start is dropped, or put at the back if it is still ready. */
  lemma ScanSkip(s: State, admissible: set<nat>, n: nat, kept: seq<nat>)
    requires 0 < n <= |s.ready| && !Startable(s, s.ready[0], admissible)
    requires kept == if s.ready[0] in s.tasks && s.tasks[s.ready[0]].state.Ready? then [s.ready[0]] else []
    ensures Scan(s, admissible, n) == Scan(s.(ready := s.ready[1..] + kept), admissible, n - 1)
  {
    assert s.ready[1..] + [] == s.ready[1..];
  }

  /** What is left of the queue, seen before and after its first entry is taken. */
  lemma ScanShift(s: State, next: State, kept: seq<nat>, n: nat, i: nat)
    requires 0 < i <= n <= |s.ready|
    requires kept == if s.ready[0] in s.tasks && s.tasks[s.ready[0]].state.Ready? then [s.ready[0]] else []
    requires next == s.(ready := s.ready[1..] + kept)
    ensures next.ready[n - 1..] + StillReady(next, next.ready[..n - 1]) == s.ready[n..] + StillReady(s, s.ready[..n])
    ensures i < n ==> next.ready[i..] + StillReady(next, next.ready[..i - 1]) == s.ready[i + 1..] + StillReady(s, s.ready[..i])
    ensures i < n ==> next.ready[i - 1] == s.ready[i]
  {
    hide StillReady;
    Rotate(s, next, kept, n, n - 1);
    if i < n {
      Rotate(s, next, kept, i, i);
    }
  }

  lemma Rotate(s: State, next: State, kept: seq<nat>, m: nat, from: nat)
    requires 0 < m <= |s.ready| && m <= from + 1 && from < |s.ready|
    requires kept == if s.ready[0] in s.tasks && s.tasks[s.ready[0]].state.Ready? then [s.ready[0]] else []
    requires next == s.(ready := s.ready[1..] + kept)
    ensures next.ready[from..] + StillReady(next, next.ready[..m - 1]) == s.ready[from + 1..] + StillReady(s, s.ready[..m])
  {
    hide StillReady;
    var seen := s.ready[..m];
    RotateQueue(s.ready, kept, m, from);
    SameReady(s, next, seen[1..]);
    StillReadyStep(s, seen);
    Regroup(s.ready[from + 1..], kept, StillReady(s, seen[1..]));
  }

  lemma RotateQueue(ready: seq<nat>, kept: seq<nat>, m: nat, from: nat)
    requires 0 < m <= |ready| && m <= from + 1 && from < |ready|
    ensures var next := ready[1..] + kept;
            next[..m - 1] == ready[..m][1..] && next[from..] == ready[from + 1..] + kept && ready[..m][0] == ready[0]
  {
  }

  lemma StillReadyStep(s: State, ids: seq<nat>)
    requires ids != []
    ensures StillReady(s, ids)
         == (if ids[0] in s.tasks && s.tasks[ids[0]].state.Ready? then [ids[0]] else []) + StillReady(s, ids[1..])
  {
  }

  lemma Regroup(a: seq<nat>, b: seq<nat>, c: seq<nat>)
    ensures a + b + c == a + (b + c)
  {
  }

  lemma {:induction false} SameReady(s: State, r: State, ids: seq<nat>)
    requires r.tasks == s.tasks
    ensures StillReady(r, ids) == StillReady(s, ids)
  {
    if ids != [] {
      SameReady(s, r, ids[1..]);
    }
  }

  predicate Cancellable(state: TaskState) {
    !state.Settled? && !state.Running? && !OnHostState(state)
  }

  /** Cancelling settles exactly the named tasks that are neither settled, running nor waiting
      on the host, as cancelled, and changes no other task. */
  lemma {:induction false} CancelAllExactly(s: State, ids: seq<nat>)
    ensures var r := CancelAll(s, ids);
            && r.tasks.Keys == s.tasks.Keys && r.jobs == s.jobs
            && forall t <- s.tasks ::
                 r.tasks[t] == if t in ids && Cancellable(s.tasks[t].state) then s.tasks[t].(state := Settled(Cancelled)) else s.tasks[t]
  {
    if ids != [] {
      var front, last := ids[..|ids| - 1], ids[|ids| - 1];
      CancelAllExactly(s, front);
      assert forall t :: t in ids <==> t in front || t == last;
    }
  }

  /** Ending a task settles it in the way it ended, and cancels its group. */
  lemma SettleExactly(s: State, id: nat, kind: Kind, cancelled: seq<nat>)
    requires id in s.tasks
    ensures var r := Settle(s, id, kind, cancelled);
            && r.tasks.Keys == s.tasks.Keys && r.jobs == s.jobs && r.tasks[id].state == Settled(kind)
            && forall t <- s.tasks :: t != id ==>
                 r.tasks[t] == if t in cancelled && Cancellable(s.tasks[t].state) then s.tasks[t].(state := Settled(Cancelled)) else s.tasks[t]
  {
    CancelAllExactly(Move(s, id, Settled(kind)).(running := None, settled := s.settled + [id]), cancelled);
  }

  function States(s: State): map<nat, TaskState> {
    map t | t in s.tasks :: s.tasks[t].state
  }

  /** What one completion does: its task settles as it completed, unless it had settled, and
      then the tasks it cancels do. */
  function Fate(states: map<nat, TaskState>, owner: nat, c: Completion): map<nat, TaskState> {
    if owner !in states || states[owner].Settled? then states
    else
      map t | t in states ::
        if t == owner then Settled(c.kind)
        else if t in c.cancelled && Cancellable(states[t]) then Settled(Cancelled)
        else states[t]
  }

  /** A batch in order, up to the first unknown job. */
  function Fates(states: map<nat, TaskState>, owners: map<nat, nat>, batch: seq<Completion>): map<nat, TaskState>
    decreases |batch|
  {
    if batch == [] || batch[0].job !in owners then states
    else Fates(Fate(states, owners[batch[0].job], batch[0]), owners - {batch[0].job}, batch[1..])
  }

  lemma FinishJobExactly(s: State, c: Completion)
    requires c.job in s.jobs
    ensures var r := FinishJob(s, c);
            && States(r) == Fate(States(s), s.jobs[c.job], c) && r.jobs == s.jobs - {c.job}
            && r.finished == s.finished + [(c.job, s.nextCompletion)]
  {
    hide Settle;
    var id := s.jobs[c.job];
    var removed := Removed(s, c.job);
    if id in s.tasks && !s.tasks[id].state.Settled? {
      SettleExactly(Move(removed, id, Running), id, c.kind, c.cancelled);
      SettleFinishes(Move(removed, id, Running), id, c.kind, c.cancelled);
    }
  }

  lemma SettleFinishes(s: State, id: nat, kind: Kind, cancelled: seq<nat>)
    requires id in s.tasks
    ensures Settle(s, id, kind, cancelled).finished == s.finished
  {
    CancelFinishes(Move(s, id, Settled(kind)).(running := None, settled := s.settled + [id]), cancelled);
  }

  lemma {:induction false} CancelFinishes(s: State, ids: seq<nat>)
    ensures CancelAll(s, ids).finished == s.finished
  {
    if ids != [] {
      CancelFinishes(s, ids[..|ids| - 1]);
    }
  }

  /** A batch of completions settles tasks as their completions say, in the batch's order. */
  lemma {:induction false} FinishJobsExactly(s: State, batch: seq<Completion>)
    ensures States(FinishJobs(s, batch)) == Fates(States(s), s.jobs, batch)
    decreases |batch|
  {
    hide FinishJob, States;
    if batch != [] && batch[0].job in s.jobs {
      FinishJobExactly(s, batch[0]);
      FinishJobsExactly(FinishJob(s, batch[0]), batch[1..]);
    }
  }

  lemma {:induction false} SettledStays(states: map<nat, TaskState>, owners: map<nat, nat>, batch: seq<Completion>, t: nat)
    requires t in states && states[t].Settled?
    ensures t in Fates(states, owners, batch) && Fates(states, owners, batch)[t] == states[t]
    decreases |batch|
  {
    if batch != [] && batch[0].job in owners {
      SettledStays(Fate(states, owners[batch[0].job], batch[0]), owners - {batch[0].job}, batch[1..], t);
    }
  }

  /** A task that waits on a job of the batch ends as that job completed, unless an earlier
      completion of the batch cancels it. */
  lemma {:induction false} WaiterEndsAs(states: map<nat, TaskState>, owners: map<nat, nat>, batch: seq<Completion>, i: nat, t: nat)
    requires forall c <- batch :: c.job in owners
    requires forall k, l | 0 <= k < l < |batch| :: batch[k].job != batch[l].job
    requires forall j, k | j in owners && k in owners && j != k :: owners[j] != owners[k]
    requires i < |batch| && owners[batch[i].job] == t && t in states && !states[t].Settled?
    requires forall k | 0 <= k < i :: t !in batch[k].cancelled
    ensures t in Fates(states, owners, batch) && Fates(states, owners, batch)[t] == Settled(batch[i].kind)
    decreases |batch|
  {
    var c, rest := batch[0], batch[1..];
    var next := Fate(states, owners[c.job], c);
    if i == 0 {
      SettledStays(next, owners - {c.job}, rest, t);
    } else {
      assert forall k | 0 <= k < |rest| :: rest[k] == batch[k + 1];
      assert forall d <- rest :: d.job in owners - {c.job};
      WaiterEndsAs(next, owners - {c.job}, rest, i - 1, t);
    }
  }

  /** The same of the books: every task that waits on a job of a batch the barrier or the driver
      handles settles as its completion says. */
  lemma CompletedAsReported(s: State, batch: seq<Completion>, i: nat)
    requires Inv(s) && KnownBatch(s, batch) && i < |batch|
    requires var t := s.jobs[batch[i].job];
             s.tasks[t].state == Waiting(OnCpu(batch[i].job)) && forall k | 0 <= k < i :: t !in batch[k].cancelled
    ensures var t, r := s.jobs[batch[i].job], FinishJobs(s, batch);
            t in r.tasks && r.tasks[t].state == Settled(batch[i].kind)
  {
    hide FinishJobs, Fates;
    FinishJobsExactly(s, batch);
    WaiterEndsAs(States(s), s.jobs, batch, i, s.jobs[batch[i].job]);
    assert s.jobs[batch[i].job] in States(FinishJobs(s, batch));
  }

  /** A new task is ready, has the work it was given, and goes to the end of the queue; no
      other task changes. Behind the gate nothing is admitted. */
  lemma SpawnExactly(s: State, capsule: bool)
    requires Scheduled(s)
    ensures var r := Step(s, Spawns(capsule));
            if s.barrier then r == s
            else && s.nextTask !in s.tasks && r.tasks == s.tasks[s.nextTask := Task(Ready, capsule)]
                 && r.nextTask == s.nextTask + 1 && r.ready == s.ready + [s.nextTask]
  {
  }

  /** The ready queue is first in, first out: apart from the dispatching pass, an event adds at
      most one task, at the end. */
  lemma QueueGrowsAtBack(s: State, e: Event)
    requires Inv(s) && !e.Dispatches?
    ensures var r := Step(s, e);
            s.ready <= r.ready && |r.ready| <= |s.ready| + 1
  {
    hide Inv, CancelAll, FinishJobs, Settle;
    match e
    case Ends(kind, cancelled) =>
      if s.running.Some? && s.running.value in s.tasks {
        SettleQueue(s, s.running.value, kind, cancelled);
      }
    case Drains(batch) => FinishQueue(s, batch);
    case Cancels(ids) => CancelQueue(s, ids);
    case _ =>
  }

  lemma {:induction false} CancelQueue(s: State, ids: seq<nat>)
    ensures CancelAll(s, ids).ready == s.ready
  {
    if ids != [] {
      CancelQueue(s, ids[..|ids| - 1]);
    }
  }

  lemma SettleQueue(s: State, id: nat, kind: Kind, cancelled: seq<nat>)
    requires id in s.tasks
    ensures Settle(s, id, kind, cancelled).ready == s.ready
  {
    CancelQueue(Move(s, id, Settled(kind)).(running := None, settled := s.settled + [id]), cancelled);
  }

  lemma {:induction false} FinishQueue(s: State, batch: seq<Completion>)
    ensures FinishJobs(s, batch).ready == s.ready
    decreases |batch|
  {
    hide Settle;
    if batch != [] && batch[0].job in s.jobs {
      var id, c := s.jobs[batch[0].job], batch[0];
      if id in s.tasks && !s.tasks[id].state.Settled? {
        SettleQueue(Move(Removed(s, c.job), id, Running), id, c.kind, c.cancelled);
      }
      FinishQueue(FinishJob(s, c), batch[1..]);
    }
  }

  // --------------------------------------------------------------- in place

  /** The coordinator as it runs: each method changes the books step by step. */
  class Driver {
    var books: State

    constructor (capacity: nat)
      ensures books == Initial(capacity) && Inv(books)
    {
      books := Initial(capacity);
      new;
      InitialInv(capacity);
    }

    /** Starts the first ready task with a free slot, unless a checkpoint is being taken. */
    method StartReady(admissible: set<nat>) returns (started: Option<nat>)
      requires Inv(books) && books.running.None?
      modifies this
      ensures Inv(books) && books == DispatchReady(old(books), admissible)
      ensures started == books.running
      ensures old(books).barrier ==> books == old(books)
    {
      hide Inv;
      if books.barrier {
        return None;
      }
      ScanKeeps(books, admissible, |books.ready|);
      var queued := |books.ready|;
      while queued > 0 && books.ready != []
        invariant queued >= 0 && books.running.None? && !books.barrier
        invariant Scan(books, admissible, queued) == Scan(old(books), admissible, |old(books).ready|)
        decreases queued
      {
        var id := books.ready[0];
        books := books.(ready := books.ready[1..]);
        if id in books.tasks && books.tasks[id].state.Ready? {
          if id in admissible {
            books := Move(books, id, Running).(running := Some(id), started := books.started + [id]);
            return Some(id);
          }
          books := books.(ready := books.ready + [id]);
        }
        queued := queued - 1;
      }
      return None;
    }

    /** Hands the dispatched task's CPU work to the executor, or puts the task back. */
    method DriveCpu(id: nat, accepted: bool) returns (job: Option<nat>)
      requires Inv(books) && books.running == Some(id) && id in books.tasks && books.tasks[id].capsule
      modifies this
      ensures Inv(books) && books == StartCpu(old(books), id, accepted)
      ensures job.Some? <==> accepted && |old(books).jobs| < books.capacity
      ensures job.Some? ==> books.jobs == old(books).jobs[job.value := id] && books.tasks[id].state == Waiting(OnCpu(job.value))
    {
      hide Inv;
      StartCpuKeeps(books, id, accepted);
      if |books.jobs| >= books.capacity {
        books := Requeue(books, id);
        return None;
      }
      var number, next := books.nextDispatch, books.nextJob;
      books := books.(tasks := books.tasks[id := books.tasks[id].(capsule := false)],
                      nextDispatch := number + 1, nextJob := next + 1);
      if !accepted {
        books := Requeue(books, id);
        return None;
      }
      books := Move(books, id, Waiting(OnCpu(next))).(running := None);
      books := books.(jobs := books.jobs[next := id], submitted := books.submitted + [(next, number)]);
      return Some(next);
    }

    /** Ends the running task and cancels what its group's policy says, one by one. */
    method FinishTask(id: nat, kind: Kind, cancelled: seq<nat>)
      requires Inv(books) && books.running == Some(id) && id in books.tasks
      modifies this
      ensures Inv(books) && books == Settle(old(books), id, kind, cancelled)
      ensures books.running.None?
    {
      hide Inv, CancelOne;
      SettleKeeps(books, id, kind, cancelled);
      books := Move(books, id, Settled(kind)).(running := None, settled := books.settled + [id]);
      ghost var ended := books;
      var i := 0;
      while i < |cancelled|
        invariant 0 <= i <= |cancelled| && books == CancelAll(ended, cancelled[..i])
      {
        assert cancelled[..i + 1][..i] == cancelled[..i];
        books := CancelOne(books, cancelled[i]);
        i := i + 1;
      }
      assert cancelled[..i] == cancelled;
    }
  }
}
