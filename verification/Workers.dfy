/**
 Several workers over one job table, in one or more processes. Each worker
 repeats: take a token, claim a batch, spawn a task per job as permits allow,
 wait. Every SQL statement and every spawn is one atomic step.
 */
module Workers {
  import opened Wrappers
  import opened JobQueue

  /** Where a worker's loop is. `batch` are the claimed jobs not spawned yet. */
  datatype Phase =
    | Waiting
    | Claiming(token: Token)
    | Marked(token: Token)
    | Dispatching(token: Token, batch: seq<JobId>)
    | Stopped

  datatype Worker = Worker(process: nat, batchSize: nat, concurrency: nat, phase: Phase)

  /** A task runs the handler, then makes one `complete` or `fail` call, then drops its permit. */
  datatype TaskPhase = Handling | Failing(seen: Seen) | Reported

  datatype Task = Task(worker: nat, id: JobId, token: Token, phase: TaskPhase)

  /** `started` counts, per job, how often its handler was started. */
  datatype Fleet = Fleet(q: Queue, workers: seq<Worker>, tasks: map<nat, Task>, nextTask: nat, started: map<JobId, nat>)

  /**
   A claim in one statement is `Updates` with `Selects` right behind it.
   `Stops` is a shutdown, a claim error, or the loop being dropped anywhere;
   `GivesUp` is a database error or a panic in a task.
   */
  datatype FleetStep =
    | Outside(step: Step)
    | TakesToken(w: nat)
    | Updates(w: nat, stamp: int, ids: set<JobId>)
    | Selects(w: nat, order: seq<JobId>)
    | Spawns(w: nat)
    | PollsAgain(w: nat)
    | Stops(w: nat)
    | Completes(t: nat)
    | FailReads(t: nat)
    | FailFindsNone(t: nat)
    | FailUpdates(t: nat, failStamp: int, error: string)
    | GivesUp(t: nat)
    | Releases(t: nat)

  // ----- Steps -----

  predicate Active(task: Task) {
    task.phase != Reported
  }

  function TasksOf(f: Fleet, w: nat): set<nat> {
    set t | t in f.tasks && f.tasks[t].worker == w
  }

  function Started(f: Fleet, id: JobId): nat {
    if id in f.started then f.started[id] else 0
  }

  ghost predicate Allowed(f: Fleet, step: FleetStep) {
    match step
    case Outside(s) => (s.Push? || s.Tick?) && Enabled(f.q, s)
    case TakesToken(w) => w < |f.workers| && f.workers[w].phase == Waiting
    case Updates(w, stamp, ids) =>
      && w < |f.workers| && f.workers[w].phase.Claiming?
      && Enabled(f.q, ClaimUpdate(f.workers[w].phase.token, stamp, f.workers[w].batchSize, ids))
    case Selects(w, order) =>
      w < |f.workers| && f.workers[w].phase.Marked? && ListsOnce(HeldBy(f.q, f.workers[w].phase.token), order)
    case Spawns(w) =>
      && w < |f.workers| && f.workers[w].phase.Dispatching? && f.workers[w].phase.batch != []
      && |TasksOf(f, w)| < f.workers[w].concurrency
    case PollsAgain(w) => w < |f.workers| && f.workers[w].phase.Dispatching? && f.workers[w].phase.batch == []
    case Stops(w) => w < |f.workers|
    case Completes(t) => t in f.tasks && f.tasks[t].phase == Handling
    case FailReads(t) => t in f.tasks && f.tasks[t].phase == Handling && Enabled(f.q, FailSelect(f.tasks[t].id))
    case FailFindsNone(t) => t in f.tasks && f.tasks[t].phase == Handling && !Enabled(f.q, FailSelect(f.tasks[t].id))
    case FailUpdates(t, stamp, error) =>
      t in f.tasks && f.tasks[t].phase.Failing? && Enabled(f.q, FailUpdate(f.tasks[t].phase.seen, stamp, error))
    case GivesUp(t) => t in f.tasks && Active(f.tasks[t])
    case Releases(t) => t in f.tasks && f.tasks[t].phase == Reported
  }

  /** What a step does to the job table: at most one statement. */
  function Statement(f: Fleet, step: FleetStep): (s: Option<Step>)
    requires Allowed(f, step)
    ensures s.Some? ==> Enabled(f.q, s.value)
  {
    match step
    case Outside(s) => Some(s)
    case TakesToken(w) => Some(TakeToken(f.workers[w].process))
    case Updates(w, stamp, ids) => Some(ClaimUpdate(f.workers[w].phase.token, stamp, f.workers[w].batchSize, ids))
    case Completes(t) => Some(Complete(f.tasks[t].id))
    case FailReads(t) => Some(FailSelect(f.tasks[t].id))
    case FailUpdates(t, stamp, error) => Some(FailUpdate(f.tasks[t].phase.seen, stamp, error))
    case _ => None
  }

  function NextQueue(f: Fleet, step: FleetStep): Queue
    requires Allowed(f, step)
  {
    var s := Statement(f, step);
    if s.Some? then Apply(f.q, s.value) else f.q
  }

  function NextPhase(f: Fleet, step: FleetStep): Phase
    requires Allowed(f, step) &&
      (step.TakesToken? || step.Updates? || step.Selects? || step.Spawns? || step.PollsAgain? || step.Stops?)
  {
    match step
    case TakesToken(w) => Claiming(Token(f.workers[w].process, Counter(f.q, f.workers[w].process)))
    case Updates(w, _, _) => Marked(f.workers[w].phase.token)
    case Selects(w, order) => Dispatching(f.workers[w].phase.token, order)
    case Spawns(w) => Dispatching(f.workers[w].phase.token, f.workers[w].phase.batch[1..])
    case PollsAgain(_) => Waiting
    case Stops(_) => Stopped
  }

  function NextWorkers(f: Fleet, step: FleetStep): seq<Worker>
    requires Allowed(f, step)
  {
    if step.TakesToken? || step.Updates? || step.Selects? || step.Spawns? || step.PollsAgain? || step.Stops?
    then f.workers[step.w := f.workers[step.w].(phase := NextPhase(f, step))]
    else f.workers
  }

  function WithPhase(f: Fleet, t: nat, phase: TaskPhase): map<nat, Task>
    requires t in f.tasks
  {
    f.tasks[t := f.tasks[t].(phase := phase)]
  }

  function NextTasks(f: Fleet, step: FleetStep): map<nat, Task>
    requires Allowed(f, step)
  {
    match step
    case Spawns(w) => f.tasks[f.nextTask := Task(w, f.workers[w].phase.batch[0], f.workers[w].phase.token, Handling)]
    case FailReads(t) => WithPhase(f, t, Failing(ReadOf(f.q, f.tasks[t].id)))
    case Completes(t) => WithPhase(f, t, Reported)
    case FailFindsNone(t) => WithPhase(f, t, Reported)
    case FailUpdates(t, _, _) => WithPhase(f, t, Reported)
    case GivesUp(t) => WithPhase(f, t, Reported)
    case Releases(t) => f.tasks - {t}
    case _ => f.tasks
  }

  function Next(f: Fleet, step: FleetStep): Fleet
    requires Allowed(f, step)
  {
    Fleet(
      NextQueue(f, step),
      NextWorkers(f, step),
      NextTasks(f, step),
      if step.Spawns? then f.nextTask + 1 else f.nextTask,
      if step.Spawns?
      then var id := f.workers[step.w].phase.batch[0]; f.started[id := Started(f, id) + 1]
      else f.started)
  }

  // ----- The invariant -----

  predicate LockedWith(q: Queue, id: JobId, token: Token) {
    id in q.jobs && q.jobs[id].lockedBy == Some(token)
  }

  /** A job in hand: its row is locked by this claim, and its handler has not been started for it. */
  predicate NotStarted(f: Fleet, id: JobId, token: Token) {
    LockedWith(f.q, id, token) && Started(f, id) < f.q.jobs[id].claims
  }

  ghost predicate NoTaskOn(f: Fleet, id: JobId) {
    forall t :: t in f.tasks && Active(f.tasks[t]) ==> f.tasks[t].id != id
  }

  ghost predicate WorkerOk(f: Fleet, phase: Phase) {
    match phase
    case Claiming(token) => token in f.q.unused
    case Marked(token) =>
      && token in f.q.marked
      && (forall id :: id in f.q.marked[token] ==> NotStarted(f, id, token) && NoTaskOn(f, id))
    case Dispatching(token, batch) =>
      && token in f.q.marked
      && (forall i, j :: 0 <= i < j < |batch| ==> batch[i] != batch[j])
      && (forall id :: id in batch ==> NotStarted(f, id, token) && NoTaskOn(f, id))
    case _ => true
  }

  predicate HasToken(phase: Phase) {
    phase.Claiming? || phase.Marked? || phase.Dispatching?
  }

  predicate TaskOk(f: Fleet, task: Task) {
    && task.worker < |f.workers|
    && (Active(task) ==> LockedWith(f.q, task.id, task.token))
    && (task.phase.Failing? ==>
          && task.phase.seen.id == task.id
          && task.phase.seen.lockedBy == Some(task.token)
          && task.phase.seen in f.q.readings)
  }

  ghost predicate FleetInv(f: Fleet) {
    && Inv(f.q)
    && (forall w :: 0 <= w < |f.workers| ==> WorkerOk(f, f.workers[w].phase))
    && (forall w, v ::
          0 <= w < |f.workers| && 0 <= v < |f.workers| && w != v
          && HasToken(f.workers[w].phase) && HasToken(f.workers[v].phase) ==>
            f.workers[w].phase.token != f.workers[v].phase.token)
    && (forall t :: t in f.tasks ==> t < f.nextTask && TaskOk(f, f.tasks[t]))
    && (forall t, u :: t in f.tasks && u in f.tasks && t != u && Active(f.tasks[t]) && Active(f.tasks[u]) ==>
          f.tasks[t].id != f.tasks[u].id)
    && (forall w :: 0 <= w < |f.workers| ==> |TasksOf(f, w)| <= f.workers[w].concurrency)
    && (forall id :: id in f.started ==> id in f.q.jobs && f.started[id] <= f.q.jobs[id].claims)
  }

  /** Any table without running rows, any workers about to start. */
  ghost predicate Start(f: Fleet) {
    && Settled(f.q) && f.tasks == map[] && f.started == map[]
    && (forall w :: 0 <= w < |f.workers| ==> f.workers[w].phase == Waiting)
  }

  lemma StartInv(f: Fleet)
    requires Start(f)
    ensures FleetInv(f)
  {
    SettledInv(f.q);
    forall w | 0 <= w < |f.workers| ensures |TasksOf(f, w)| <= f.workers[w].concurrency {
      assert TasksOf(f, w) == {};
    }
  }

  // ----- How statements treat the rows a worker or a task holds -----

  /** A statement that is not a report on the row leaves a locked row as it is. */
  lemma StatementKeepsLocked(q: Queue, step: Step, id: JobId, token: Token)
    requires Inv(q) && Enabled(q, step) && LockedWith(q, id, token)
    requires step.Complete? ==> step.id != id
    requires step.FailUpdate? ==> step.seen.id != id
    ensures id in Apply(q, step).jobs && Apply(q, step).jobs[id] == q.jobs[id]
  {
    assert JobOk(q.jobs[id]);
  }

  lemma StatementKeepsTokens(q: Queue, step: Step)
    requires Inv(q) && Enabled(q, step)
    ensures forall t :: t in q.unused && !(step.ClaimUpdate? && step.token == t) ==> t in Apply(q, step).unused
    ensures forall t :: t in q.marked ==> t in Apply(q, step).marked && Apply(q, step).marked[t] == q.marked[t]
    ensures forall seen :: seen in q.readings ==> seen in Apply(q, step).readings
    ensures forall id :: id in q.jobs ==>
      id in Apply(q, step).jobs && q.jobs[id].claims <= Apply(q, step).jobs[id].claims
  {}

  lemma NextQueueOk(f: Fleet, step: FleetStep)
    requires Inv(f.q) && Allowed(f, step)
    ensures Inv(NextQueue(f, step))
    ensures forall t :: t in f.q.unused && !(step.Updates? && f.workers[step.w].phase.token == t) ==>
      t in NextQueue(f, step).unused
    ensures forall t :: t in f.q.marked ==>
      t in NextQueue(f, step).marked && NextQueue(f, step).marked[t] == f.q.marked[t]
    ensures forall seen :: seen in f.q.readings ==> seen in NextQueue(f, step).readings
    ensures forall id :: id in f.q.jobs ==>
      id in NextQueue(f, step).jobs && f.q.jobs[id].claims <= NextQueue(f, step).jobs[id].claims
  {
    hide Inv, Enabled, Apply;
    var s := Statement(f, step);
    if s.Some? {
      StepKeepsInv(f.q, s.value);
      StatementKeepsTokens(f.q, s.value);
    }
  }

  /** Whether `step` reports on job `id`. */
  predicate ReportsOn(f: Fleet, step: FleetStep, id: JobId) {
    && (step.Completes? || step.FailUpdates?)
    && step.t in f.tasks && f.tasks[step.t].id == id
  }

  lemma RowInHandKept(f: Fleet, step: FleetStep, id: JobId, token: Token)
    requires FleetInv(f) && Allowed(f, step) && LockedWith(f.q, id, token) && !ReportsOn(f, step, id)
    ensures LockedWith(NextQueue(f, step), id, token) && NextQueue(f, step).jobs[id] == f.q.jobs[id]
  {
    hide Inv, Enabled, Apply;
    var s := Statement(f, step);
    if s.Some? {
      assert step.FailUpdates? ==> TaskOk(f, f.tasks[step.t]);
      StatementKeepsLocked(f.q, s.value, id, token);
    }
  }

  /** A job without a task is not reported on, and gets one only by being spawned. */
  lemma JobInHandKept(f: Fleet, step: FleetStep, id: JobId, token: Token)
    requires FleetInv(f) && Allowed(f, step) && NotStarted(f, id, token) && NoTaskOn(f, id)
    requires step.Spawns? ==> f.workers[step.w].phase.batch[0] != id
    ensures NotStarted(Next(f, step), id, token) && NoTaskOn(Next(f, step), id)
  {
    hide Inv, Enabled, Apply, FleetInv;
    RowInHandKept(f, step, id, token);
  }

  // ----- Every step keeps the invariant -----

  /** Jobs two workers hold are different: their rows carry different tokens. */
  lemma SpawnedElsewhere(f: Fleet, step: FleetStep, w: nat, id: JobId)
    requires FleetInv(f) && Allowed(f, step) && step.Spawns? && w < |f.workers| && w != step.w
    requires HasToken(f.workers[w].phase) && LockedWith(f.q, id, f.workers[w].phase.token)
    ensures f.workers[step.w].phase.batch[0] != id
  {
    hide Inv, Enabled, Apply;
    var spawning := f.workers[step.w].phase;
    assert WorkerOk(f, spawning) && spawning.batch[0] in spawning.batch;
  }

  lemma WorkerIsOk(f: Fleet, step: FleetStep, w: nat)
    requires FleetInv(f) && Allowed(f, step) && w < |f.workers| && NextWorkers(f, step)[w] == f.workers[w]
    ensures Inv(f.q) && WorkerOk(f, f.workers[w].phase)
    ensures step.Updates? && HasToken(f.workers[w].phase) ==> f.workers[step.w].phase.token != f.workers[w].phase.token
    ensures step.Spawns? ==> w != step.w
  {
    hide Inv, Enabled, Apply, WorkerOk;
  }

  lemma SameWorker(f: Fleet, step: FleetStep, w: nat)
    requires Allowed(f, step) && w < |f.workers|
    requires NextWorkers(f, step)[w] == f.workers[w]
    requires FleetInv(f)
    ensures WorkerOk(Next(f, step), f.workers[w].phase)
  {
    hide Inv, Enabled, Apply, FleetInv;
    var phase := f.workers[w].phase;
    WorkerIsOk(f, step, w);
    NextQueueOk(f, step);
    var ids := if phase.Marked? then f.q.marked[phase.token] else if phase.Dispatching?
      then set id | id in phase.batch else {};
    forall id | id in ids ensures NotStarted(Next(f, step), id, phase.token) && NoTaskOn(Next(f, step), id) {
      if step.Spawns? {
        SpawnedElsewhere(f, step, w, id);
      }
      JobInHandKept(f, step, id, phase.token);
    }
  }

  lemma ClaimedNow(f: Fleet, step: FleetStep)
    requires FleetInv(f) && Allowed(f, step) && step.Updates?
    ensures WorkerOk(Next(f, step), NextPhase(f, step))
  {}

  lemma SelectedNow(f: Fleet, step: FleetStep)
    requires FleetInv(f) && Allowed(f, step) && step.Selects?
    ensures WorkerOk(Next(f, step), NextPhase(f, step))
  {}

  lemma SpawnedNow(f: Fleet, step: FleetStep)
    requires FleetInv(f) && Allowed(f, step) && step.Spawns?
    ensures WorkerOk(Next(f, step), NextPhase(f, step))
  {
    hide Enabled, Apply, Inv;
    var phase := f.workers[step.w].phase;
    assert WorkerOk(f, phase);
    var rest := phase.batch[1..];
    forall id | id in rest ensures NotStarted(Next(f, step), id, phase.token) && NoTaskOn(Next(f, step), id) {
      JobInHandKept(f, step, id, phase.token);
    }
  }

  lemma WorkersStayOk(f: Fleet, step: FleetStep, w: nat)
    requires FleetInv(f) && Allowed(f, step) && w < |f.workers|
    ensures WorkerOk(Next(f, step), NextWorkers(f, step)[w].phase)
  {
    hide Inv, Enabled, FleetInv, WorkerOk;
    if NextWorkers(f, step)[w] == f.workers[w] {
      SameWorker(f, step, w);
    } else {
      match step
      case Updates(_, _, _) => ClaimedNow(f, step);
      case Selects(_, _) => SelectedNow(f, step);
      case Spawns(_) => SpawnedNow(f, step);
      case _ => FreshPhase(f, step);
    }
  }

  lemma FreshPhase(f: Fleet, step: FleetStep)
    requires Allowed(f, step) && (step.TakesToken? || step.PollsAgain? || step.Stops?)
    ensures WorkerOk(Next(f, step), NextPhase(f, step))
  {}

  lemma TokensStayApart(f: Fleet, step: FleetStep, w: nat, v: nat)
    requires FleetInv(f) && Allowed(f, step) && w < |f.workers| && v < |f.workers| && w != v
    requires HasToken(NextWorkers(f, step)[w].phase) && HasToken(NextWorkers(f, step)[v].phase)
    ensures NextWorkers(f, step)[w].phase.token != NextWorkers(f, step)[v].phase.token
  {}

  lemma TasksStayOk(f: Fleet, step: FleetStep, t: nat)
    requires FleetInv(f) && Allowed(f, step) && t in NextTasks(f, step)
    ensures t < Next(f, step).nextTask && TaskOk(Next(f, step), NextTasks(f, step)[t])
  {
    hide FleetInv, Inv, Enabled, Apply, Next, NextTasks, TaskOk;
    if step.Spawns? && t == f.nextTask {
      SpawnedTaskOk(f, step);
    } else {
      OldTaskOk(f, step, t);
    }
  }

  lemma SpawnedTaskOk(f: Fleet, step: FleetStep)
    requires FleetInv(f) && Allowed(f, step) && step.Spawns?
    ensures f.nextTask in NextTasks(f, step) && f.nextTask < Next(f, step).nextTask
    ensures TaskOk(Next(f, step), NextTasks(f, step)[f.nextTask])
  {
    hide Inv, Enabled, Apply;
    var phase := f.workers[step.w].phase;
    assert WorkerOk(f, phase) && phase.batch[0] in phase.batch;
  }

  lemma OldTaskOk(f: Fleet, step: FleetStep, t: nat)
    requires FleetInv(f) && Allowed(f, step) && t in NextTasks(f, step) && !(step.Spawns? && t == f.nextTask)
    ensures t < Next(f, step).nextTask && TaskOk(Next(f, step), NextTasks(f, step)[t])
  {
    hide Inv, Enabled, Apply, WorkerOk, NextQueue, Statement;
    NextQueueOk(f, step);
    var task := f.tasks[t];
    assert TaskOk(f, task);
    if Active(NextTasks(f, step)[t]) {
      assert !ReportsOn(f, step, task.id);
      RowInHandKept(f, step, task.id, task.token);
      if step.FailReads? && step.t == t {
        ReadIsRecorded(f, step);
      }
    }
  }

  lemma ReadIsRecorded(f: Fleet, step: FleetStep)
    requires Allowed(f, step) && step.FailReads?
    ensures var id := f.tasks[step.t].id;
      ReadOf(f.q, id) in NextQueue(f, step).readings && ReadOf(f.q, id).id == id &&
        ReadOf(f.q, id).lockedBy == f.q.jobs[id].lockedBy
  {}

  lemma TasksStayApart(f: Fleet, step: FleetStep, t: nat, u: nat)
    requires FleetInv(f) && Allowed(f, step) && t in NextTasks(f, step) && u in NextTasks(f, step) && t != u
    requires Active(NextTasks(f, step)[t]) && Active(NextTasks(f, step)[u])
    ensures NextTasks(f, step)[t].id != NextTasks(f, step)[u].id
  {
    hide Inv, Enabled, Apply;
    if step.Spawns? && (t == f.nextTask || u == f.nextTask) {
      var phase := f.workers[step.w].phase;
      assert WorkerOk(f, phase) && phase.batch[0] in phase.batch;
      assert NoTaskOn(f, phase.batch[0]);
    }
  }

  lemma TasksOfNext(f: Fleet, step: FleetStep, w: nat)
    requires Allowed(f, step)
    ensures TasksOf(Next(f, step), w) <= TasksOf(f, w) + (if step.Spawns? && step.w == w then {f.nextTask} else {})
  {
    hide NextQueue, NextWorkers, Statement, Enabled;
  }

  lemma PermitsStayOk(f: Fleet, step: FleetStep, w: nat)
    requires FleetInv(f) && Allowed(f, step) && w < |f.workers|
    ensures |TasksOf(Next(f, step), w)| <= NextWorkers(f, step)[w].concurrency
  {
    hide Inv, Enabled, NextQueue, NextTasks, TasksOf, WorkerOk, TaskOk;
    TasksOfNext(f, step, w);
    Fewer(TasksOf(Next(f, step), w), TasksOf(f, w) + (if step.Spawns? && step.w == w then {f.nextTask} else {}));
  }

  lemma {:induction false} Fewer(small: set<nat>, large: set<nat>)
    requires small <= large
    ensures |small| <= |large|
  {
    assert large == small + (large - small);
  }

  lemma StartsStayOk(f: Fleet, step: FleetStep, id: JobId)
    requires FleetInv(f) && Allowed(f, step) && id in Next(f, step).started
    ensures id in NextQueue(f, step).jobs && Next(f, step).started[id] <= NextQueue(f, step).jobs[id].claims
  {
    hide Inv, Enabled, Apply;
    NextQueueOk(f, step);
    if step.Spawns? && id == f.workers[step.w].phase.batch[0] {
      assert WorkerOk(f, f.workers[step.w].phase);
      assert id in f.workers[step.w].phase.batch;
      assert NotStarted(f, id, f.workers[step.w].phase.token);
    }
  }

  lemma FleetStepKeepsInv(f: Fleet, step: FleetStep)
    requires FleetInv(f) && Allowed(f, step)
    ensures FleetInv(Next(f, step))
  {
    var next := Next(f, step);
    assert Inv(next.q) by { NextQueueOk(f, step); }
    forall w | 0 <= w < |next.workers| ensures WorkerOk(next, next.workers[w].phase) {
      WorkersStayOk(f, step, w);
    }
    forall w, v |
      0 <= w < |next.workers| && 0 <= v < |next.workers| && w != v
      && HasToken(next.workers[w].phase) && HasToken(next.workers[v].phase)
      ensures next.workers[w].phase.token != next.workers[v].phase.token
    {
      TokensStayApart(f, step, w, v);
    }
    forall t | t in next.tasks ensures t < next.nextTask && TaskOk(next, next.tasks[t]) {
      TasksStayOk(f, step, t);
    }
    forall t, u | t in next.tasks && u in next.tasks && t != u && Active(next.tasks[t]) && Active(next.tasks[u])
      ensures next.tasks[t].id != next.tasks[u].id
    {
      TasksStayApart(f, step, t, u);
    }
    forall w | 0 <= w < |next.workers| ensures |TasksOf(next, w)| <= next.workers[w].concurrency {
      PermitsStayOk(f, step, w);
    }
    forall id | id in next.started ensures id in next.q.jobs && next.started[id] <= next.q.jobs[id].claims {
      StartsStayOk(f, step, id);
    }
  }

  // ----- Runs -----

  ghost predicate FleetRun(fs: seq<Fleet>, steps: seq<FleetStep>) {
    && |fs| == |steps| + 1
    && forall i :: 0 <= i < |steps| ==> Allowed(fs[i], steps[i]) && fs[i + 1] == Next(fs[i], steps[i])
  }

  lemma {:induction false} FleetRunKeepsInv(fs: seq<Fleet>, steps: seq<FleetStep>, n: nat)
    requires FleetRun(fs, steps) && Start(fs[0]) && n < |fs|
    ensures FleetInv(fs[n])
  {
    hide FleetInv, Allowed, Next;
    if n == 0 {
      StartInv(fs[0]);
    } else {
      FleetRunKeepsInv(fs, steps, n - 1);
      FleetStepKeepsInv(fs[n - 1], steps[n - 1]);
    }
  }

  /** No job is in two tasks at once, and no worker has more than `concurrency` tasks. */
  lemma OneTaskPerJob(fs: seq<Fleet>, steps: seq<FleetStep>, n: nat)
    requires FleetRun(fs, steps) && Start(fs[0]) && n < |fs|
    ensures forall t, u ::
      t in fs[n].tasks && u in fs[n].tasks && t != u && Active(fs[n].tasks[t]) && Active(fs[n].tasks[u]) ==>
        fs[n].tasks[t].id != fs[n].tasks[u].id
    ensures forall w :: 0 <= w < |fs[n].workers| ==> |TasksOf(fs[n], w)| <= fs[n].workers[w].concurrency
  {
    FleetRunKeepsInv(fs, steps, n);
  }

  /**
   However many steps of other workers and tasks lie between a claim's UPDATE
   and its SELECT, the SELECT returns exactly the rows the UPDATE marked.
   */
  lemma SelectReturnsMarked(fs: seq<Fleet>, steps: seq<FleetStep>, n: nat)
    requires FleetRun(fs, steps) && Start(fs[0]) && n < |steps| && steps[n].Selects?
    ensures var token := fs[n].workers[steps[n].w].phase.token;
      token in fs[n].q.marked && ListsOnce(fs[n].q.marked[token], steps[n].order)
  {
    hide Enabled, Apply, Inv;
    FleetRunKeepsInv(fs, steps, n);
    var f := fs[n];
    var token := f.workers[steps[n].w].phase.token;
    assert WorkerOk(f, f.workers[steps[n].w].phase);
    SelectIsOwn(f.q, token);
    forall id | id in f.q.marked[token] ensures id in HeldBy(f.q, token) {
      LockedRuns(f.q, id, token);
    }
  }

  lemma LockedRuns(q: Queue, id: JobId, token: Token)
    requires Inv(q) && LockedWith(q, id, token)
    ensures q.jobs[id].status == Running
  {
    assert JobOk(q.jobs[id]);
  }

  /**
   A task's report always meets its own claim: `complete` finds the row running
   under the task's token, `fail` always finds the row, and its guarded UPDATE
   always takes effect.
   */
  lemma ReportsMeetTheirClaim(fs: seq<Fleet>, steps: seq<FleetStep>, n: nat)
    requires FleetRun(fs, steps) && Start(fs[0]) && n < |steps|
    ensures !steps[n].FailFindsNone?
    ensures steps[n].Completes? ==>
      var task := fs[n].tasks[steps[n].t];
      LockedWith(fs[n].q, task.id, task.token) && fs[n].q.jobs[task.id].status == Running
    ensures steps[n].FailUpdates? ==>
      var task := fs[n].tasks[steps[n].t];
      task.phase.seen.id == task.id && task.phase.seen.lockedBy == Some(task.token) &&
        StillLocked(fs[n].q, task.phase.seen)
  {
    hide Inv, Apply;
    FleetRunKeepsInv(fs, steps, n);
    var f := fs[n];
    if steps[n].Completes? || steps[n].FailFindsNone? || steps[n].FailUpdates? {
      var task := f.tasks[steps[n].t];
      assert TaskOk(f, task);
      LockedRuns(f.q, task.id, task.token);
    }
  }

  /** A job's handler is started at most `maxRetries + 1` times, and at most once per claim. */
  lemma StartsAreBounded(fs: seq<Fleet>, steps: seq<FleetStep>, n: nat, id: JobId)
    requires FleetRun(fs, steps) && Start(fs[0]) && n < |fs| && id in fs[n].started
    ensures id in fs[n].q.jobs && fs[n].started[id] <= fs[n].q.jobs[id].claims <= fs[n].q.jobs[id].maxRetries + 1
  {
    FleetRunKeepsInv(fs, steps, n);
    assert JobOk(fs[n].q.jobs[id]);
  }

  /** Every run of workers is a run of job table statements, so all that holds of those holds here. */
  lemma {:induction false} StatementsOf(fs: seq<Fleet>, steps: seq<FleetStep>, n: nat)
    returns (qs: seq<Queue>, statements: seq<Step>)
    requires FleetRun(fs, steps) && n < |fs|
    ensures Run(qs, statements) && qs[0] == fs[0].q && qs[|qs| - 1] == fs[n].q
  {
    hide Run, Enabled, Apply, Allowed;
    if n == 0 {
      qs, statements := [fs[0].q], [];
      assert Run(qs, statements) by { RunNone(fs[0].q); }
    } else {
      qs, statements := StatementsOf(fs, steps, n - 1);
      var s := Statement(fs[n - 1], steps[n - 1]);
      if s.Some? {
        RunOne(fs[n - 1].q, s.value);
        RunConcat(qs, statements, [fs[n - 1].q, fs[n].q], [s.value]);
        qs, statements := qs + [fs[n].q], statements + [s.value];
      }
    }
  }

  /** Once a task has reported success, the job stays completed and its handler is never started again. */
  lemma {:induction false} SuccessIsFinal(fs: seq<Fleet>, steps: seq<FleetStep>, i: nat, j: nat)
    requires FleetRun(fs, steps) && Start(fs[0]) && i < j < |fs| && steps[i].Completes?
    ensures var id := fs[i].tasks[steps[i].t].id;
      id in fs[j].q.jobs && fs[j].q.jobs[id].status == Completed && Started(fs[j], id) == Started(fs[i], id)
    decreases j
  {
    hide FleetInv, Next;
    FleetRunKeepsInv(fs, steps, j - 1);
    var id := fs[i].tasks[steps[i].t].id;
    if i + 1 == j {
      ReportsMeetTheirClaim(fs, steps, i);
      CompletesNow(fs[i], steps[i]);
    } else {
      SuccessIsFinal(fs, steps, i, j - 1);
      CompletedIsLeftAlone(fs[j - 1], steps[j - 1], id);
    }
  }

  lemma CompletesNow(f: Fleet, step: FleetStep)
    requires Allowed(f, step) && step.Completes? && f.tasks[step.t].id in f.q.jobs
    ensures var id := f.tasks[step.t].id;
      id in Next(f, step).q.jobs && Next(f, step).q.jobs[id].status == Completed &&
        Started(Next(f, step), id) == Started(f, id)
  {}

  lemma CompletedIsLeftAlone(f: Fleet, step: FleetStep, id: JobId)
    requires FleetInv(f) && Allowed(f, step) && id in f.q.jobs && f.q.jobs[id].status == Completed
    ensures id in Next(f, step).q.jobs && Next(f, step).q.jobs[id].status == Completed &&
      Started(Next(f, step), id) == Started(f, id)
  {
    hide Inv, Enabled, Apply;
    var s := Statement(f, step);
    if s.Some? {
      StepKeepsCompleted(f.q, s.value, id);
    }
    if step.Spawns? {
      var phase := f.workers[step.w].phase;
      assert WorkerOk(f, phase) && phase.batch[0] in phase.batch;
      LockedRuns(f.q, phase.batch[0], phase.token);
    }
  }
}
