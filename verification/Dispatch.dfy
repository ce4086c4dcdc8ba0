/**
 From the claim to the report: every claimed job is handed to exactly one task,
 reports leave their mark on the row, and a worker is never stuck.
 */
module Dispatch {
  import opened Wrappers
  import opened Sets
  import opened JobQueue
  import opened Workers

  // ----- Every claimed job gets its task -----

  /** The `k`-th step starts a task for job `id` under the claim `token`. */
  ghost predicate SpawnsJob(fs: seq<Fleet>, steps: seq<FleetStep>, k: nat, token: Token, id: JobId)
    requires FleetRun(fs, steps) && k < |steps|
  {
    && steps[k].Spawns? && fs[k].nextTask in fs[k + 1].tasks
    && fs[k + 1].tasks[fs[k].nextTask] == Task(steps[k].w, id, token, Handling)
  }

  ghost predicate NeverSpawned(fs: seq<Fleet>, steps: seq<FleetStep>, n: nat, token: Token, id: JobId)
    requires FleetRun(fs, steps) && n < |fs|
  {
    forall k :: 0 <= k < n ==> !SpawnsJob(fs, steps, k, token, id)
  }

  ghost predicate SpawnedOnce(fs: seq<Fleet>, steps: seq<FleetStep>, n: nat, w: nat, token: Token, id: JobId)
    requires FleetRun(fs, steps) && n < |fs|
  {
    exists k ::
      && 0 <= k < n && SpawnsJob(fs, steps, k, token, id) && steps[k] == Spawns(w)
      && forall j :: 0 <= j < n && SpawnsJob(fs, steps, j, token, id) ==> j == k
  }

  lemma RunLength(fs: seq<Fleet>, steps: seq<FleetStep>)
    requires FleetRun(fs, steps)
    ensures |fs| == |steps| + 1
  {}

  lemma SpawnsFromBatch(fs: seq<Fleet>, steps: seq<FleetStep>, k: nat, token: Token, id: JobId)
    requires FleetRun(fs, steps) && Start(fs[0]) && k < |steps|
    ensures SpawnsJob(fs, steps, k, token, id) <==>
      && steps[k].Spawns? && fs[k].workers[steps[k].w].phase.token == token
      && fs[k].workers[steps[k].w].phase.batch[0] == id
    ensures SpawnsJob(fs, steps, k, token, id) ==> token in fs[k].q.marked && id in fs[k].q.marked[token]
  {
    hide Inv, Enabled, Apply;
    FleetRunKeepsInv(fs, steps, k);
    if steps[k].Spawns? {
      var phase := fs[k].workers[steps[k].w].phase;
      assert WorkerOk(fs[k], phase) && phase.batch[0] in phase.batch;
      LockedIsMarked(fs[k].q, phase.batch[0], phase.token);
    }
  }

  lemma LockedIsMarked(q: Queue, id: JobId, token: Token)
    requires Inv(q) && LockedWith(q, id, token)
    ensures token in q.marked && id in q.marked[token]
  {}

  lemma {:induction false} MarksStay(fs: seq<Fleet>, steps: seq<FleetStep>, k: nat, n: nat, token: Token)
    requires FleetRun(fs, steps) && Start(fs[0]) && k <= n < |fs| && token in fs[k].q.marked
    ensures token in fs[n].q.marked && fs[n].q.marked[token] == fs[k].q.marked[token]
  {
    hide FleetInv, Inv, Allowed, NextQueue, NextWorkers, NextTasks;
    if k < n {
      MarksStay(fs, steps, k, n - 1, token);
      FleetRunKeepsInv(fs, steps, n - 1);
      QueueOk(fs[n - 1]);
      NextQueueOk(fs[n - 1], steps[n - 1]);
    }
  }

  lemma QueueOk(f: Fleet)
    requires FleetInv(f)
    ensures Inv(f.q)
  {}

  /** Under a token that has marked nothing yet, nothing has been spawned. */
  lemma UnmarkedIsUnspawned(fs: seq<Fleet>, steps: seq<FleetStep>, n: nat, token: Token, id: JobId)
    requires FleetRun(fs, steps) && Start(fs[0]) && n < |fs| && token !in fs[n].q.marked
    ensures NeverSpawned(fs, steps, n, token, id)
  {
    hide FleetRun, Start, SpawnsJob;
    RunLength(fs, steps);
    forall k | 0 <= k < n ensures !SpawnsJob(fs, steps, k, token, id) {
      SpawnsFromBatch(fs, steps, k, token, id);
      if SpawnsJob(fs, steps, k, token, id) {
        MarksStay(fs, steps, k, n, token);
      }
    }
  }

  lemma ClaimingIsUnmarked(f: Fleet, w: nat)
    requires FleetInv(f) && w < |f.workers| && f.workers[w].phase.Claiming?
    ensures f.workers[w].phase.token !in f.q.marked
  {
    assert WorkerOk(f, f.workers[w].phase);
  }

  /** A step by others spawns nothing under this worker's token. */
  lemma OthersSpawnElse(fs: seq<Fleet>, steps: seq<FleetStep>, n: nat, w: nat, id: JobId)
    requires FleetRun(fs, steps) && Start(fs[0]) && n < |steps| && w < |fs[n].workers|
    requires HasToken(fs[n].workers[w].phase) && steps[n] != Spawns(w)
    ensures !SpawnsJob(fs, steps, n, fs[n].workers[w].phase.token, id)
  {
    hide Inv, Enabled, Apply;
    FleetRunKeepsInv(fs, steps, n);
    SpawnsFromBatch(fs, steps, n, fs[n].workers[w].phase.token, id);
  }

  lemma NeverMore(fs: seq<Fleet>, steps: seq<FleetStep>, n: nat, token: Token, id: JobId)
    requires FleetRun(fs, steps) && n < |steps| && !SpawnsJob(fs, steps, n, token, id)
    ensures NeverSpawned(fs, steps, n + 1, token, id) <==> NeverSpawned(fs, steps, n, token, id)
    ensures forall w :: SpawnedOnce(fs, steps, n, w, token, id) ==> SpawnedOnce(fs, steps, n + 1, w, token, id)
  {
    hide FleetRun, SpawnsJob;
    RunLength(fs, steps);
    forall w | SpawnedOnce(fs, steps, n, w, token, id) ensures SpawnedOnce(fs, steps, n + 1, w, token, id) {
      var k :| 0 <= k < n && SpawnsJob(fs, steps, k, token, id) && steps[k] == Spawns(w)
        && forall j :: 0 <= j < n && SpawnsJob(fs, steps, j, token, id) ==> j == k;
      assert k < n + 1;
    }
  }

  lemma SpawnIsAStep(fs: seq<Fleet>, steps: seq<FleetStep>, k: nat, token: Token, id: JobId)
    requires FleetRun(fs, steps) && k < |steps| && SpawnsJob(fs, steps, k, token, id)
    ensures steps[k].Spawns?
  {}

  lemma OnceNow(fs: seq<Fleet>, steps: seq<FleetStep>, n: nat, token: Token, id: JobId)
    requires FleetRun(fs, steps) && n < |steps| && SpawnsJob(fs, steps, n, token, id)
    requires NeverSpawned(fs, steps, n, token, id)
    ensures steps[n].Spawns? && SpawnedOnce(fs, steps, n + 1, steps[n].w, token, id)
  {
    hide FleetRun, SpawnsJob;
    SpawnIsAStep(fs, steps, n, token, id);
    RunLength(fs, steps);
    assert n < n + 1;
  }

  /** How far a claimed job has come: still in the batch and never spawned, or spawned once. */
  ghost predicate InHand(fs: seq<Fleet>, steps: seq<FleetStep>, n: nat, w: nat, id: JobId)
    requires FleetRun(fs, steps) && n < |fs| && w < |fs[n].workers| && HasToken(fs[n].workers[w].phase)
  {
    var phase := fs[n].workers[w].phase;
    if phase.Dispatching? && id !in phase.batch then SpawnedOnce(fs, steps, n, w, phase.token, id)
    else NeverSpawned(fs, steps, n, phase.token, id)
  }

  /** What one step of a run does to a worker. */
  lemma WorkerStep(fs: seq<Fleet>, steps: seq<FleetStep>, n: nat, w: nat)
    requires FleetRun(fs, steps) && n < |steps| && w < |fs[n + 1].workers|
    ensures |fs[n + 1].workers| == |fs[n].workers| && Allowed(fs[n], steps[n])
    ensures var was, now := fs[n].workers[w], fs[n + 1].workers[w];
      || now == was
      || steps[n] == TakesToken(w) || steps[n] == PollsAgain(w) || steps[n] == Stops(w)
      || (steps[n].Updates? && steps[n].w == w && was.phase.Claiming? && now.phase == Marked(was.phase.token))
      || (steps[n].Selects? && steps[n].w == w && was.phase.Marked?
          && now.phase == Dispatching(was.phase.token, steps[n].order))
      || (steps[n] == Spawns(w) && was.phase.Dispatching? && was.phase.batch != []
          && now.phase == Dispatching(was.phase.token, was.phase.batch[1..]))
    ensures steps[n] == TakesToken(w) ==> fs[n + 1].workers[w].phase.Claiming?
    ensures steps[n] == PollsAgain(w) || steps[n] == Stops(w) ==> !HasToken(fs[n + 1].workers[w].phase)
    ensures steps[n] == Spawns(w) ==> fs[n + 1].workers[w] != fs[n].workers[w]
  {
    hide Enabled, Apply;
  }

  lemma {:induction false} ClaimedIsInHand(fs: seq<Fleet>, steps: seq<FleetStep>, n: nat, w: nat, id: JobId)
    requires FleetRun(fs, steps) && Start(fs[0]) && n < |fs| && w < |fs[n].workers|
    requires HasToken(fs[n].workers[w].phase)
    requires fs[n].workers[w].phase.Claiming? || (
      fs[n].workers[w].phase.token in fs[n].q.marked && id in fs[n].q.marked[fs[n].workers[w].phase.token])
    ensures InHand(fs, steps, n, w, id)
    decreases n
  {
    hide FleetRun, FleetInv, SpawnsJob, NeverSpawned, SpawnedOnce;
    RunLength(fs, steps);
    FleetRunKeepsInv(fs, steps, n);
    var phase := fs[n].workers[w].phase;
    if phase.Claiming? {
      ClaimingIsUnmarked(fs[n], w);
      UnmarkedIsUnspawned(fs, steps, n, phase.token, id);
    } else {
      StartsWaiting(fs, steps, n, w);
      WorkerStep(fs, steps, n - 1, w);
      var was := fs[n - 1].workers[w].phase;
      FleetRunKeepsInv(fs, steps, n - 1);
      WorkerIsMarked(fs[n - 1], w);
      if !was.Claiming? {
        MarksStay(fs, steps, n - 1, n, phase.token);
      }
      ClaimedIsInHand(fs, steps, n - 1, w, id);
      if steps[n - 1] == Spawns(w) {
        SpawnsFromBatch(fs, steps, n - 1, phase.token, id);
        BatchIsDistinct(fs[n - 1], w);
        if was.batch[0] == id {
          OnceNow(fs, steps, n - 1, phase.token, id);
        } else {
          NeverMore(fs, steps, n - 1, phase.token, id);
        }
      } else {
        OthersSpawnElse(fs, steps, n - 1, w, id);
        NeverMore(fs, steps, n - 1, phase.token, id);
        if steps[n - 1].Selects? && steps[n - 1].w == w {
          SelectReturnsMarked(fs, steps, n - 1);
        }
      }
    }
  }

  lemma StartsWaiting(fs: seq<Fleet>, steps: seq<FleetStep>, n: nat, w: nat)
    requires FleetRun(fs, steps) && Start(fs[0]) && n < |fs| && w < |fs[n].workers|
    requires HasToken(fs[n].workers[w].phase)
    ensures n > 0
  {}

  lemma WorkerIsMarked(f: Fleet, w: nat)
    requires FleetInv(f) && w < |f.workers|
    ensures f.workers[w].phase.Marked? || f.workers[w].phase.Dispatching? ==> f.workers[w].phase.token in f.q.marked
  {
    assert WorkerOk(f, f.workers[w].phase);
  }

  lemma BatchIsDistinct(f: Fleet, w: nat)
    requires FleetInv(f) && w < |f.workers| && f.workers[w].phase.Dispatching? && f.workers[w].phase.batch != []
    ensures forall id :: id in f.workers[w].phase.batch <==>
      id == f.workers[w].phase.batch[0] || id in f.workers[w].phase.batch[1..]
    ensures f.workers[w].phase.batch[0] !in f.workers[w].phase.batch[1..]
  {
    var batch := f.workers[w].phase.batch;
    assert WorkerOk(f, f.workers[w].phase);
    assert batch == [batch[0]] + batch[1..];
  }

  /**
   When a worker polls again, each row its claim marked has been handed to
   exactly one task, by this worker, and no other job has been under this claim.
   */
  lemma EveryJobIsSpawned(fs: seq<Fleet>, steps: seq<FleetStep>, n: nat, id: JobId)
    requires FleetRun(fs, steps) && Start(fs[0]) && n < |steps| && steps[n].PollsAgain?
    ensures var token := fs[n].workers[steps[n].w].phase.token;
      && token in fs[n].q.marked
      && (id in fs[n].q.marked[token] ==> SpawnedOnce(fs, steps, n, steps[n].w, token, id))
      && (id !in fs[n].q.marked[token] ==> NeverSpawned(fs, steps, n, token, id))
  {
    hide FleetInv, Inv, SpawnsJob;
    var w := steps[n].w;
    FleetRunKeepsInv(fs, steps, n);
    assert Allowed(fs[n], steps[n]);
    WorkerIsMarked(fs[n], w);
    var token := fs[n].workers[w].phase.token;
    if id in fs[n].q.marked[token] {
      ClaimedIsInHand(fs, steps, n, w, id);
    } else {
      forall k | 0 <= k < n ensures !SpawnsJob(fs, steps, k, token, id) {
        SpawnsFromBatch(fs, steps, k, token, id);
        if SpawnsJob(fs, steps, k, token, id) {
          MarksStay(fs, steps, k, n, token);
        }
      }
    }
  }

  // ----- Starts are counted, and statements do what they say -----

  /** How many of the first `n` steps started a task for the job, under any claim. */
  ghost function SpawnCount(fs: seq<Fleet>, steps: seq<FleetStep>, n: nat, id: JobId): nat
    requires FleetRun(fs, steps) && n < |fs|
  {
    if n == 0 then 0
    else SpawnCount(fs, steps, n - 1, id) + (if StartsTask(fs[n - 1], steps[n - 1], fs[n], id) then 1 else 0)
  }

  predicate StartsTask(f: Fleet, step: FleetStep, next: Fleet, id: JobId) {
    step.Spawns? && f.nextTask in next.tasks && next.tasks[f.nextTask].id == id
  }

  /** The count of starts is the number of tasks that were started. */
  lemma {:induction false} StartsAreSpawns(fs: seq<Fleet>, steps: seq<FleetStep>, n: nat, id: JobId)
    requires FleetRun(fs, steps) && Start(fs[0]) && n < |fs|
    ensures Started(fs[n], id) == SpawnCount(fs, steps, n, id)
  {
    hide FleetInv, Inv, Enabled, Apply;
    if n == 0 {
    } else {
      StartsAreSpawns(fs, steps, n - 1, id);
      assert Allowed(fs[n - 1], steps[n - 1]) && fs[n] == Next(fs[n - 1], steps[n - 1]);
    }
  }

  /** A claim's UPDATE takes at most `batchSize` waiting rows whose time has come, and locks them. */
  lemma ClaimIsRecorded(fs: seq<Fleet>, steps: seq<FleetStep>, n: nat)
    requires FleetRun(fs, steps) && n < |steps| && steps[n].Updates?
    ensures steps[n].w < |fs[n].workers| && fs[n].workers[steps[n].w].phase.Claiming?
    ensures var worker, was, now := fs[n].workers[steps[n].w], fs[n].q, fs[n + 1].q;
      && |steps[n].ids| <= worker.batchSize && steps[n].stamp <= was.clock
      && (forall id :: id in steps[n].ids ==>
            id in was.jobs && was.jobs[id].status in {Pending, Scheduled} && was.jobs[id].runAt <= steps[n].stamp)
      && Claimed(was, worker.phase.token, steps[n].stamp, steps[n].ids, now)
      && now.marked == was.marked[worker.phase.token := steps[n].ids]
  {
    assert Allowed(fs[n], steps[n]);
  }

  /** A reported success completes the row, a reported failure counts on it; no other row changes. */
  lemma ReportIsRecorded(fs: seq<Fleet>, steps: seq<FleetStep>, n: nat)
    requires FleetRun(fs, steps) && Start(fs[0]) && n < |steps| && (steps[n].Completes? || steps[n].FailUpdates?)
    ensures steps[n].t in fs[n].tasks && fs[n].tasks[steps[n].t].id in fs[n].q.jobs
    ensures var id, was, now := fs[n].tasks[steps[n].t].id, fs[n].q, fs[n + 1].q;
      && id in now.jobs && now == was.(jobs := was.jobs[id := now.jobs[id]])
      && (steps[n].Completes? ==> CompletedIn(was, id, now))
      && (steps[n].FailUpdates? ==> FailedOnce(was.jobs[id], now.jobs[id], steps[n].failStamp, steps[n].error))
  {
    hide Inv, AfterFailure, FailedOnce;
    FleetRunKeepsInv(fs, steps, n);
    ReportsMeetTheirClaim(fs, steps, n);
    assert Allowed(fs[n], steps[n]);
    var task := fs[n].tasks[steps[n].t];
    assert TaskOk(fs[n], task);
    if steps[n].FailUpdates? {
      ReadingAgrees(fs[n].q, task.phase.seen);
      AfterFailureIs(fs[n].q.jobs[task.id], task.phase.seen, steps[n].failStamp, steps[n].error);
    }
  }

  lemma ReadingAgrees(q: Queue, seen: Seen)
    requires Inv(q) && seen in q.readings && StillLocked(q, seen)
    ensures seen.attempts == q.jobs[seen.id].attempts && seen.maxRetries == q.jobs[seen.id].maxRetries
  {}

  // ----- A worker is never stuck -----

  /** A step that takes no new job: somebody's time passes, a task goes on, or a job in hand is spawned. */
  predicate Winding(step: FleetStep, w: nat) {
    || step == Spawns(w) || step == PollsAgain(w) || (step.Outside? && step.step.Tick?)
    || step.Completes? || step.FailUpdates? || step.Releases?
  }

  ghost predicate WindsTo(f: Fleet, w: nat, g: Fleet) {
    exists fs, steps ::
      && FleetRun(fs, steps) && fs[0] == f && fs[|steps|] == g
      && forall step :: step in steps ==> Winding(step, w)
  }

  lemma WindsNowhere(f: Fleet, w: nat)
    ensures WindsTo(f, w, f)
  {
    assert FleetRun([f], []);
  }

  lemma WindsByStep(f: Fleet, w: nat, step: FleetStep)
    requires Allowed(f, step) && Winding(step, w)
    ensures WindsTo(f, w, Next(f, step))
  {
    assert FleetRun([f, Next(f, step)], [step]);
  }

  lemma WindsOn(f: Fleet, w: nat, g: Fleet, h: Fleet)
    requires WindsTo(f, w, g) && WindsTo(g, w, h)
    ensures WindsTo(f, w, h)
  {
    hide Allowed, Next, Winding;
    var fs, steps :|
      && FleetRun(fs, steps) && fs[0] == f && fs[|steps|] == g
      && forall step :: step in steps ==> Winding(step, w);
    var gs, more :|
      && FleetRun(gs, more) && gs[0] == g && gs[|more|] == h
      && forall step :: step in more ==> Winding(step, w);
    var all, both := fs + gs[1..], steps + more;
    forall i | 0 <= i < |both| ensures Allowed(all[i], both[i]) && all[i + 1] == Next(all[i], both[i]) {
      assert i >= |steps| ==> all[i] == gs[i - |steps|] && both[i] == more[i - |steps|];
    }
    assert FleetRun(all, both);
  }

  /** A task can always bring its report to an end. */
  lemma Reports(f: Fleet, w: nat, t: nat) returns (next: Fleet)
    requires FleetInv(f) && t in f.tasks
    ensures WindsTo(f, w, next) && FleetInv(next) && next.workers == f.workers
    ensures next.tasks == f.tasks[t := f.tasks[t].(phase := Reported)]
  {
    hide FleetInv, Inv, WindsTo, AfterFailure;
    var task := f.tasks[t];
    match task.phase
    case Reported =>
      WindsNowhere(f, w);
      next := f;
    case Handling =>
      WindsByStep(f, w, Completes(t));
      FleetStepKeepsInv(f, Completes(t));
      next := Next(f, Completes(t));
    case Failing(seen) =>
      var to := if f.q.clock < seen.readAt then seen.readAt else f.q.clock;
      var tick := Outside(Tick(to));
      WindsByStep(f, w, tick);
      FleetStepKeepsInv(f, tick);
      var later := Next(f, tick);
      TaskHasRead(f, t);
      var fails := FailUpdates(t, to, "");
      WindsByStep(later, w, fails);
      FleetStepKeepsInv(later, fails);
      next := Next(later, fails);
      WindsOn(f, w, later, next);
  }

  lemma TaskHasRead(f: Fleet, t: nat)
    requires FleetInv(f) && t in f.tasks && f.tasks[t].phase.Failing?
    ensures f.tasks[t].phase.seen in f.q.readings
  {
    assert TaskOk(f, f.tasks[t]);
  }

  /** Dropping a permit makes room for one more task. */
  lemma Frees(f: Fleet, w: nat, t: nat) returns (next: Fleet)
    requires FleetInv(f) && t in TasksOf(f, w)
    ensures WindsTo(f, w, next) && FleetInv(next) && next.workers == f.workers
    ensures |TasksOf(next, w)| < |TasksOf(f, w)|
  {
    hide FleetInv, WindsTo, NextQueue, Statement;
    var done := Reports(f, w, t);
    WindsByStep(done, w, Releases(t));
    FleetStepKeepsInv(done, Releases(t));
    next := Next(done, Releases(t));
    WindsOn(f, w, done, next);
    assert TasksOf(f, w) == TasksOf(next, w) + {t};
  }

  /** A worker with a permit at all can hand out the rest of its batch and poll again. */
  lemma {:induction false} Drains(f: Fleet, w: nat) returns (g: Fleet)
    requires FleetInv(f) && w < |f.workers| && f.workers[w].phase.Dispatching?
    requires f.workers[w].phase.batch == [] || f.workers[w].concurrency >= 1
    ensures WindsTo(f, w, g) && w < |g.workers| && g.workers[w].phase == Waiting
    decreases |f.workers[w].phase.batch|, |TasksOf(f, w)|
  {
    hide FleetInv, WindsTo, NextQueue, NextTasks, Statement, TasksOf;
    var next;
    if f.workers[w].phase.batch == [] {
      WindsByStep(f, w, PollsAgain(w));
      g := Next(f, PollsAgain(w));
      return;
    } else if |TasksOf(f, w)| < f.workers[w].concurrency {
      WindsByStep(f, w, Spawns(w));
      FleetStepKeepsInv(f, Spawns(w));
      next := Next(f, Spawns(w));
    } else {
      var t := Member(TasksOf(f, w));
      next := Frees(f, w, t);
    }
    g := Drains(next, w);
    WindsOn(f, w, next, g);
  }

  /** Without a permit, a worker with a batch in hand never polls again, whatever the steps. */
  lemma {:induction false} NoPermitNoPoll(fs: seq<Fleet>, steps: seq<FleetStep>, n: nat, w: nat)
    requires FleetRun(fs, steps) && n < |fs| && w < |fs[0].workers| && fs[0].workers[w].concurrency == 0
    requires fs[0].workers[w].phase.Dispatching? && fs[0].workers[w].phase.batch != []
    ensures w < |fs[n].workers| && fs[n].workers[w].concurrency == 0
    ensures fs[n].workers[w].phase == Stopped || fs[n].workers[w].phase == fs[0].workers[w].phase
  {
    if n == 0 {
    } else {
      NoPermitNoPoll(fs, steps, n - 1, w);
      hide Enabled, Apply, NextQueue, NextTasks;
      assert Allowed(fs[n - 1], steps[n - 1]);
    }
  }

  /**
   A worker that has claimed a batch can get back to polling, without anybody
   claiming a job or giving up, exactly if it has nothing to hand out or
   `concurrency` is not zero.
   */
  lemma NeverStuck(f: Fleet, w: nat)
    requires FleetInv(f) && w < |f.workers| && f.workers[w].phase.Dispatching?
    ensures (exists g :: WindsTo(f, w, g) && w < |g.workers| && g.workers[w].phase == Waiting) <==>
      f.workers[w].phase.batch == [] || f.workers[w].concurrency >= 1
  {
    hide FleetInv;
    if f.workers[w].phase.batch == [] || f.workers[w].concurrency >= 1 {
      var g := Drains(f, w);
    }
    if g :| WindsTo(f, w, g) && w < |g.workers| && g.workers[w].phase == Waiting {
      var fs, steps :|
        && FleetRun(fs, steps) && fs[0] == f && fs[|steps|] == g
        && forall step :: step in steps ==> Winding(step, w);
      RunLength(fs, steps);
      if f.workers[w].phase.batch != [] && f.workers[w].concurrency == 0 {
        NoPermitNoPoll(fs, steps, |steps|, w);
      }
    }
  }
}
