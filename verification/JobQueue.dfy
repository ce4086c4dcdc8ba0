/**
 The job table and its SQL statements, each one atomic step, interleaved by
 callers that may do anything: claim, complete and fail any job at any time.
 */
module JobQueue {
  import opened Wrappers
  import opened Integers
  import opened Backoff

  type JobId = int

  /** The `n`-th value a process's claim counter has handed out. */
  datatype Token = Token(process: nat, n: nat)

  datatype JobStatus = Pending | Running | Completed | Failed | Scheduled

  /**
   A row of the job table. The last two fields are history, not columns: how
   often the job was claimed, and when it first failed.
   */
  datatype Job = Job(
    status: JobStatus,
    attempts: nat,
    maxRetries: nat,
    runAt: int,
    lockedBy: Option<Token>,
    lockedAt: Option<int>,
    lastError: Option<string>,
    claims: nat,
    firstFailure: Option<int>)

  /** What a `fail` call read before it updates. */
  datatype Seen = Seen(id: JobId, attempts: nat, maxRetries: nat, lockedBy: Option<Token>, readAt: int)

  /**
   `unused` are the tokens taken by claims whose UPDATE has not run yet;
   `marked` remembers what each token's UPDATE marked and `readings` what `fail`
   calls have read.
   */
  datatype Queue = Queue(
    jobs: map<JobId, Job>,
    nextId: JobId,
    counters: map<nat, nat>,
    unused: set<Token>,
    marked: map<Token, set<JobId>>,
    readings: set<Seen>,
    clock: int)

  // ----- The statements -----

  function Counter(q: Queue, process: nat): nat {
    if process in q.counters then q.counters[process] else 0
  }

  predicate IsDue(job: Job, stamp: int) {
    (job.status == Pending || job.status == Scheduled) && job.runAt <= stamp
  }

  /**
   The rows a claim may mark. A backend that skips locked rows need not take
   the earliest ones.
   */
  predicate Claimable(q: Queue, stamp: int, limit: nat, ids: set<JobId>) {
    |ids| <= limit && forall id :: id in ids ==> id in q.jobs && IsDue(q.jobs[id], stamp)
  }

  function Locked(job: Job, token: Token, stamp: int): Job {
    job.(status := Running, lockedBy := Some(token), lockedAt := Some(stamp), claims := job.claims + 1)
  }

  /** `UPDATE ... SET status = 'running', locked_by = ?` */
  function MarkClaimed(q: Queue, token: Token, stamp: int, ids: set<JobId>): Queue {
    q.(jobs := map id | id in q.jobs :: if id in ids then Locked(q.jobs[id], token, stamp) else q.jobs[id],
       unused := q.unused - {token},
       marked := q.marked[token := ids])
  }

  /** `SELECT ... WHERE locked_by = ? AND status = 'running'` */
  function HeldBy(q: Queue, token: Token): set<JobId> {
    set id | id in q.jobs && q.jobs[id].lockedBy == Some(token) && q.jobs[id].status == Running
  }

  /** Whether `ids` lists `all`, once each. */
  ghost predicate ListsOnce(all: set<JobId>, ids: seq<JobId>) {
    && (forall id :: id in ids <==> id in all)
    && (forall i, j :: 0 <= i < j < |ids| ==> ids[i] != ids[j])
  }

  function WithJob(q: Queue, id: JobId, job: Job): Queue {
    q.(jobs := q.jobs[id := job])
  }

  /** `UPDATE ... SET status = 'completed', locked_by = NULL WHERE id = ?` */
  function MarkCompleted(q: Queue, id: JobId): Queue {
    if id in q.jobs then WithJob(q, id, q.jobs[id].(status := Completed, lockedBy := None, lockedAt := None)) else q
  }

  /** The row after a recorded failure: another try after a delay, or the end. */
  function AfterFailure(job: Job, seen: Seen, stamp: int, error: string): Job {
    var attempts := seen.attempts + 1;
    var failed := job.(attempts := attempts, lastError := Some(error), lockedBy := None, lockedAt := None,
      firstFailure := if job.firstFailure.Some? then job.firstFailure else Some(stamp));
    if attempts <= seen.maxRetries
    then failed.(status := Pending, runAt := stamp + DelayIn(attempts, U64_MAX))
    else failed.(status := Failed)
  }

  /** Whether `WHERE id = ? AND locked_by = ?` finds the row; NULL equals nothing. */
  predicate StillLocked(q: Queue, seen: Seen) {
    seen.id in q.jobs && seen.lockedBy.Some? && q.jobs[seen.id].lockedBy == seen.lockedBy
  }

  function MarkFailed(q: Queue, seen: Seen, stamp: int, error: string): Queue {
    if StillLocked(q, seen) then WithJob(q, seen.id, AfterFailure(q.jobs[seen.id], seen, stamp, error)) else q
  }

  function NewJob(maxRetries: nat, runAt: int, stamp: int): Job {
    Job(if runAt > stamp then Scheduled else Pending, 0, maxRetries, runAt, None, None, None, 0, None)
  }

  function ReadOf(q: Queue, id: JobId): Seen
    requires id in q.jobs
  {
    var job := q.jobs[id];
    Seen(id, job.attempts, job.maxRetries, job.lockedBy, q.clock)
  }

  // ----- Steps of any callers, interleaved -----

  datatype Step =
    | Tick(to: int)
    | Push(maxRetries: nat, runAt: int, pushStamp: int)
    | TakeToken(process: nat)
    | ClaimUpdate(token: Token, claimStamp: int, limit: nat, ids: set<JobId>)
    | Complete(id: JobId)
    | FailSelect(failId: JobId)
    | FailUpdate(seen: Seen, failStamp: int, error: string)

  /**
   When a step can happen. Stamps are clock readings taken at or before the
   statement; the one that schedules a retry is taken after the row was read.
   */
  predicate Enabled(q: Queue, step: Step) {
    match step
    case Tick(to) => q.clock <= to
    case Push(_, _, stamp) => stamp <= q.clock
    case TakeToken(_) => true
    case ClaimUpdate(token, stamp, limit, ids) =>
      token in q.unused && stamp <= q.clock && Claimable(q, stamp, limit, ids)
    case Complete(_) => true
    case FailSelect(id) => id in q.jobs && q.jobs[id].status == Running
    case FailUpdate(seen, stamp, _) => seen in q.readings && seen.readAt <= stamp <= q.clock
  }

  function Apply(q: Queue, step: Step): Queue
    requires Enabled(q, step)
  {
    match step
    case Tick(to) => q.(clock := to)
    case Push(maxRetries, runAt, stamp) =>
      q.(jobs := q.jobs[q.nextId := NewJob(maxRetries, runAt, stamp)], nextId := q.nextId + 1)
    case TakeToken(process) =>
      var n := Counter(q, process);
      q.(counters := q.counters[process := n + 1], unused := q.unused + {Token(process, n)})
    case ClaimUpdate(token, stamp, limit, ids) => MarkClaimed(q, token, stamp, ids)
    case Complete(id) => MarkCompleted(q, id)
    case FailSelect(id) => q.(readings := q.readings + {ReadOf(q, id)})
    case FailUpdate(seen, stamp, error) => MarkFailed(q, seen, stamp, error)
  }

  // ----- What the statements do, outright -----

  /** What a claim's UPDATE makes of the table: the chosen rows run, locked, and nothing else changes. */
  ghost predicate Claimed(q: Queue, token: Token, stamp: int, chosen: set<JobId>, r: Queue) {
    && r.jobs.Keys == q.jobs.Keys
    && (forall id :: id in q.jobs && id !in chosen ==> r.jobs[id] == q.jobs[id])
    && (forall id :: id in q.jobs && id in chosen ==>
          var was := q.jobs[id];
          r.jobs[id] == Job(Running, was.attempts, was.maxRetries, was.runAt, Some(token), Some(stamp), was.lastError,
                            was.claims + 1, was.firstFailure))
  }

  /** `q` becomes `r` by completing one row: unlocked, everything else as it was. */
  ghost predicate CompletedIn(q: Queue, id: JobId, r: Queue)
    requires id in q.jobs
  {
    var was := q.jobs[id];
    r == q.(jobs := q.jobs[id := Job(Completed, was.attempts, was.maxRetries, was.runAt, None, None, was.lastError,
                                     was.claims, was.firstFailure)])
  }

  /** The `n`-th failure of a row: due again after the `n`-th delay, or failed for good. */
  ghost predicate FailedOnce(was: Job, now: Job, stamp: int, error: string) {
    var n := was.attempts + 1;
    && now.attempts == n && now.lastError == Some(error) && now.lockedBy == None && now.lockedAt == None
    && now.maxRetries == was.maxRetries && now.claims == was.claims
    && now.firstFailure == (if was.firstFailure.Some? then was.firstFailure else Some(stamp))
    && (n <= was.maxRetries ==>
          now.status == Pending && now.runAt == stamp + if n <= 6 then Pow2(n - 1) else 60)
    && (n > was.maxRetries ==> now.status == Failed && now.runAt == was.runAt)
  }

  lemma AfterFailureIs(was: Job, seen: Seen, stamp: int, error: string)
    requires seen.attempts == was.attempts && seen.maxRetries == was.maxRetries
    ensures FailedOnce(was, AfterFailure(was, seen, stamp, error), stamp, error)
  {
    BackendsAgree(was.attempts + 1);
    DelayIs(was.attempts + 1);
  }

  // ----- The invariant -----

  /** A row is locked exactly while it runs, and its counts fit its status. */
  predicate JobOk(job: Job) {
    && (job.status == Running <==> job.lockedBy.Some?)
    && (job.lockedBy.Some? <==> job.lockedAt.Some?)
    && job.attempts <= job.claims <= job.maxRetries + 1
    && (job.status == Pending || job.status == Scheduled ==> job.claims == job.attempts <= job.maxRetries)
    && (job.status == Running ==> job.claims == job.attempts + 1)
    && (job.status == Failed ==> job.claims == job.attempts == job.maxRetries + 1)
  }

  /** After `n` failures the job neither waits nor runs earlier than all delays allow. */
  predicate DelayOk(job: Job) {
    && (job.attempts >= 1 <==> job.firstFailure.Some?)
    && (job.attempts >= 1 && (job.status == Pending || job.status == Scheduled || job.status == Running) ==>
          job.firstFailure.value + TotalDelay(job.attempts) <= job.runAt)
  }

  predicate RunOk(job: Job, clock: int) {
    job.status == Running && job.lockedAt.Some? ==> job.runAt <= job.lockedAt.value <= clock
  }

  predicate Issued(q: Queue, token: Token) {
    token.n < Counter(q, token.process) && token !in q.unused
  }

  ghost predicate Inv(q: Queue) {
    && (forall id :: id in q.jobs ==>
          && id < q.nextId
          && JobOk(q.jobs[id]) && DelayOk(q.jobs[id]) && RunOk(q.jobs[id], q.clock)
          && (q.jobs[id].lockedBy.Some? ==>
                && Issued(q, q.jobs[id].lockedBy.value)
                && q.jobs[id].lockedBy.value in q.marked
                && id in q.marked[q.jobs[id].lockedBy.value]))
    && (forall t :: t in q.unused ==> t.n < Counter(q, t.process) && t !in q.marked)
    && (forall t :: t in q.marked ==> Issued(q, t))
    && (forall seen :: seen in q.readings ==>
          && seen.lockedBy.Some? && Issued(q, seen.lockedBy.value)
          && (StillLocked(q, seen) ==> ReadAgrees(q.jobs[seen.id], seen)))
  }

  /** The row still is what the read saw. */
  predicate ReadAgrees(job: Job, seen: Seen) {
    && job.attempts == seen.attempts && job.maxRetries == seen.maxRetries
    && job.lockedAt.Some? && job.lockedAt.value <= seen.readAt
  }

  /** Nothing in flight and no running rows; the rows' counts fit their status. */
  ghost predicate Settled(q: Queue) {
    && q.unused == {} && q.marked == map[] && q.readings == {}
    && forall id :: id in q.jobs ==>
         id < q.nextId && q.jobs[id].status != Running && JobOk(q.jobs[id]) && DelayOk(q.jobs[id])
  }

  lemma SettledInv(q: Queue)
    requires Settled(q)
    ensures Inv(q)
  {}

  lemma ClaimKeepsInv(q: Queue, token: Token, stamp: int, limit: nat, ids: set<JobId>)
    requires Inv(q) && Enabled(q, ClaimUpdate(token, stamp, limit, ids))
    ensures Inv(MarkClaimed(q, token, stamp, ids))
  {
    var r := MarkClaimed(q, token, stamp, ids);
    forall t | Issued(q, t) ensures Issued(r, t) && t != token {}
    forall seen | seen in r.readings && StillLocked(r, seen)
      ensures StillLocked(q, seen) && r.jobs[seen.id] == q.jobs[seen.id]
    {
      assert seen.lockedBy.value != token;
    }
  }

  lemma FailKeepsInv(q: Queue, seen: Seen, stamp: int, error: string)
    requires Inv(q) && Enabled(q, FailUpdate(seen, stamp, error))
    ensures Inv(MarkFailed(q, seen, stamp, error))
  {
    var r := MarkFailed(q, seen, stamp, error);
    if StillLocked(q, seen) {
      var job := q.jobs[seen.id];
      assert ReadAgrees(job, seen) && JobOk(job) && DelayOk(job) && RunOk(job, q.clock);
      var done := AfterFailure(job, seen, stamp, error);
      BackendsAgree(done.attempts);
      assert TotalDelay(done.attempts) == TotalDelay(job.attempts) + Delay(done.attempts);
      assert job.attempts == 0 ==> TotalDelay(job.attempts) == 0;
      assert job.status == Running;
      assert job.runAt <= job.lockedAt.value <= stamp;
      assert JobOk(done) && RunOk(done, q.clock);
      FirstFailureKept(job, seen, stamp, error);
    }
  }

  lemma FirstFailureKept(job: Job, seen: Seen, stamp: int, error: string)
    requires JobOk(job) && DelayOk(job) && seen.attempts == job.attempts && job.status == Running
    requires job.runAt <= stamp
    ensures DelayOk(AfterFailure(job, seen, stamp, error))
  {
    BackendsAgree(job.attempts + 1);
  }

  lemma TakeTokenKeepsInv(q: Queue, process: nat)
    requires Inv(q)
    ensures Inv(Apply(q, TakeToken(process)))
  {}

  lemma CompleteKeepsInv(q: Queue, id: JobId)
    requires Inv(q)
    ensures Inv(MarkCompleted(q, id))
  {}

  /** Every step of every caller keeps the invariant. */
  lemma StepKeepsInv(q: Queue, step: Step)
    requires Inv(q) && Enabled(q, step)
    ensures Inv(Apply(q, step))
  {
    match step
    case TakeToken(process) => TakeTokenKeepsInv(q, process);
    case ClaimUpdate(token, stamp, limit, ids) => ClaimKeepsInv(q, token, stamp, limit, ids);
    case FailUpdate(seen, stamp, error) => FailKeepsInv(q, seen, stamp, error);
    case Complete(id) => CompleteKeepsInv(q, id);
    case _ =>
  }

  // ----- Runs -----

  /** `qs` are the queues between the steps `steps`. */
  ghost predicate Run(qs: seq<Queue>, steps: seq<Step>) {
    && |qs| == |steps| + 1
    && forall i :: 0 <= i < |steps| ==> Enabled(qs[i], steps[i]) && qs[i + 1] == Apply(qs[i], steps[i])
  }

  lemma {:induction false} RunKeepsInv(qs: seq<Queue>, steps: seq<Step>, n: nat)
    requires Run(qs, steps) && Inv(qs[0]) && n < |qs|
    ensures Inv(qs[n])
  {
    hide Inv, Enabled, Apply;
    if n == 0 {
    } else {
      RunKeepsInv(qs, steps, n - 1);
      StepKeepsInv(qs[n - 1], steps[n - 1]);
    }
  }

  /**
   In every run from a table without running rows: a row runs exactly while it is locked, no
   job is claimed more than `maxRetries + 1` times, `attempts` counts at most
   one failure per claim, and the claim after `n` failures comes no earlier
   than all `n` delays after the first failure.
   */
  lemma EveryRun(qs: seq<Queue>, steps: seq<Step>, n: nat, id: JobId)
    requires Run(qs, steps) && Settled(qs[0]) && n < |qs| && id in qs[n].jobs
    ensures var job := qs[n].jobs[id];
      && (job.status == Running <==> job.lockedBy.Some?)
      && job.attempts <= job.claims <= job.maxRetries + 1
      && (job.status == Running && job.attempts >= 1 ==>
            && job.firstFailure.Some? && job.lockedAt.Some?
            && job.lockedAt.value - job.firstFailure.value >=
               if job.attempts <= 6 then Pow2(job.attempts) - 1 else 63 + 60 * (job.attempts - 6))
  {
    SettledInv(qs[0]);
    RunKeepsInv(qs, steps, n);
    TotalDelayIs(qs[n].jobs[id].attempts);
  }

  lemma StepKeepsCompleted(q: Queue, step: Step, id: JobId)
    requires Inv(q) && Enabled(q, step) && id in q.jobs && q.jobs[id].status == Completed
    ensures id in Apply(q, step).jobs && Apply(q, step).jobs[id].status == Completed
  {}

  /** A completed job stays completed, whatever callers do. */
  lemma {:induction false} CompletedForever(qs: seq<Queue>, steps: seq<Step>, i: nat, j: nat, id: JobId)
    requires Run(qs, steps) && Inv(qs[0]) && i <= j < |qs|
    requires id in qs[i].jobs && qs[i].jobs[id].status == Completed
    ensures id in qs[j].jobs && qs[j].jobs[id].status == Completed
  {
    hide Inv, Enabled, Apply;
    if i < j {
      CompletedForever(qs, steps, i, j - 1, id);
      RunKeepsInv(qs, steps, j - 1);
      StepKeepsCompleted(qs[j - 1], steps[j - 1], id);
    }
  }

  /** A row locked by one token before and after a step was not touched by it. */
  lemma SameLockSameRow(q: Queue, step: Step, id: JobId, token: Token)
    requires Inv(q) && Enabled(q, step) && id in q.jobs
    requires id in Apply(q, step).jobs && Apply(q, step).jobs[id].lockedBy == Some(token) && Issued(q, token)
    ensures q.jobs[id] == Apply(q, step).jobs[id]
  {}

  lemma StepKeepsIssued(q: Queue, step: Step, token: Token)
    requires Inv(q) && Enabled(q, step) && Issued(q, token)
    ensures Issued(Apply(q, step), token)
  {}

  lemma StepKeepsRows(q: Queue, step: Step, id: JobId)
    requires Enabled(q, step) && id in q.jobs
    ensures id in Apply(q, step).jobs
  {}

  /**
   No ABA: a row that is locked by the same token at two moments was that very
   row at every moment between, untouched, because a token is never used twice.
   */
  lemma {:induction false} SameLockUntouched(qs: seq<Queue>, steps: seq<Step>, i: nat, k: nat, j: nat, id: JobId,
      token: Token)
    requires Run(qs, steps) && Inv(qs[0]) && i <= k <= j < |qs|
    requires id in qs[i].jobs && Issued(qs[i], token)
    requires id in qs[j].jobs && qs[j].jobs[id].lockedBy == Some(token)
    ensures id in qs[k].jobs && qs[k].jobs[id] == qs[j].jobs[id]
    ensures Issued(qs[k], token)
    decreases j - i
  {
    hide Inv, Enabled, Apply;
    if i < k {
      RunKeepsInv(qs, steps, i);
      StepKeepsIssued(qs[i], steps[i], token);
      StepKeepsRows(qs[i], steps[i], id);
      SameLockUntouched(qs, steps, i + 1, k, j, id, token);
    } else if i < j {
      RunKeepsInv(qs, steps, i);
      StepKeepsIssued(qs[i], steps[i], token);
      StepKeepsRows(qs[i], steps[i], id);
      SameLockUntouched(qs, steps, i + 1, i + 1, j, id, token);
      SameLockSameRow(qs[i], steps[i], id, token);
    }
  }

  /**
   The guarded UPDATE of a `fail` call that read at `i` and updates at `j`
   takes effect exactly when the row has not changed in between: no failure is
   recorded on top of another claim, and none is lost.
   */
  lemma FailUpdateIsExact(qs: seq<Queue>, steps: seq<Step>, i: nat, j: nat, id: JobId)
    requires Run(qs, steps) && Inv(qs[0]) && i < j < |qs|
    requires i < |steps| && steps[i] == FailSelect(id)
    ensures StillLocked(qs[j], ReadOf(qs[i], id)) <==> id in qs[j].jobs && qs[j].jobs[id] == qs[i].jobs[id]
    ensures StillLocked(qs[j], ReadOf(qs[i], id)) ==>
      forall k :: i <= k <= j ==> id in qs[k].jobs && qs[k].jobs[id] == qs[i].jobs[id]
  {
    RunKeepsInv(qs, steps, i);
    var seen := ReadOf(qs[i], id);
    assert JobOk(qs[i].jobs[id]);
    var token := seen.lockedBy.value;
    if StillLocked(qs[j], seen) {
      forall k | i <= k <= j ensures id in qs[k].jobs && qs[k].jobs[id] == qs[i].jobs[id] {
        SameLockUntouched(qs, steps, i, k, j, id, token);
        SameLockUntouched(qs, steps, i, i, j, id, token);
      }
    }
  }

  /**
   Whoever interferes between a claim's UPDATE and its SELECT, the SELECT
   returns only rows that this UPDATE marked.
   */
  lemma SelectIsOwn(q: Queue, token: Token)
    requires Inv(q) && token in q.marked
    ensures HeldBy(q, token) <= q.marked[token]
  {
    forall id | id in HeldBy(q, token) ensures id in q.marked[token] {
      assert q.jobs[id].lockedBy == Some(token);
    }
  }

  lemma RunConcat(qs: seq<Queue>, steps: seq<Step>, more: seq<Queue>, moreSteps: seq<Step>)
    requires Run(qs, steps) && Run(more, moreSteps) && more[0] == qs[|qs| - 1]
    ensures Run(qs + more[1..], steps + moreSteps)
    ensures (qs + more[1..])[0] == qs[0]
    ensures (qs + more[1..])[|qs| + |more| - 2] == more[|more| - 1]
  {}

  lemma RunNone(q: Queue)
    ensures Run([q], [])
  {}

  lemma RunOne(q: Queue, step: Step)
    requires Enabled(q, step)
    ensures Run([q, Apply(q, step)], [step])
  {}
}
