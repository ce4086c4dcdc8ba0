/**
 The store calls as the workers make them: one to three SQL statements each,
 with any steps of other callers between them.
 */
module JobStores {
  import opened Wrappers
  import opened Integers
  import opened Backoff
  import opened JobQueue
  import opened Sets

  datatype StoreError = Database | NotFound | LockStolen

  /** Whether `ids` lists `all` once each, earliest `runAt` first. */
  ghost predicate InRunOrder(q: Queue, all: set<JobId>, ids: seq<JobId>) {
    && (forall id :: id in all ==> id in q.jobs)
    && ListsOnce(all, ids)
    && (forall i, j :: 0 <= i < j < |ids| ==>
      ids[i] in q.jobs && ids[j] in q.jobs && q.jobs[ids[i]].runAt <= q.jobs[ids[j]].runAt)
  }

  function DueJobs(q: Queue, stamp: int): set<JobId> {
    set id | id in q.jobs && IsDue(q.jobs[id], stamp)
  }

  lemma {:induction false} EarliestExists(q: Queue, ids: set<JobId>) returns (first: JobId)
    requires ids != {} && forall id :: id in ids ==> id in q.jobs
    ensures first in ids && forall id :: id in ids ==> q.jobs[first].runAt <= q.jobs[id].runAt
    decreases |ids|
  {
    var one := Member(ids);
    var others := ids - {one};
    assert ids == others + {one};
    if others == {} {
      first := one;
    } else {
      var other := EarliestExists(q, others);
      first := if q.jobs[one].runAt <= q.jobs[other].runAt then one else other;
    }
  }

  /** The rows a statement returns without an ORDER BY. */
  method InAnyOrder(all: set<JobId>) returns (ids: seq<JobId>)
    ensures ListsOnce(all, ids)
  {
    ids := [];
    var rest := all;
    while rest != {}
      invariant rest <= all && ListsOnce(all - rest, ids)
      decreases |rest|
    {
      ghost var some := Member(rest);
      var id :| id in rest;
      ids := ids + [id];
      rest := rest - {id};
    }
    assert all - rest == all;
  }

  /** `ORDER BY run_at ASC`. */
  method OrderByRunAt(q: Queue, all: set<JobId>) returns (ids: seq<JobId>)
    requires forall id :: id in all ==> id in q.jobs
    ensures InRunOrder(q, all, ids)
  {
    ids := [];
    var rest := all;
    while rest != {}
      invariant rest <= all
      invariant InRunOrder(q, all - rest, ids)
      invariant forall a, b :: a in all - rest && b in rest ==> q.jobs[a].runAt <= q.jobs[b].runAt
      decreases |rest|
    {
      ghost var earliest := EarliestExists(q, rest);
      var id :| id in rest && forall other :: other in rest ==> q.jobs[id].runAt <= q.jobs[other].runAt;
      ids := ids + [id];
      rest := rest - {id};
    }
    assert all - rest == all;
  }

  /** Whether a claim at `q` takes the due rows with the earliest `runAt`, passing over the `skipped` ones. */
  ghost predicate TakesEarliest(q: Queue, stamp: int, limit: nat, skipped: set<JobId>, chosen: set<JobId>) {
    && |chosen| <= limit && chosen !! skipped
    && (forall id :: id in chosen ==>
          id in q.jobs && q.jobs[id].status in {Pending, Scheduled} && q.jobs[id].runAt <= stamp)
    && (forall id :: id in q.jobs && id !in skipped && id !in chosen ==>
          q.jobs[id].status in {Pending, Scheduled} && q.jobs[id].runAt <= stamp ==>
            |chosen| == limit && forall other :: other in chosen ==> q.jobs[other].runAt <= q.jobs[id].runAt)
  }

  /** `ORDER BY run_at ASC LIMIT ?` over the due rows, passing over the `skipped` ones. */
  method EarliestDue(q: Queue, stamp: int, limit: nat, skipped: set<JobId>)
    returns (ids: seq<JobId>, chosen: set<JobId>)
    ensures InRunOrder(q, chosen, ids) && TakesEarliest(q, stamp, limit, skipped, chosen)
  {
    var due := DueJobs(q, stamp) - skipped;
    var order := OrderByRunAt(q, due);
    ids := order[..Min(limit, |order|)];
    chosen := set id | id in ids;
    DistinctSize(ids);
    forall id | id in chosen ensures id in due && IsDue(q.jobs[id], stamp) {
      var i :| 0 <= i < |ids| && ids[i] == id;
      assert order[i] == id;
    }
    forall id | id in due - chosen
      ensures |ids| == limit && forall other :: other in chosen ==> q.jobs[other].runAt <= q.jobs[id].runAt
    {
      var i :| 0 <= i < |order| && order[i] == id;
      assert i >= |ids|;
    }
  }

  class JobStore {
    var q: Queue
    const process: nat

    /** Whether the database has reported an error. */
    ghost var faulty: bool

    constructor (q: Queue, process: nat)
      ensures this.q == q && this.process == process && !faulty
    {
      this.q := q;
      this.process := process;
      this.faulty := false;
    }

    /** The database reports an error, before or after a statement took effect. */
    method DatabaseFails() returns (fails: bool)
      modifies this`faulty
      ensures fails ==> faulty
    {
      fails := *;
      faulty := faulty || fails;
    }

    /** Any steps of other callers, who do not know the tokens `mine`. */
    method Interfere(mine: set<Token>) returns (ghost qs: seq<Queue>, ghost steps: seq<Step>)
      requires Inv(q)
      modifies this`q
      ensures Inv(q) && Run(qs, steps) && qs[0] == old(q) && qs[|qs| - 1] == q
      ensures forall step :: step in steps && step.ClaimUpdate? ==> step.token !in mine
    {
      qs, steps := [q], [];
    }

    /** One step of this caller. */
    method Perform(step: Step) returns (ghost qs: seq<Queue>, ghost steps: seq<Step>)
      requires Inv(q) && Enabled(q, step)
      modifies this`q
      ensures Inv(q) && q == Apply(old(q), step)
      ensures Run(qs, steps) && qs == [old(q), q] && steps == [step]
    {
      StepKeepsInv(q, step);
      RunOne(q, step);
      qs, steps := [q, Apply(q, step)], [step];
      q := Apply(q, step);
    }

    /** A fresh token for one claim: nobody ever held it. */
    method WorkerId() returns (token: Token, ghost qs: seq<Queue>, ghost steps: seq<Step>)
      requires Inv(q)
      modifies this`q
      ensures Inv(q) && q == Apply(old(q), TakeToken(process)) && token == Token(process, Counter(old(q), process))
      ensures token !in old(q).unused && token !in q.marked && token in q.unused && q.marked == old(q).marked
      ensures Run(qs, steps) && qs == [old(q), q] && steps == [TakeToken(process)]
    {
      token := Token(process, Counter(q, process));
      qs, steps := Perform(TakeToken(process));
    }

    /** INSERT of a waiting job; the caller learns its id. */
    method Push(maxRetries: nat, runAt: int) returns (r: Result<JobId, StoreError>)
      requires Inv(q)
      modifies this
      ensures Inv(q)
      ensures r.Ok? ==>
        && r.value !in old(q).jobs && r.value in q.jobs && q.jobs == old(q).jobs[r.value := q.jobs[r.value]]
        && q.jobs[r.value] ==
           Job(if runAt > q.clock then Scheduled else Pending, 0, maxRetries, runAt, None, None, None, 0, None)
      ensures r.Err? ==> r == Err(Database) && faulty
      ensures forall id :: id in old(q).jobs ==> id in q.jobs && q.jobs[id] == old(q).jobs[id]
    {
      var refused := DatabaseFails();
      if refused {
        return Err(Database);
      }
      var id := q.nextId;
      var qs, steps := Perform(JobQueue.Push(maxRetries, runAt, q.clock));
      var lost := DatabaseFails();
      return if lost then Err(Database) else Ok(id);
    }

    /**
     What both backends do first: take a token, read the clock, and, whatever
     others did since, in state `at` of the run, lock the earliest due rows.
     */
    method MarkEarliest(limit: nat, skipped: set<JobId>)
      returns (r: Result<Token, StoreError>, ghost token: Token, ghost at: nat, ghost qs: seq<Queue>,
          ghost steps: seq<Step>)
      requires Inv(q)
      modifies this
      ensures Inv(q) && Run(qs, steps) && qs[0] == old(q) && qs[|qs| - 1] == q
      ensures at < |qs| && token !in old(q).marked
      ensures r.Err? ==> r == Err(Database) && faulty
      ensures r.Ok? ==>
        && r.value == token && token in q.marked
        && TakesEarliest(qs[at], old(q).clock, limit, skipped, q.marked[token])
        && HeldBy(q, token) == q.marked[token]
        && at + 2 == |qs| && Claimed(qs[at], token, old(q).clock, q.marked[token], q)
    {
      hide Run, Inv, Enabled, Apply, Claimed;
      var stamp := q.clock;
      var mine, qs0, steps0 := WorkerId();
      token, at := mine, 0;
      var qs1, steps1 := Interfere({mine});
      ghost var n := |qs1| - 1;
      RunConcat(qs0, steps0, qs1, steps1);
      qs, steps := qs0 + qs1[1..], steps0 + steps1;
      TokenStaysUnused(qs1, steps1, n, mine);
      ClockGrows(qs, steps, |qs| - 1);
      var refused := DatabaseFails();
      if refused {
        return Err(Database), token, at, qs, steps;
      }

      at := |qs| - 1;
      ghost var before := q;
      var order, ids := EarliestDue(q, stamp, limit, skipped);
      ClaimIsEnabled(q, mine, stamp, limit, ids);
      var qs2, steps2 := Perform(ClaimUpdate(mine, stamp, limit, ids));
      UpdateMarks(before, mine, stamp, limit, ids, order);
      RunConcat(qs, steps, qs2, steps2);
      qs, steps := qs + qs2[1..], steps + steps2;
      assert qs[at] == before;
      return Ok(mine), token, at, qs, steps;
    }

    /**
     The single-writer backend: UPDATE, then SELECT by token. Whatever happens
     between the two, only rows this call marked are returned. An error after
     the UPDATE leaves the marked rows running.
     */
    method ClaimByTwoStatements(limit: nat)
      returns (r: Result<seq<JobId>, StoreError>, ghost token: Token, ghost at: nat, ghost qs: seq<Queue>,
          ghost steps: seq<Step>)
      requires Inv(q)
      modifies this
      ensures Inv(q) && Run(qs, steps) && qs[0] == old(q) && qs[|qs| - 1] == q
      ensures at < |qs| && token !in old(q).marked
      ensures r.Err? ==> r == Err(Database) && faulty
      ensures r.Ok? ==>
        && token in q.marked
        && TakesEarliest(qs[at], old(q).clock, limit, {}, q.marked[token])
        && at + 1 < |qs| && Claimed(qs[at], token, old(q).clock, q.marked[token], qs[at + 1])
        && InRunOrder(q, HeldBy(q, token), r.value)
        && HeldBy(q, token) <= q.marked[token]
    {
      hide Run, Inv, Claimed;
      var mine;
      mine, token, at, qs, steps := MarkEarliest(limit, {});
      if mine.Err? {
        return Err(Database), token, at, qs, steps;
      }
      ghost var before, after := qs[at], q;
      var qs1, steps1 := Interfere({});
      MarksAreKept(qs1, steps1, |qs1| - 1, token);
      RunConcat(qs, steps, qs1, steps1);
      qs, steps := qs + qs1[1..], steps + steps1;
      assert qs[at] == before && qs[at + 1] == after;
      var lost := DatabaseFails();
      if lost {
        return Err(Database), token, at, qs, steps;
      }
      var held := OrderByRunAt(q, HeldBy(q, mine.value));
      SelectIsOwn(q, mine.value);
      return Ok(held), token, at, qs, steps;
    }

    /**
     The other backend: one statement marks the earliest due rows that are not
     locked by a concurrent claim and returns them, in no particular order.
     */
    method ClaimByOneStatement(limit: nat, skipped: set<JobId>)
      returns (r: Result<seq<JobId>, StoreError>, ghost token: Token, ghost at: nat, ghost qs: seq<Queue>,
          ghost steps: seq<Step>)
      requires Inv(q)
      modifies this
      ensures Inv(q) && Run(qs, steps) && qs[0] == old(q) && qs[|qs| - 1] == q
      ensures at < |qs| && token !in old(q).marked
      ensures r.Err? ==> r == Err(Database) && faulty
      ensures r.Ok? ==>
        && token in q.marked
        && TakesEarliest(qs[at], old(q).clock, limit, skipped, q.marked[token])
        && ListsOnce(q.marked[token], r.value)
        && Claimed(qs[at], token, old(q).clock, q.marked[token], q)
    {
      var mine;
      mine, token, at, qs, steps := MarkEarliest(limit, skipped);
      if mine.Err? {
        return Err(Database), token, at, qs, steps;
      }
      var lost := DatabaseFails();
      if lost {
        return Err(Database), token, at, qs, steps;
      }
      var returned := InAnyOrder(HeldBy(q, mine.value));
      return Ok(returned), token, at, qs, steps;
    }

    /** Unconditional on the row's state; only a missing row is an error of its own. */
    method Complete(id: JobId) returns (r: Result<(), StoreError>)
      requires Inv(q)
      modifies this
      ensures Inv(q) && (q == old(q) || (id in old(q).jobs && CompletedIn(old(q), id, q)))
      ensures r.Ok? ==> id in old(q).jobs && CompletedIn(old(q), id, q)
      ensures r == Err(NotFound) ==> id !in old(q).jobs && q == old(q)
      ensures r != Err(LockStolen) && (r == Err(Database) ==> faulty)
    {
      var refused := DatabaseFails();
      if refused {
        return Err(Database);
      }
      var found := id in q.jobs;
      var qs, steps := Perform(JobQueue.Complete(id));
      var lost := DatabaseFails();
      return if lost then Err(Database) else if found then Ok(()) else Err(NotFound);
    }

    /**
     SELECT, then an UPDATE guarded by the token that was read. It succeeds
     exactly when nobody touched the row in between, and then records one more
     failure on it.
     */
    method Fail(id: JobId, error: string)
      returns (r: Result<(), StoreError>, ghost stamp: int, ghost qs: seq<Queue>, ghost steps: seq<Step>)
      requires Inv(q)
      modifies this
      ensures Inv(q) && Run(qs, steps) && qs[0] == old(q) && qs[|qs| - 1] == q
      ensures r == Err(Database) ==> faulty
      ensures r == Err(NotFound) ==> q == old(q) && !(id in q.jobs && q.jobs[id].status == Running)
      ensures r == Err(LockStolen) ==>
        && id in old(q).jobs && (id !in q.jobs || q.jobs[id] != old(q).jobs[id])
        && |qs| > 1 && q == qs[|qs| - 2]
      ensures r.Ok? ==>
        && id in old(q).jobs && old(q).jobs[id].status == Running
        && (forall k :: 0 <= k < |qs| - 1 ==> id in qs[k].jobs && qs[k].jobs[id] == old(q).jobs[id])
        && id in q.jobs && FailedOnce(old(q).jobs[id], q.jobs[id], stamp, error)
        && |qs| > 1 && q == qs[|qs| - 2].(jobs := qs[|qs| - 2].jobs[id := q.jobs[id]])
        && old(q).clock <= stamp <= q.clock
    {
      hide Run, Inv, FailedOnce, AfterFailure;
      stamp := 0;
      qs, steps := [q], [];
      RunNone(q);
      var refused := DatabaseFails();
      if refused {
        return Err(Database), stamp, qs, steps;
      }
      if id !in q.jobs || q.jobs[id].status != Running {
        return Err(NotFound), stamp, qs, steps;
      }
      var seen := ReadOf(q, id);
      qs, steps := Perform(FailSelect(id));
      var qs1, steps1 := Interfere({});
      RunConcat(qs, steps, qs1, steps1);
      qs, steps := qs + qs1[1..], steps + steps1;
      assert qs[1] == qs1[0] && steps[0] == FailSelect(id);
      ghost var last := |qs| - 1;
      FailUpdateIsExact(qs, steps, 0, last, id);
      ReadingsAreKept(qs, steps, 1, last, seen);
      var dropped := DatabaseFails();
      if dropped {
        return Err(Database), stamp, qs, steps;
      }

      stamp := q.clock;
      var found := StillLocked(q, seen);
      AfterFailureIs(old(q).jobs[id], seen, stamp, error);
      ghost var first := qs;
      var qs2, steps2 := Perform(FailUpdate(seen, q.clock, error));
      RunConcat(qs, steps, qs2, steps2);
      qs, steps := qs + qs2[1..], steps + steps2;
      assert forall k :: 0 <= k < |first| ==> qs[k] == first[k];
      var lost := DatabaseFails();
      return if lost then Err(Database) else if found then Ok(()) else Err(LockStolen), stamp, qs, steps;
    }
  }

  lemma {:induction false} DistinctSize(ids: seq<JobId>)
    requires forall i, j :: 0 <= i < j < |ids| ==> ids[i] != ids[j]
    ensures |set id | id in ids| == |ids|
  {
    if ids == [] {
    } else {
      var less := ids[..|ids| - 1];
      DistinctSize(less);
      var last := ids[|ids| - 1];
      assert (set id | id in ids) == (set id | id in less) + {last};
    }
  }

  lemma {:induction false} MarksAreKept(qs: seq<Queue>, steps: seq<Step>, n: nat, token: Token)
    requires Run(qs, steps) && Inv(qs[0]) && n < |qs| && token in qs[0].marked
    ensures token in qs[n].marked && qs[n].marked[token] == qs[0].marked[token]
  {
    if n == 0 {
    } else {
      MarksAreKept(qs, steps, n - 1, token);
      RunKeepsInv(qs, steps, n - 1);
      MarkIsKept(qs[n - 1], steps[n - 1], token);
    }
  }

  lemma MarkIsKept(q: Queue, step: Step, token: Token)
    requires Inv(q) && Enabled(q, step) && token in q.marked
    ensures token in Apply(q, step).marked && Apply(q, step).marked[token] == q.marked[token]
  {}

  lemma {:induction false} ReadingsAreKept(qs: seq<Queue>, steps: seq<Step>, i: nat, n: nat, seen: Seen)
    requires Run(qs, steps) && i <= n < |qs| && seen in qs[i].readings && seen.readAt <= qs[i].clock
    ensures seen in qs[n].readings && seen.readAt <= qs[n].clock
  {
    if i < n {
      ReadingsAreKept(qs, steps, i, n - 1, seen);
    }
  }

  lemma {:induction false} TokenStaysUnused(qs: seq<Queue>, steps: seq<Step>, n: nat, token: Token)
    requires Run(qs, steps) && n < |qs| && token in qs[0].unused
    requires forall step :: step in steps && step.ClaimUpdate? ==> step.token != token
    ensures token in qs[n].unused
  {
    if n == 0 {
    } else {
      TokenStaysUnused(qs, steps, n - 1, token);
      assert steps[n - 1] in steps;
    }
  }

  lemma {:induction false} ClockGrows(qs: seq<Queue>, steps: seq<Step>, n: nat)
    requires Run(qs, steps) && n < |qs|
    ensures qs[0].clock <= qs[n].clock
  {
    if n == 0 {
    } else {
      ClockGrows(qs, steps, n - 1);
      assert qs[n] == Apply(qs[n - 1], steps[n - 1]);
    }
  }

  lemma ClaimIsEnabled(q: Queue, token: Token, stamp: int, limit: nat, ids: set<JobId>)
    requires token in q.unused && stamp <= q.clock && Claimable(q, stamp, limit, ids)
    ensures Enabled(q, ClaimUpdate(token, stamp, limit, ids))
  {}

  /** The UPDATE locks the chosen rows, no others carry its token, and their order stays. */
  lemma UpdateMarks(q: Queue, token: Token, stamp: int, limit: nat, ids: set<JobId>, order: seq<JobId>)
    requires Inv(q) && Enabled(q, ClaimUpdate(token, stamp, limit, ids)) && InRunOrder(q, ids, order)
    ensures var r := Apply(q, ClaimUpdate(token, stamp, limit, ids));
      && token in r.marked && r.marked[token] == ids && HeldBy(r, token) == ids && InRunOrder(r, ids, order)
      && Claimed(q, token, stamp, ids, r)
  {
    var r := Apply(q, ClaimUpdate(token, stamp, limit, ids));
    forall id | id in q.jobs && q.jobs[id].lockedBy.Some? ensures q.jobs[id].lockedBy.value != token {
      assert Issued(q, q.jobs[id].lockedBy.value);
    }
    hide Inv;
    assert r.jobs.Keys == q.jobs.Keys;
    forall id ensures id in HeldBy(r, token) <==> id in ids {
      assert id in q.jobs ==> r.jobs[id] == if id in ids then Locked(q.jobs[id], token, stamp) else q.jobs[id];
    }
    SameTimesSameOrder(q, r, ids, order);
  }

  lemma SameTimesSameOrder(q: Queue, r: Queue, ids: set<JobId>, order: seq<JobId>)
    requires InRunOrder(q, ids, order) && r.jobs.Keys == q.jobs.Keys
    requires forall id :: id in q.jobs ==> r.jobs[id].runAt == q.jobs[id].runAt
    ensures InRunOrder(r, ids, order)
  {}
}
