/**
 What every operation, cut short anywhere, leaves in the tracking table: closed
 forms of the reachable databases and the invariants of whole histories.
 */
module Tracking {
  import opened Wrappers
  import opened Ordering
  import opened Migrations
  import opened Plan
  import opened Programs

  // ----- Invariants -----

  /**
   Versions and order numbers are distinct, order numbers grow, and at most one
   row is PARTIAL: the one with the greatest order number.
   */
  ghost predicate TableOk(rows: seq<AppliedMigration>) {
    && (forall i, j :: 0 <= i < j < |rows| ==>
          rows[i].appliedOrder < rows[j].appliedOrder && rows[i].version != rows[j].version)
    && (forall i :: 0 <= i < |rows| - 1 ==> rows[i].status == Applied)
  }

  ghost predicate AllApplied(rows: seq<AppliedMigration>) {
    forall r :: r in rows ==> r.status == Applied
  }

  /** No migration stands half-way, and `order` is beyond every order number. */
  ghost predicate Ready(rows: seq<AppliedMigration>, order: int) {
    TableOk(rows) && AllApplied(rows) && forall r :: r in rows ==> r.appliedOrder < order
  }

  ghost predicate VersionBefore(rows: seq<AppliedMigration>, i: nat, version: string) {
    exists j :: 0 <= j < i && j < |rows| && rows[j].version == version
  }

  /** Each row recorded by the versioned path has all its `@requires` versions in earlier rows. */
  ghost predicate DepsOk(db: Db) {
    && db.deps.Keys <= Versions(db.rows)
    && (forall i, v :: 0 <= i < |db.rows| && db.rows[i].version in db.deps && v in db.deps[db.rows[i].version] ==>
          VersionBefore(db.rows, i, v))
  }

  lemma QueryIsRows(db: Db)
    requires TableOk(db.rows)
    ensures Query(db) == db.rows
  {
    assert SortedBy(db.rows, ByOrder);
    SortIdentity(db.rows, ByOrder);
  }

  lemma {:induction false} MaxOrderIsGreatest(rows: seq<AppliedMigration>)
    requires TableOk(rows)
    ensures rows != [] ==> MaxOrder(rows) == rows[|rows| - 1].appliedOrder
    ensures forall r :: r in rows ==> r.appliedOrder <= MaxOrder(rows)
  {
    if |rows| > 1 {
      MaxOrderIsGreatest(rows[..|rows| - 1]);
      assert rows == rows[..|rows| - 1] + [rows[|rows| - 1]];
    }
  }

  lemma ReadyForNextOrder(rows: seq<AppliedMigration>)
    requires TableOk(rows) && FirstPartial(rows).None?
    ensures Ready(rows, NextOrder(rows))
  {
    MaxOrderIsGreatest(rows);
    FirstPartialNone(rows);
  }

  lemma VersionsConcat(a: seq<AppliedMigration>, b: seq<AppliedMigration>)
    ensures Versions(a + b) == Versions(a) + Versions(b)
  {}

  // ----- Recording migrations: the closed form of the versioned phase -----

  function RowsOf(ms: seq<Migration>, order: int): seq<AppliedMigration> {
    seq(|ms|, i requires 0 <= i < |ms| => RowOf(ms[i], order + i, Applied))
  }

  function Ups(ms: seq<Migration>): seq<Effect> {
    seq(|ms|, i requires 0 <= i < |ms| => Ran(ms[i].upSql))
  }

  function WithDeps(deps: map<string, seq<string>>, ms: seq<Migration>): map<string, seq<string>>
    decreases |ms|
  {
    if ms == [] then deps else WithDeps(deps[ms[0].version := ms[0].needs], ms[1..])
  }

  /** The database after the SQL of `ms` ran and their rows were written. */
  function Recorded(db: Db, ms: seq<Migration>, order: int): Db {
    Db(db.rows + RowsOf(ms, order), db.log + Ups(ms), WithDeps(db.deps, ms))
  }

  /** The primary key accepts all of `ms`. */
  ghost predicate Recordable(rows: seq<AppliedMigration>, ms: seq<Migration>) {
    && (forall i :: 0 <= i < |ms| ==> ms[i].version !in Versions(rows))
    && (forall i, j :: 0 <= i < j < |ms| ==> ms[i].version != ms[j].version)
  }

  lemma RecordedFirst(db: Db, ms: seq<Migration>, order: int)
    requires ms != []
    ensures Recorded(Recorded(db, [ms[0]], order), ms[1..], order + 1) == Recorded(db, ms, order)
  {
    assert [ms[0]][1..] == [];
    assert RowsOf([ms[0]], order) + RowsOf(ms[1..], order + 1) == RowsOf(ms, order);
    assert Ups([ms[0]]) + Ups(ms[1..]) == Ups(ms);
    assert WithDeps(db.deps, [ms[0]]) == db.deps[ms[0].version := ms[0].needs];
    assert db.rows + RowsOf(ms, order) == db.rows + RowsOf([ms[0]], order) + RowsOf(ms[1..], order + 1);
    assert db.log + Ups(ms) == db.log + Ups([ms[0]]) + Ups(ms[1..]);
  }

  lemma RecordableFirst(rows: seq<AppliedMigration>, ms: seq<Migration>, order: int)
    requires ms != []
    ensures Recordable(rows, ms) <==>
      ms[0].version !in Versions(rows) && Recordable(rows + RowsOf([ms[0]], order), ms[1..])
  {
    var rows' := rows + RowsOf([ms[0]], order);
    assert RowsOf([ms[0]], order) == [RowOf(ms[0], order, Applied)];
    VersionsAppend(rows, RowOf(ms[0], order, Applied));
    if ms[0].version !in Versions(rows) && Recordable(rows', ms[1..]) {
      forall i | 0 <= i < |ms| ensures ms[i].version !in Versions(rows) {
        assert i == 0 || ms[1..][i - 1].version !in Versions(rows');
      }
      forall i, j | 0 <= i < j < |ms| ensures ms[i].version != ms[j].version {
        assert ms[1..][j - 1].version !in Versions(rows');
        if i > 0 {
          assert ms[1..][i - 1] == ms[i] && ms[1..][j - 1] == ms[j];
        }
      }
    }
  }

  lemma RecordedIsReady(db: Db, ms: seq<Migration>, order: int)
    requires Ready(db.rows, order) && Recordable(db.rows, ms)
    ensures Ready(Recorded(db, ms, order).rows, order + |ms|)
  {
    hide Ups, WithDeps;
    var rows := Recorded(db, ms, order).rows;
    forall i, j | 0 <= i < j < |rows|
      ensures rows[i].appliedOrder < rows[j].appliedOrder && rows[i].version != rows[j].version
    {
      if i < |db.rows| {
        assert db.rows[i].version in Versions(db.rows);
      }
    }
  }

  /** One migration in a transaction writes its row and SQL together, or not at all. */
  lemma TransactionGroupEffect(db: Db, m: Migration, order: int)
    ensures ExecGroup(db, TransactionGroup(m, order))
         == if m.version in Versions(db.rows) then None else Some(Recorded(db, [m], order))
    ensures Recorded(db, [m], order) == Db(
      db.rows + [AppliedMigration(m.version, m.name, m.checksum, m.upSql, m.downSql, order, Applied)],
      db.log + [Ran(m.upSql)],
      db.deps[m.version := m.needs])
  {
    ExecPair(db, MigrationSql(m.upSql), InsertRow(RowOf(m, order, Applied), Some(m.needs)));
    RecordedOne(db, m, order);
  }

  lemma RecordedOne(db: Db, m: Migration, order: int)
    ensures Recorded(db, [m], order)
         == Db(db.rows + [RowOf(m, order, Applied)], db.log + [Ran(m.upSql)], db.deps[m.version := m.needs])
  {
    assert [m][1..] == [];
    assert WithDeps(db.deps[m.version := m.needs], []) == db.deps[m.version := m.needs];
    assert RowsOf([m], order) == [RowOf(m, order, Applied)] && Ups([m]) == [Ran(m.upSql)];
  }

  /** A `@no-transaction` migration whose row is written but not yet final. */
  function HalfWay(db: Db, m: Migration, order: int): Db {
    db.(rows := db.rows + [RowOf(m, order, Partial)], deps := db.deps[m.version := m.needs])
  }

  ghost predicate Midway(db: Db, m: Migration, order: int, d: Db) {
    && m.noTransaction
    && m.version !in Versions(db.rows)
    && var half := HalfWay(db, m, order);
       d == half || d == WithEffect(half, Cut(m.upSql)) || d == WithEffect(half, Ran(m.upSql))
  }

  lemma FinalStatus(db: Db, m: Migration, order: int)
    requires m.version !in Versions(db.rows)
    ensures var half := HalfWay(db, m, order);
      Exec(WithEffect(half, Ran(m.upSql)), SetStatus(m.version, Applied)) == Some(Recorded(db, [m], order))
  {
    var half := HalfWay(db, m, order);
    forall i | 0 <= i < |db.rows| ensures db.rows[i].version != m.version {
      assert db.rows[i].version in Versions(db.rows);
    }
    assert WithStatus(half.rows, m.version, Applied) == db.rows + [RowOf(m, order, Applied)];
    RecordedOne(db, m, order);
  }

  /** Stopping inside one migration of a sequential run, and getting past it. */
  lemma MigrationGroupsReached(db: Db, m: Migration, order: int, d: Db)
    requires Reached(db, MigrationGroups(m, order), d)
    ensures d == db || Midway(db, m, order, d) || (m.version !in Versions(db.rows) && d == Recorded(db, [m], order))
  {
    hide Reached, ExecGroup, Recorded;
    if !m.noTransaction {
      TransactionGroupEffect(db, m, order);
      ReachedOnly(db, TransactionGroup(m, order), d);
    } else {
      var gs := NoTransactionGroups(m, order);
      var half := HalfWay(db, m, order);
      NoTransactionSteps(db, m, order);
      assert gs == [gs[0]] + ([gs[1]] + [gs[2]]);
      ReachedFirst(db, gs[0], [gs[1]] + [gs[2]], d);
      if d != db {
        ReachedFirst(half, gs[1], [gs[2]], d);
        if d != half && d != WithEffect(half, Cut(m.upSql)) {
          ReachedOnly(WithEffect(half, Ran(m.upSql)), gs[2], d);
          FinalStatus(db, m, order);
        }
      }
    }
  }

  lemma NoTransactionSteps(db: Db, m: Migration, order: int)
    ensures var gs := NoTransactionGroups(m, order); var half := HalfWay(db, m, order);
      var ran := WithEffect(half, Ran(m.upSql));
      && ExecGroup(db, gs[0]) == (if m.version in Versions(db.rows) then None else Some(half))
      && ExecGroup(half, gs[1]) == Some(ran)
      && ExecGroup(ran, gs[2]) == Exec(ran, SetStatus(m.version, Applied))
  {
    var gs := NoTransactionGroups(m, order);
    assert gs[0][1..] == [] && gs[1][1..] == [] && gs[2][1..] == [];
  }

  lemma MigrationGroupsEffect(db: Db, m: Migration, order: int)
    ensures ExecAll(db, MigrationGroups(m, order))
         == if m.version in Versions(db.rows) then None else Some(Recorded(db, [m], order))
  {
    hide ExecAll, ExecGroup, Recorded;
    if m.noTransaction {
      var gs := NoTransactionGroups(m, order);
      var half := HalfWay(db, m, order);
      NoTransactionSteps(db, m, order);
      assert gs == [gs[0]] + ([gs[1]] + [gs[2]]);
      ExecAllFirst(db, gs[0], [gs[1]] + [gs[2]]);
      if m.version !in Versions(db.rows) {
        ExecAllFirst(half, gs[1], [gs[2]]);
        ExecSingle(WithEffect(half, Ran(m.upSql)), gs[2][0]);
        FinalStatus(db, m, order);
      }
    } else {
      TransactionGroupEffect(db, m, order);
      var g := TransactionGroup(m, order);
      assert [g] + [] == [g];
      ExecAllFirst(db, g, []);
      ExecAllNothing(Recorded(db, [m], order));
    }
  }

  lemma ExecAllNothing(db: Db)
    ensures ExecAll(db, []) == Some(db)
  {}

  /**
   A sequential run succeeds exactly when the primary key accepts the plan; it
   then leaves all of the plan recorded.
   */
  lemma {:induction false} SequentialEffect(db: Db, plan: seq<Migration>, order: int)
    ensures ExecAll(db, SequentialGroups(plan, order))
         == if Recordable(db.rows, plan) then Some(Recorded(db, plan, order)) else None
    decreases |plan|
  {
    hide MigrationGroups, Recordable, Recorded;
    if plan == [] {
      RecordedNothing(db, order);
    } else {
      MigrationGroupsEffect(db, plan[0], order);
      RecordableFirst(db.rows, plan, order);
      RecordedFirst(db, plan, order);
      RecordedRows(db, [plan[0]], order);
      if plan[0].version in Versions(db.rows) {
        ExecAllFails(db, MigrationGroups(plan[0], order), SequentialGroups(plan[1..], order + 1));
      } else {
        var db1 := Recorded(db, [plan[0]], order);
        Migrations.ExecAllConcat(db, MigrationGroups(plan[0], order), SequentialGroups(plan[1..], order + 1));
        SequentialEffect(db1, plan[1..], order + 1);
      }
    }
  }

  lemma RecordedNothing(db: Db, order: int)
    ensures Recorded(db, [], order) == db && Recordable(db.rows, [])
  {
    assert db.rows + RowsOf([], order) == db.rows && db.log + Ups([]) == db.log;
  }

  lemma RecordedRows(db: Db, ms: seq<Migration>, order: int)
    ensures Recorded(db, ms, order).rows == db.rows + RowsOf(ms, order)
  {}

  /** An atomic run has exactly the effect of a sequential one that succeeds. */
  lemma {:induction false} AtomicEffect(db: Db, plan: seq<Migration>, order: int)
    ensures ExecGroup(db, AtomicGroup(plan, order))
         == if Recordable(db.rows, plan) then Some(Recorded(db, plan, order)) else None
    decreases |plan|
  {
    hide Recordable, Recorded, TransactionGroup;
    if plan == [] {
      RecordedNothing(db, order);
    } else {
      TransactionGroupEffect(db, plan[0], order);
      RecordableFirst(db.rows, plan, order);
      RecordedFirst(db, plan, order);
      RecordedRows(db, [plan[0]], order);
      if plan[0].version in Versions(db.rows) {
        ExecGroupFails(db, TransactionGroup(plan[0], order), AtomicGroup(plan[1..], order + 1));
      } else {
        ExecGroupConcat(db, TransactionGroup(plan[0], order), AtomicGroup(plan[1..], order + 1));
        AtomicEffect(Recorded(db, [plan[0]], order), plan[1..], order + 1);
      }
    }
  }

  /** Either mode succeeds exactly when the primary key accepts the plan, with one and the same result. */
  lemma VersionedEffect(db: Db, plan: seq<Migration>, order: int, atomic: bool)
    ensures ExecAll(db, VersionedGroups(plan, order, atomic))
         == if Recordable(db.rows, plan) then Some(Recorded(db, plan, order)) else None
  {
    if atomic {
      AtomicEffect(db, plan, order);
      assert [AtomicGroup(plan, order)][1..] == [];
    } else {
      SequentialEffect(db, plan, order);
    }
  }

  /** `k` migrations of the plan are recorded, and the next one may stand half-way. */
  ghost predicate StoppedAt(db: Db, plan: seq<Migration>, order: int, k: nat, d: Db) {
    && k <= |plan|
    && Recordable(db.rows, plan[..k])
    && (d == Recorded(db, plan[..k], order)
        || (k < |plan| && Midway(Recorded(db, plan[..k], order), plan[k], order + k, d)))
  }

  /**
   Whatever fails, a sequential migrate leaves a prefix of the plan recorded,
   after which at most one `@no-transaction` migration stands half-way.
   */
  lemma {:induction false} SequentialReached(db: Db, plan: seq<Migration>, order: int, d: Db) returns (k: nat)
    requires Reached(db, SequentialGroups(plan, order), d)
    ensures StoppedAt(db, plan, order, k, d)
    decreases |plan|
  {
    hide MigrationGroups;
    RecordedNothing(db, order);
    assert plan[..0] == [];
    if plan == [] || d == db {
      k := 0;
    } else {
      var first := MigrationGroups(plan[0], order);
      var rest := SequentialGroups(plan[1..], order + 1);
      ReachedSplit(db, first, rest, d);
      MigrationGroupsEffect(db, plan[0], order);
      assert plan[..1] == [plan[0]];
      if Reached(db, first, d) {
        MigrationGroupsReached(db, plan[0], order, d);
        k := if Midway(db, plan[0], order, d) then 0 else 1;
      } else {
        var db1 := Recorded(db, [plan[0]], order);
        var n := SequentialReached(db1, plan[1..], order + 1, d);
        k := n + 1;
        StoppedLater(db, plan, order, n, d);
      }
    }
  }

  lemma StoppedLater(db: Db, plan: seq<Migration>, order: int, n: nat, d: Db)
    requires plan != [] && plan[0].version !in Versions(db.rows)
    requires StoppedAt(Recorded(db, [plan[0]], order), plan[1..], order + 1, n, d)
    ensures StoppedAt(db, plan, order, n + 1, d)
  {
    var ms := plan[..n + 1];
    assert ms[0] == plan[0] && ms[1..] == plan[1..][..n];
    RecordedFirst(db, ms, order);
    RecordableFirst(db.rows, ms, order);
    RecordedRows(db, [plan[0]], order);
    if n + 1 < |plan| {
      assert plan[1..][n] == plan[n + 1];
    }
  }

  /** Whatever fails, an atomic migrate leaves nothing of the plan, or all of it. */
  lemma AtomicReached(db: Db, plan: seq<Migration>, order: int, d: Db)
    requires Reached(db, [AtomicGroup(plan, order)], d)
    ensures d == db || (Recordable(db.rows, plan) && d == Recorded(db, plan, order))
  {
    var g := AtomicGroup(plan, order);
    AtomicEffect(db, plan, order);
    assert [g][1..] == [] && [g][0] == g;
    assert |g| != 1 by {
      if plan != [] {
        assert |g| >= 2;
      }
    }
    if d != db {
      assert Reached(ExecGroup(db, g).value, [], d);
    }
  }

  lemma VersionedReached(db: Db, plan: seq<Migration>, order: int, atomic: bool, d: Db) returns (k: nat)
    requires Reached(db, VersionedGroups(plan, order, atomic), d)
    ensures StoppedAt(db, plan, order, k, d)
    ensures atomic ==> (k == 0 && d == db) || (k == |plan| && d == Recorded(db, plan, order))
  {
    RecordedNothing(db, order);
    assert plan[..0] == [] && plan[..|plan|] == plan;
    if atomic {
      AtomicReached(db, plan, order, d);
      k := if d == db then 0 else |plan|;
    } else {
      k := SequentialReached(db, plan, order, d);
    }
  }

  // ----- Write-ahead: no migration SQL without its row -----

  /**
   The SQL in `log` belongs, in order, to `rows`; the SQL of every APPLIED row
   ran to its end, and only a last row may be PARTIAL, its SQL missing or cut off.
   */
  ghost predicate WrittenAhead(rows: seq<AppliedMigration>, log: seq<Effect>) {
    && |log| <= |rows|
    && (forall i :: 0 <= i < |log| ==> log[i].sql == rows[i].upSql)
    && (forall i :: 0 <= i < |rows| && rows[i].status == Applied ==> i < |log| && log[i] == Ran(rows[i].upSql))
    && (forall i :: 0 <= i < |rows| - 1 ==> rows[i].status == Applied)
  }

  /** `d` extends `db` by rows and SQL written ahead of each other as they must be. */
  ghost predicate ExtendsAhead(db: Db, d: Db) {
    && db.rows <= d.rows && db.log <= d.log
    && WrittenAhead(d.rows[|db.rows|..], d.log[|db.log|..])
  }

  lemma RecordedAhead(ms: seq<Migration>, order: int, tail: seq<Effect>, half: Migration)
    requires |tail| <= 1 && (tail != [] ==> tail[0].sql == half.upSql)
    ensures WrittenAhead(RowsOf(ms, order), Ups(ms))
    ensures WrittenAhead(RowsOf(ms, order) + [RowOf(half, order + |ms|, Partial)], Ups(ms) + tail)
  {}

  lemma StoppedAhead(db: Db, plan: seq<Migration>, order: int, k: nat, d: Db)
    requires StoppedAt(db, plan, order, k, d)
    ensures ExtendsAhead(db, d)
  {
    hide WrittenAhead, Recordable, WithDeps, Recorded, RowsOf, RowOf, Ups, Versions;
    var ms := plan[..k];
    var done := Recorded(db, ms, order);
    assert done.rows == db.rows + RowsOf(ms, order) && done.log == db.log + Ups(ms) by { RecordedParts(db, ms, order); }
    if d == done {
      if ms != [] {
        RecordedAhead(ms, order, [], ms[0]);
      } else {
        NothingAhead(order);
      }
      assert done.rows[|db.rows|..] == RowsOf(ms, order) && done.log[|db.log|..] == Ups(ms);
    } else {
      var tail := d.log[|done.log|..];
      RecordedAhead(ms, order, tail, plan[k]);
      assert d.rows == db.rows + (RowsOf(ms, order) + [RowOf(plan[k], order + k, Partial)]);
      assert d.rows[|db.rows|..] == RowsOf(ms, order) + [RowOf(plan[k], order + k, Partial)];
      assert d.log[|db.log|..] == Ups(ms) + tail;
    }
  }

  lemma RecordedParts(db: Db, ms: seq<Migration>, order: int)
    ensures Recorded(db, ms, order).rows == db.rows + RowsOf(ms, order)
    ensures Recorded(db, ms, order).log == db.log + Ups(ms)
  {}

  lemma NothingAhead(order: int)
    ensures WrittenAhead(RowsOf([], order), Ups([]))
  {}

  /**
   Wherever a versioned phase stops, no migration SQL has taken effect without
   the row that records it, and no row is APPLIED without its SQL.
   */
  lemma WriteAhead(db: Db, plan: seq<Migration>, order: int, atomic: bool, d: Db)
    requires Reached(db, VersionedGroups(plan, order, atomic), d)
    ensures ExtendsAhead(db, d)
  {
    hide *;
    var k := VersionedReached(db, plan, order, atomic, d);
    StoppedAhead(db, plan, order, k, d);
  }

  // ----- The repeatable phase -----

  function VersionsOf(ms: seq<Migration>): set<string> {
    set m | m in ms :: m.version
  }

  /**
   From `db`, a repeatable phase over `due` adds APPLIED rows for due versions
   and otherwise changes nothing but checksums of due versions.
   */
  ghost predicate Refreshed(db: Db, due: set<string>, d: Db) {
    && |db.rows| <= |d.rows|
    && d.deps == db.deps
    && db.log <= d.log
    && (forall i :: 0 <= i < |db.rows| ==>
          && d.rows[i] == db.rows[i].(checksum := d.rows[i].checksum)
          && (db.rows[i].version !in due ==> d.rows[i] == db.rows[i]))
    && (forall i :: |db.rows| <= i < |d.rows| ==> d.rows[i].version in due && d.rows[i].status == Applied)
  }

  lemma RefreshedTwice(a: Db, b: Db, c: Db, due: set<string>, rest: set<string>)
    requires Refreshed(a, due, b) && Refreshed(b, rest, c) && rest <= due
    ensures Refreshed(a, due, c)
  {}

  /** The database after the SQL of the repeatable `m` ran. */
  function AfterSql(db: Db, m: Migration): Db {
    WithEffect(db, Ran(m.upSql))
  }

  lemma RepeatableStep(db: Db, due: seq<Migration>, known: set<string>, order: int, d: Db)
    requires due != [] && Reached(db, RepeatableGroups(due, known, order), d)
    ensures var m := due[0];
      var last := RecordRepeatable(m, known, order);
      || d == db || d == WithEffect(db, Cut(m.upSql)) || d == AfterSql(db, m)
      || (Exec(AfterSql(db, m), last).Some?
          && Reached(Exec(AfterSql(db, m), last).value,
                     RepeatableGroups(due[1..], known, if m.version in known then order else order + 1), d))
  {
    var m := due[0];
    var last := RecordRepeatable(m, known, order);
    var rest := RepeatableGroups(due[1..], known, if m.version in known then order else order + 1);
    hide Reached, ExecGroup;
    assert RepeatableGroups(due, known, order) == [[MigrationSql(m.upSql)]] + ([[last]] + rest);
    ReachedFirst(db, [MigrationSql(m.upSql)], [[last]] + rest, d);
    ExecSingle(db, MigrationSql(m.upSql));
    if d != db && d != WithEffect(db, Cut(m.upSql)) {
      ReachedFirst(AfterSql(db, m), [last], rest, d);
      ExecSingle(AfterSql(db, m), last);
    }
  }

  lemma RecordRepeatableEffect(db: Db, m: Migration, known: set<string>, order: int)
    requires Ready(db.rows, order)
    ensures var last := RecordRepeatable(m, known, order);
      Exec(AfterSql(db, m), last).Some? ==>
        && Refreshed(db, {m.version}, Exec(AfterSql(db, m), last).value)
        && Ready(Exec(AfterSql(db, m), last).value.rows, if m.version in known then order else order + 1)
  {
    forall i | 0 <= i < |db.rows| ensures db.rows[i].version in Versions(db.rows) {}
  }

  /** Cut short anywhere, the repeatable phase only refreshes due versions and keeps the table in order. */
  lemma {:induction false} RepeatablesReached(db: Db, due: seq<Migration>, known: set<string>, order: int, d: Db)
    requires Ready(db.rows, order) && Reached(db, RepeatableGroups(due, known, order), d)
    ensures Refreshed(db, VersionsOf(due), d) && TableOk(d.rows) && AllApplied(d.rows)
    decreases |due|
  {
    if due != [] && d != db {
      var m := due[0];
      RepeatableStep(db, due, known, order, d);
      if d != WithEffect(db, Cut(m.upSql)) && d != AfterSql(db, m) {
        var db1 := Exec(AfterSql(db, m), RecordRepeatable(m, known, order)).value;
        RecordRepeatableEffect(db, m, known, order);
        RepeatablesReached(db1, due[1..], known, if m.version in known then order else order + 1, d);
        assert m in due;
        assert forall x :: x in due[1..] ==> x in due;
        RefreshedWiden(db, {m.version}, VersionsOf(due), db1);
        RefreshedTwice(db, db1, d, VersionsOf(due), VersionsOf(due[1..]));
      }
    }
  }

  lemma RefreshedWiden(db: Db, narrow: set<string>, wide: set<string>, d: Db)
    requires Refreshed(db, narrow, d) && narrow <= wide
    ensures Refreshed(db, wide, d)
  {}

  // ----- migrate as a whole -----

  /**
   A migrate stops inside its versioned phase or, that phase having recorded
   the whole plan, inside its repeatable phase.
   */
  lemma MigrateReached(db: Db, source: Source, plan: seq<Migration>, atomic: bool, d: Db) returns (k: nat, mid: Db)
    requires TableOk(db.rows) && FirstPartial(db.rows).None?
    requires Reached(db, MigrateProgram(db, source, plan, atomic), d)
    ensures StoppedAt(db, plan, NextOrder(db.rows), k, mid)
    ensures atomic ==> mid == db || mid == Recorded(db, plan, NextOrder(db.rows))
    ensures d == mid || (k == |plan| && mid == Recorded(db, plan, NextOrder(db.rows))
                         && Refreshed(mid, VersionsOf(source.repeatable), d) && TableOk(d.rows) && AllApplied(d.rows)
                         && Reached(mid, RepeatablePhase(mid, source, NextOrder(db.rows) + |plan|), d))
  {
    hide Reached, VersionedGroups, Refreshed, StoppedAt, Query, NextOrder, RepeatablePhase, ExecAll;
    QueryIsRows(db);
    ReadyForNextOrder(db.rows);
    var order := NextOrder(db.rows);
    var versioned := VersionedGroups(plan, order, atomic);
    VersionedEffect(db, plan, order, atomic);
    if Reached(db, versioned, d) {
      k := VersionedReached(db, plan, order, atomic, d);
      mid := d;
    } else {
      mid := Recorded(db, plan, order);
      k := |plan|;
      ReachedSplit(db, versioned, RepeatablePhase(mid, source, order + |plan|), d);
      RecordedIsReady(db, plan, order);
      RepeatablePhaseReached(mid, source, order + |plan|, d);
      StoppedAtEnd(db, plan, order);
    }
  }

  /** A dry run leaves the database alone. */
  lemma DryRunChangesNothing(db: Db, source: Source, target: Option<string>, atomic: bool, d: Db)
    requires Reached(db, Program(Migrate(source, target, atomic, true), db), d)
    ensures d == db
  {
    ReachedNothing(db, d);
  }

  lemma StoppedAtEnd(db: Db, plan: seq<Migration>, order: int)
    requires Recordable(db.rows, plan)
    ensures StoppedAt(db, plan, order, |plan|, Recorded(db, plan, order))
  {
    assert plan[..|plan|] == plan;
  }

  lemma RepeatablePhaseReached(mid: Db, source: Source, order: int, d: Db)
    requires Ready(mid.rows, order) && Reached(mid, RepeatablePhase(mid, source, order), d)
    ensures Refreshed(mid, VersionsOf(source.repeatable), d) && TableOk(d.rows) && AllApplied(d.rows)
  {
    hide Reached, Refreshed, Query;
    var due := Due(source.repeatable, Query(mid));
    RepeatablesReached(mid, due, Versions(mid.rows), order, d);
    RefreshedWiden(mid, VersionsOf(due), VersionsOf(source.repeatable), d);
  }

  // ----- rollback -----

  /** The database after the last `j` rows were rolled back, latest first. */
  function RolledBack(db: Db, j: nat): Db
    requires j <= |db.rows|
    decreases j
  {
    if j == 0 then db
    else
      var d := RolledBack(db, j - 1);
      var n := |db.rows| - j;
      Db(db.rows[..n],
         d.log + (if db.rows[n].downSql.Some? then [Ran(db.rows[n].downSql.value)] else []),
         d.deps - {db.rows[n].version})
  }

  lemma RollbackOne(db: Db, j: nat)
    requires TableOk(db.rows) && j < |db.rows| && db.rows[|db.rows| - 1 - j].downSql.Some?
    ensures var row := db.rows[|db.rows| - 1 - j];
      ExecGroup(RolledBack(db, j), [MigrationSql(row.downSql.value), DeleteRow(row.version)]) ==
        Some(RolledBack(db, j + 1))
  {
    hide TableOk;
    var n := |db.rows| - 1 - j;
    var row := db.rows[n];
    var d := RolledBack(db, j);
    assert d.rows == db.rows[..n + 1];
    FrontOk(db.rows, n + 1);
    var g := [MigrationSql(row.downSql.value), DeleteRow(row.version)];
    assert g[1..] == [g[1]] && g[1..][1..] == [];
    WithoutLast(d.rows);
    assert d.rows[..n] == db.rows[..n];
    var d1 := WithEffect(d, Ran(row.downSql.value));
    assert Exec(d, g[0]) == Some(d1);
    assert ExecGroup(d, g) == ExecGroup(d1, [g[1]]);
    assert ExecGroup(d1, [g[1]]) == Exec(d1, g[1]);
  }

  lemma FrontOk(rows: seq<AppliedMigration>, n: nat)
    requires TableOk(rows) && n <= |rows|
    ensures TableOk(rows[..n])
  {}

  lemma WithoutLast(rows: seq<AppliedMigration>)
    requires rows != [] && TableOk(rows)
    ensures Without(rows, rows[|rows| - 1].version) == rows[..|rows| - 1]
  {
    WithoutOnly(rows, rows[|rows| - 1].version);
  }

  lemma {:induction false} WithoutOnly(rows: seq<AppliedMigration>, v: string)
    requires rows != [] && rows[|rows| - 1].version == v
    requires forall i :: 0 <= i < |rows| - 1 ==> rows[i].version != v
    ensures Without(rows, v) == rows[..|rows| - 1]
  {
    if |rows| > 1 {
      WithoutOnly(rows[1..], v);
      assert rows[..|rows| - 1] == [rows[0]] + rows[1..][..|rows[1..]| - 1];
    } else {
      assert rows[1..] == [] && Without([], v) == [];
      assert Without(rows, v) == [] + Without(rows[1..], v);
    }
  }

  /** How many rows, counted from the latest, a strategy selects. */
  function RollbackCount(rows: seq<AppliedMigration>, strategy: RollbackStrategy): (n: nat)
    ensures n <= |rows|
  {
    match strategy
    case Last => if rows == [] then 0 else 1
    case Steps(n) => if n < |rows| then n else |rows|
    case ToVersion(v) => |WhileAboveBounded(Reversed(rows), v)|
  }

  function WhileAboveBounded(rows: seq<AppliedMigration>, v: string): (r: seq<AppliedMigration>)
    ensures |r| <= |rows|
    ensures r == rows[..|r|]
    ensures r == WhileAbove(rows, v)
  {
    if rows == [] || !StrLt(v, rows[0].version) then []
    else
      var r := WhileAboveBounded(rows[1..], v);
      assert [rows[0]] + r == rows[..|r| + 1];
      [rows[0]] + r
  }

  /** Every strategy selects the latest rows, latest first. */
  lemma ToRollbackIsSuffix(rows: seq<AppliedMigration>, strategy: RollbackStrategy)
    ensures ToRollback(rows, strategy) == Reversed(rows)[..RollbackCount(rows, strategy)]
  {}

  /**
   How many rows a strategy selects: the last one, the last `n`, or those before
   the first, seen from the latest, whose version is not greater.
   */
  lemma RollbackSelects(rows: seq<AppliedMigration>, strategy: RollbackStrategy)
    ensures var n := |ToRollback(rows, strategy)|;
      && n <= |rows| && ToRollback(rows, strategy) == Reversed(rows)[..n]
      && (strategy.Last? ==> n == 1 || (n == 0 && rows == []))
      && (strategy.Steps? ==> n == strategy.n || (n == |rows| && n < strategy.n))
      && (strategy.ToVersion? ==> IsFrontAbove(Reversed(rows), strategy.version, n))
  {
    hide Reversed;
    ToRollbackIsSuffix(rows, strategy);
    if strategy.ToVersion? {
      WhileAboveStops(Reversed(rows), strategy.version);
    }
  }

  /** The first `n` rows, and not the next one, have versions greater than `v`. */
  ghost predicate IsFrontAbove(rows: seq<AppliedMigration>, v: string, n: nat) {
    && n <= |rows|
    && (forall i :: 0 <= i < n ==> StrLt(v, rows[i].version))
    && (n < |rows| ==> !StrLt(v, rows[n].version))
  }

  lemma {:induction false} WhileAboveStops(rows: seq<AppliedMigration>, v: string)
    ensures IsFrontAbove(rows, v, |WhileAboveBounded(rows, v)|)
  {
    if rows != [] && StrLt(v, rows[0].version) {
      WhileAboveStops(rows[1..], v);
      var n := |WhileAboveBounded(rows[1..], v)|;
      forall i | 0 <= i < n + 1 ensures StrLt(v, rows[i].version) {
        assert i == 0 || rows[1..][i - 1] == rows[i];
      }
    }
  }

  /** A rollback cut short has removed the latest rows and run exactly their down SQL. */
  lemma {:induction false} RollbackReached(db: Db, i: nat, n: nat, d: Db) returns (j: nat)
    requires TableOk(db.rows) && i <= n <= |db.rows|
    requires Reached(RolledBack(db, i), RollbackGroups(Reversed(db.rows)[i..n]), d)
    ensures i <= j <= n && d == RolledBack(db, j)
    decreases n - i
  {
    hide Reached, ExecGroup, RolledBack;
    j := i;
    var rows := Reversed(db.rows)[i..n];
    if rows == [] || rows[0].downSql.None? {
      ReachedNothing(RolledBack(db, i), d);
    }
    if i < n && rows[0].downSql.Some? && d != RolledBack(db, i) {
      assert rows[0] == db.rows[|db.rows| - 1 - i];
      RollbackOne(db, i);
      ReachedFirst(RolledBack(db, i), [MigrationSql(rows[0].downSql.value), DeleteRow(rows[0].version)],
                   RollbackGroups(rows[1..]), d);
      assert rows[1..] == Reversed(db.rows)[i + 1..n];
      j := RollbackReached(db, i + 1, n, d);
    }
  }

  lemma RollbackProgramReached(db: Db, strategy: RollbackStrategy, d: Db) returns (j: nat)
    requires TableOk(db.rows) && Reached(db, RollbackProgram(db, strategy), d)
    ensures j <= RollbackCount(db.rows, strategy) && d == RolledBack(db, j)
    ensures FirstPartial(db.rows).Some? ==> j == 0
  {
    QueryIsRows(db);
    ToRollbackIsSuffix(db.rows, strategy);
    if FirstPartial(db.rows).None? {
      var n := RollbackCount(db.rows, strategy);
      assert Reversed(db.rows)[0..n] == Reversed(db.rows)[..n];
      j := RollbackReached(db, 0, n, d);
    } else {
      j := 0;
    }
  }

  /** A rollback removes the latest rows, whatever the strategy and wherever it stops. */
  lemma RollbackRemovesSuffix(db: Db, strategy: RollbackStrategy, d: Db)
    requires TableOk(db.rows) && Reached(db, Program(Rollback(strategy), db), d)
    ensures d.rows <= db.rows
    ensures |db.rows| - |d.rows| <= RollbackCount(db.rows, strategy)
    ensures d.rows == db.rows ==> d == db
  {
    var j := RollbackProgramReached(db, strategy, d);
    assert db.rows[..|db.rows|] == db.rows;
  }

  // ----- repair -----

  lemma {:induction false} FindPartialIsLast(rows: seq<AppliedMigration>)
    requires TableOk(rows)
    ensures FindPartial(rows) ==
      if rows != [] && rows[|rows| - 1].status == Partial then Some(rows[|rows| - 1]) else None
  {
    if rows != [] && rows[0].status != Partial {
      assert |rows| > 1 ==> rows[1..][|rows| - 2] == rows[|rows| - 1];
      FindPartialIsLast(rows[1..]);
    }
  }

  /** The table with its last row, which was PARTIAL, marked APPLIED. */
  function LastApplied(rows: seq<AppliedMigration>): seq<AppliedMigration>
    requires rows != []
  {
    rows[..|rows| - 1] + [rows[|rows| - 1].(status := Applied)]
  }

  lemma TwoSteps(db: Db, a: Statement, b: Statement, d: Db)
    requires Reached(db, [[a], [b]], d) && Exec(db, a).Some? && Exec(Exec(db, a).value, b).Some?
    ensures d == db || d == Exec(db, a).value || d == Exec(Exec(db, a).value, b).value
         || (a.MigrationSql? && d == WithEffect(db, Cut(a.sql)))
         || (b.MigrationSql? && d == WithEffect(Exec(db, a).value, Cut(b.sql)))
  {
    hide Reached, ExecGroup;
    assert [[a], [b]] == [[a]] + [[b]];
    ExecSingle(db, a);
    ReachedFirst(db, [a], [[b]], d);
    if Reached(Exec(db, a).value, [[b]], d) {
      ExecSingle(Exec(db, a).value, b);
      ReachedOnly(Exec(db, a).value, [b], d);
    }
  }

  /** The last row was PARTIAL and is now APPLIED. */
  ghost predicate LastCompleted(db: Db, d: Db) {
    && db.rows != [] && db.rows[|db.rows| - 1].status == Partial
    && d.rows == LastApplied(db.rows) && d.deps == db.deps
  }

  /** The last row was PARTIAL and is now gone. */
  ghost predicate LastRemoved(db: Db, d: Db) {
    && db.rows != [] && db.rows[|db.rows| - 1].status == Partial
    && d.rows == db.rows[..|db.rows| - 1] && d.deps == db.deps - {db.rows[|db.rows| - 1].version}
  }

  /** The stored checksum of one version is now that of the first source migration of this version. */
  ghost predicate ChecksumUpdated(db: Db, source: Source, version: string, d: Db) {
    exists i ::
      && 0 <= i < |source.versioned| && source.versioned[i].version == version
      && (forall j :: 0 <= j < i ==> source.versioned[j].version != version)
      && d == db.(rows := WithChecksum(db.rows, version, source.versioned[i].checksum))
  }

  lemma {:induction false} FindMigrationIsFirst(ms: seq<Migration>, version: string) returns (i: nat)
    ensures FindMigration(ms, version).None? ==> forall m :: m in ms ==> m.version != version
    ensures FindMigration(ms, version).Some? ==>
      && i < |ms| && FindMigration(ms, version) == Some(ms[i]) && ms[i].version == version
      && forall j :: 0 <= j < i ==> ms[j].version != version
  {
    i := 0;
    if ms != [] && ms[0].version != version {
      var n := FindMigrationIsFirst(ms[1..], version);
      i := n + 1;
      assert forall j :: 0 < j < |ms| ==> ms[j] == ms[1..][j - 1];
    }
  }

  lemma WithStatusLast(rows: seq<AppliedMigration>)
    requires TableOk(rows) && rows != []
    ensures WithStatus(rows, rows[|rows| - 1].version, Applied) == LastApplied(rows)
  {}

  /** The last row without its PARTIAL status. */
  function Completed(db: Db): Db
    requires db.rows != []
  {
    db.(rows := LastApplied(db.rows))
  }

  /** The table without its last row. */
  function Removed(db: Db): Db
    requires db.rows != []
  {
    var row := db.rows[|db.rows| - 1];
    Db(db.rows[..|db.rows| - 1], db.log, db.deps - {row.version})
  }

  /**
   What a repair of a PARTIAL last row does when no call fails: a retry executes
   the up SQL and completes the row, a skip only completes it, an undo executes
   the stored down SQL and removes the row, and is refused if there is none.
   */
  lemma RepairDone(db: Db, source: Source, strategy: RepairStrategy)
    requires TableOk(db.rows) && db.rows != [] && db.rows[|db.rows| - 1].status == Partial && !strategy.UpdateChecksum?
    ensures var row := db.rows[|db.rows| - 1];
      && (strategy == Retry ==>
            ExecAll(db, RepairProgram(db, source, strategy)) == Some(WithEffect(Completed(db), Ran(row.upSql))))
      && (strategy == Skip ==> ExecAll(db, RepairProgram(db, source, strategy)) == Some(Completed(db)))
      && (strategy == Undo && row.downSql.Some? ==>
            ExecAll(db, RepairProgram(db, source, strategy)) == Some(WithEffect(Removed(db), Ran(row.downSql.value))))
      && (strategy == Undo && row.downSql.None? ==> RepairProgram(db, source, strategy) == [])
  {
    hide ExecAll, ExecGroup, Query, TableOk, WithStatus, Without;
    var row := db.rows[|db.rows| - 1];
    QueryIsRows(db);
    FindPartialIsLast(db.rows);
    WithoutLast(db.rows);
    WithStatusLast(db.rows);
    if strategy == Skip {
      ExecSingle(db, SetStatus(row.version, Applied));
    } else if strategy == Retry {
      ExecTwo(db, MigrationSql(row.upSql), SetStatus(row.version, Applied));
    } else if row.downSql.Some? {
      ExecTwo(db, MigrationSql(row.downSql.value), DeleteRow(row.version));
    }
  }

  lemma ExecTwo(db: Db, a: Statement, b: Statement)
    requires Exec(db, a).Some?
    ensures ExecAll(db, [[a], [b]]) == Exec(Exec(db, a).value, b)
  {
    assert [[a], [b]] == [[a]] + [[b]];
    ExecAllFirst(db, [a], [[b]]);
    ExecSingle(db, a);
    ExecSingle(Exec(db, a).value, b);
  }

  /** Every database a repair can leave behind, whatever fails, with the SQL that took effect. */
  ghost predicate RepairedTo(db: Db, source: Source, strategy: RepairStrategy, d: Db) {
    || d == db
    || (strategy.UpdateChecksum? && ChecksumUpdated(db, source, strategy.version, d))
    || (db.rows != [] && db.rows[|db.rows| - 1].status == Partial && (
        var row := db.rows[|db.rows| - 1];
        || (strategy == Skip && d == Completed(db))
        || (strategy == Retry && d == WithEffect(db, Cut(row.upSql)))
        || (strategy == Retry && d == WithEffect(db, Ran(row.upSql)))
        || (strategy == Retry && d == WithEffect(Completed(db), Ran(row.upSql)))
        || (strategy == Undo && row.downSql.Some? && (
            || d == WithEffect(db, Cut(row.downSql.value))
            || d == WithEffect(db, Ran(row.downSql.value))
            || d == WithEffect(Removed(db), Ran(row.downSql.value))))))
  }

  /** What a repair, cut short anywhere, leaves behind: for each strategy, at each stop. */
  lemma RepairReached(db: Db, source: Source, strategy: RepairStrategy, d: Db)
    requires TableOk(db.rows) && Reached(db, RepairProgram(db, source, strategy), d)
    ensures RepairedTo(db, source, strategy, d)
  {
    hide Reached, Query, TableOk, Without, WithStatus, WithChecksum;
    QueryIsRows(db);
    FindPartialIsLast(db.rows);
    if strategy.UpdateChecksum? {
      var i := FindMigrationIsFirst(source.versioned, strategy.version);
      var found := FindMigration(source.versioned, strategy.version);
      if found.Some? {
        ReachedOnly(db, [SetChecksum(strategy.version, found.value.checksum)], d);
        ExecSingle(db, SetChecksum(strategy.version, found.value.checksum));
      } else {
        ReachedNothing(db, d);
      }
    } else if FindPartial(db.rows).None? {
      ReachedNothing(db, d);
    } else {
      RepairPartialReached(db, source, strategy, d);
    }
  }

  lemma RepairPartialReached(db: Db, source: Source, strategy: RepairStrategy, d: Db)
    requires TableOk(db.rows) && db.rows != [] && db.rows[|db.rows| - 1].status == Partial && !strategy.UpdateChecksum?
    requires Reached(db, RepairProgram(db, source, strategy), d)
    ensures RepairedTo(db, source, strategy, d)
  {
    hide Reached, TableOk, Query;
    var row := db.rows[|db.rows| - 1];
    QueryIsRows(db);
    FindPartialIsLast(db.rows);
    WithoutLast(db.rows);
    WithStatusLast(db.rows);
    if strategy == Skip {
      ReachedOnly(db, [SetStatus(row.version, Applied)], d);
      ExecSingle(db, SetStatus(row.version, Applied));
    } else if strategy == Retry {
      TwoSteps(db, MigrationSql(row.upSql), SetStatus(row.version, Applied), d);
    } else if row.downSql.Some? {
      TwoSteps(db, MigrationSql(row.downSql.value), DeleteRow(row.version), d);
    } else {
      ReachedNothing(db, d);
    }
  }

  /** For the invariants: the table stays, one checksum is updated, or the PARTIAL row is completed or removed. */
  lemma RepairShapes(db: Db, source: Source, strategy: RepairStrategy, d: Db)
    requires RepairedTo(db, source, strategy, d)
    ensures db.log <= d.log
    ensures (d.rows == db.rows && d.deps == db.deps)
         || (strategy.UpdateChecksum? && ChecksumUpdated(db, source, strategy.version, d))
         || LastCompleted(db, d)
         || LastRemoved(db, d)
  {}

  // ----- baseline -----

  function Baselined(db: Db, ms: seq<Migration>, order: int): Db {
    db.(rows := db.rows + RowsOf(ms, order))
  }

  lemma {:induction false} BaselineReached(db: Db, ms: seq<Migration>, order: int, d: Db) returns (k: nat)
    requires Reached(db, BaselineGroups(ms, order), d)
    ensures k <= |ms| && Recordable(db.rows, ms[..k]) && d == Baselined(db, ms[..k], order)
    decreases |ms|
  {
    assert ms[..0] == [] && db.rows + RowsOf([], order) == db.rows;
    if ms == [] || d == db {
      k := 0;
    } else {
      var row := RowOf(ms[0], order, Applied);
      var db1 := db.(rows := db.rows + [row]);
      ReachedFirst(db, [InsertRow(row, None)], BaselineGroups(ms[1..], order + 1), d);
      ExecSingle(db, InsertRow(row, None));
      var n := BaselineReached(db1, ms[1..], order + 1, d);
      k := n + 1;
      var some := ms[..k];
      assert some[0] == ms[0] && some[1..] == ms[1..][..n];
      assert RowsOf([ms[0]], order) == [row];
      RecordableFirst(db.rows, some, order);
      assert RowsOf(some, order) == [row] + RowsOf(some[1..], order + 1);
      assert db.rows + RowsOf(some, order) == db.rows + [row] + RowsOf(some[1..], order + 1);
    }
  }

  lemma BaselineProgramReached(db: Db, source: Source, version: string, d: Db) returns (k: nat)
    requires TableOk(db.rows) && Reached(db, BaselineProgram(db, source, version), d)
    ensures d == db || (db.rows == [] && k <= |UpToVersion(source.versioned, version)|
      && Recordable([], UpToVersion(source.versioned, version)[..k]) &&
        d == Baselined(db, UpToVersion(source.versioned, version)[..k], 1))
  {
    QueryIsRows(db);
    k := 0;
    if db.rows == [] {
      k := BaselineReached(db, UpToVersion(source.versioned, version), 1, d);
    }
  }

  lemma {:induction false} UpToVersionShorter(ms: seq<Migration>, version: string)
    ensures |UpToVersion(ms, version)| <= |ms|
    ensures UpToVersion(ms, version) == ms[..|UpToVersion(ms, version)|]
    ensures forall m :: m in UpToVersion(ms, version) ==> m.version == version || StrLt(m.version, version)
    ensures var n := |UpToVersion(ms, version)|; n < |ms| ==> StrLt(version, ms[n].version)
  {
    if ms != [] {
      StrLtTrichotomy(version, ms[0].version);
    }
    if ms != [] && !StrLt(version, ms[0].version) {
      UpToVersionShorter(ms[1..], version);
    }
  }

  // ----- The table invariant over whole histories -----

  lemma StoppedKeepsTable(db: Db, plan: seq<Migration>, order: int, k: nat, d: Db)
    requires Ready(db.rows, order) && StoppedAt(db, plan, order, k, d)
    ensures TableOk(d.rows)
    ensures k == |plan| && d == Recorded(db, plan, order) ==> AllApplied(d.rows)
  {
    hide Recorded, Recordable, Versions, TableOk, AllApplied;
    var done := Recorded(db, plan[..k], order);
    RecordedIsReady(db, plan[..k], order);
    if d != done {
      PartialKeepsTable(done.rows, RowOf(plan[k], order + k, Partial));
    }
    assert k == |plan| ==> plan[..k] == plan;
  }

  lemma PartialKeepsTable(rows: seq<AppliedMigration>, row: AppliedMigration)
    requires Ready(rows, row.appliedOrder) && row.version !in Versions(rows)
    ensures TableOk(rows + [row])
  {}

  lemma RepairKeepsTable(db: Db, source: Source, strategy: RepairStrategy, d: Db)
    requires TableOk(db.rows) && Reached(db, RepairProgram(db, source, strategy), d)
    ensures TableOk(d.rows)
  {
    hide Reached, RepairProgram;
    RepairReached(db, source, strategy, d);
    RepairShapes(db, source, strategy, d);
  }

  lemma BaselineKeepsTable(db: Db, source: Source, version: string, d: Db)
    requires TableOk(db.rows) && Reached(db, BaselineProgram(db, source, version), d)
    ensures TableOk(d.rows)
  {
    hide Reached, BaselineProgram, TableOk, RowsOf, Recordable, UpToVersion;
    var k := BaselineProgramReached(db, source, version, d);
    if d != db {
      RowsOfTable(UpToVersion(source.versioned, version)[..k], 1);
      assert d.rows == RowsOf(UpToVersion(source.versioned, version)[..k], 1);
    }
  }

  lemma RowsOfTable(ms: seq<Migration>, order: int)
    requires Recordable([], ms)
    ensures TableOk(RowsOf(ms, order)) && AllApplied(RowsOf(ms, order))
  {}

  /** Every operation, cut short anywhere, keeps the tracking table in order. */
  lemma OperationKeepsTable(op: Operation, db: Db, d: Db)
    requires TableOk(db.rows) && Reached(db, Program(op, db), d)
    ensures TableOk(d.rows)
  {
    hide Reached, TableOk, MigrateProgram, RollbackProgram, RepairProgram, BaselineProgram, BuildPlan;
    match op {
      case Migrate(source, target, atomic, dryRun) =>
        MigrateKeepsTable(source, target, atomic, dryRun, db, d);
      case Rollback(strategy) =>
        RollbackRemovesSuffix(db, strategy, d);
        PrefixKeepsTable(db.rows, d.rows);
      case Repair(source, strategy) =>
        RepairKeepsTable(db, source, strategy, d);
      case Baseline(source, version) =>
        BaselineKeepsTable(db, source, version, d);
    }
  }

  lemma PrefixKeepsTable(rows: seq<AppliedMigration>, fewer: seq<AppliedMigration>)
    requires TableOk(rows) && fewer <= rows
    ensures TableOk(fewer)
  {}

  lemma BuildNeedsNoPartial(pending: seq<Migration>, applied: seq<AppliedMigration>, target: Option<string>,
      atomic: bool)
    requires BuildPlan(pending, applied, target, atomic).Ok?
    ensures FirstPartial(applied).None?
  {}

  lemma MigrateKeepsTable(source: Source, target: Option<string>, atomic: bool, dryRun: bool, db: Db, d: Db)
    requires TableOk(db.rows) && Reached(db, Program(Migrate(source, target, atomic, dryRun), db), d)
    ensures TableOk(d.rows)
  {
    hide Reached, MigrateProgram, Refreshed, StoppedAt, TableOk, Query, NextOrder, BuildPlan, Recorded;
    QueryIsRows(db);
    var built := BuildPlan(source.versioned, db.rows, target, atomic);
    if built.Err? || dryRun {
      ReachedNothing(db, d);
    } else {
      BuildNeedsNoPartial(source.versioned, db.rows, target, atomic);
      ReadyForNextOrder(db.rows);
      var k, mid := MigrateReached(db, source, built.value, atomic, d);
      if d == mid {
        StoppedKeepsTable(db, built.value, NextOrder(db.rows), k, d);
      }
    }
  }
}
