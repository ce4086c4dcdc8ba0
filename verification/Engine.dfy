/**
 The migration engine over a database driver whose every call may fail. A call
 that reports an error may still have taken effect, wholly or, for migration
 SQL outside a transaction, in part.
 */
module Engine {
  import opened Wrappers
  import opened Ordering
  import opened Migrations
  import opened Plan
  import opened Programs

  type Outcome = Result<(), MigrateError>

  // ----- What the operations report -----

  function PlanVersions(plan: seq<Migration>): seq<string> {
    seq(|plan|, i requires 0 <= i < |plan| => plan[i].version)
  }

  /** What a migrate reports: the plan, then the repeatables that were due after it. */
  function MigrateReport(db: Db, source: Source, plan: seq<Migration>, atomic: bool): seq<string> {
    match ExecAll(db, VersionedGroups(plan, NextOrder(Query(db)), atomic))
    case None => PlanVersions(plan)
    case Some(mid) => PlanVersions(plan) + PlanVersions(Due(source.repeatable, Query(mid)))
  }

  /** What a rollback of `rows` reports when no call fails. */
  function RollbackReport(rows: seq<AppliedMigration>): Result<seq<string>, MigrateError> {
    if rows == [] then Ok([])
    else if rows[0].downSql.None? then Err(RollbackSkipped(rows[0].version))
    else match RollbackReport(rows[1..])
      case Ok(rest) => Ok([rows[0].version] + rest)
      case Err(e) => Err(e)
  }

  /** What a repair reports when no call fails. */
  function RepairReport(db: Db, source: Source, strategy: RepairStrategy): Result<string, MigrateError> {
    if strategy.UpdateChecksum? then
      if FindMigration(source.versioned, strategy.version).None? then Err(MigrationNotFound(strategy.version))
      else Ok(strategy.version)
    else
      match FindPartial(Query(db))
      case None => Err(Config)
      case Some(row) =>
        if strategy == Undo && row.downSql.None? then Err(RollbackSkipped(row.version)) else Ok(row.version)
  }

  class Driver {
    var db: Db

    /** Whether a call to the driver or the source has failed from outside. */
    ghost var faulty: bool

    constructor (db: Db)
      ensures this.db == db && !faulty
    {
      this.db := db;
      this.faulty := false;
    }

    /** One statement outside a transaction. */
    method Execute(s: Statement) returns (r: Outcome)
      modifies this
      ensures r.Ok? ==> Exec(old(db), s) == Some(db)
      ensures r.Err? ==> r == Err(Sql) && Reached(old(db), [[s]], db) && (faulty || Exec(old(db), s).None?)
    {
      var before := db;
      var effect := Exec(before, s);
      assert effect.Some? ==> ExecGroup(before, [s]) == effect && Reached(before, [[s]], effect.value);
      var acknowledged: bool, performed: bool, cut: bool := *, *, *;
      if effect.None? {
        return Err(Sql);
      }
      faulty := faulty || !acknowledged;
      if acknowledged || performed {
        db := effect.value;
        return if acknowledged then Ok(()) else Err(Sql);
      }
      if cut && s.MigrationSql? {
        db := WithEffect(before, Cut(s.sql));
      }
      return Err(Sql);
    }

    method Begin() returns (r: Result<Transaction, MigrateError>)
      modifies this`faulty
      ensures r.Ok? ==> fresh(r.value) && r.value.driver == this && r.value.work == db
      ensures r.Err? ==> r == Err(Sql) && faulty
    {
      var ok: bool := *;
      faulty := faulty || !ok;
      if ok {
        var tx := new Transaction(this);
        r := Ok(tx);
      } else {
        r := Err(Sql);
      }
    }

    method QueryApplied() returns (r: Result<seq<AppliedMigration>, MigrateError>)
      modifies this`faulty
      ensures r.Ok? ==> r.value == Query(db)
      ensures r.Err? ==> r == Err(Sql) && faulty
    {
      var ok: bool := *;
      faulty := faulty || !ok;
      r := if ok then Ok(Query(db)) else Err(Sql);
    }
  }

  /** An open transaction: its statements change `work` until the commit. */
  class Transaction {
    const driver: Driver
    var work: Db

    constructor (driver: Driver)
      ensures this.driver == driver && work == driver.db
    {
      this.driver := driver;
      this.work := driver.db;
    }

    method Execute(s: Statement) returns (r: Outcome)
      modifies this, driver`faulty
      ensures r.Ok? ==> Exec(old(work), s) == Some(work)
      ensures r.Err? ==> r == Err(Sql) && (driver.faulty || Exec(old(work), s).None?)
    {
      var ok: bool := *;
      driver.faulty := driver.faulty || !ok;
      var effect := Exec(work, s);
      if ok && effect.Some? {
        work := effect.value;
        return Ok(());
      }
      work := *;
      return Err(Sql);
    }

    /** A commit that reports an error may or may not have been carried out. */
    method Commit() returns (r: Outcome)
      modifies driver
      ensures r.Ok? ==> driver.db == work
      ensures r.Err? ==> r == Err(Sql) && driver.faulty && (driver.db == old(driver.db) || driver.db == work)
    {
      var acknowledged: bool, performed: bool := *, *;
      driver.faulty := driver.faulty || !acknowledged;
      if acknowledged || performed {
        driver.db := work;
      }
      return if acknowledged then Ok(()) else Err(Sql);
    }

    /** The driver's database stays as it is, whether the call succeeds or not. */
    method Discard() returns (r: Outcome)
      modifies driver`faulty
      ensures r.Err? ==> r == Err(Sql) && driver.faulty
      ensures old(driver.faulty) ==> driver.faulty
    {
      var ok: bool := *;
      driver.faulty := driver.faulty || !ok;
      return if ok then Ok(()) else Err(Sql);
    }
  }

  /** After the part `a` of a program has run, stopping in its next group `g`. */
  lemma StoppedIn(db: Db, a: seq<Group>, g: Group, rest: seq<Group>, d: Db)
    requires ExecAll(db, a).Some? && Reached(ExecAll(db, a).value, [g], d)
    ensures Reached(db, a + ([g] + rest), d)
    ensures ExecGroup(ExecAll(db, a).value, g).None? ==> ExecAll(db, a + ([g] + rest)).None?
  {
    ExecAllConcat(db, a, [g] + rest);
    var mid := ExecAll(db, a).value;
    assert ([g] + rest)[0] == g;
    assert [g][1..] == [];
    assert Reached(mid, [g] + rest, d) by {
      if d != mid && ExecGroup(mid, g).Some? && Reached(ExecGroup(mid, g).value, [], d) {
        assert d == ExecGroup(mid, g).value;
        assert Reached(d, ([g] + rest)[1..], d);
      }
    }
    ReachedConcat(db, a, [g] + rest, d);
  }

  /** After the part `a`, the next group `g` has run. */
  lemma Advanced(db: Db, a: seq<Group>, g: Group)
    requires ExecAll(db, a).Some?
    ensures ExecAll(db, a + [g]) == ExecGroup(ExecAll(db, a).value, g)
  {
    ExecAllConcat(db, a, [g]);
    assert [g][1..] == [];
  }

  lemma ReachedStart(db: Db, gs: seq<Group>)
    ensures Reached(db, gs, db)
  {}

  lemma MigrateCutInVersioned(db: Db, source: Source, plan: seq<Migration>, atomic: bool, d: Db)
    requires Reached(db, VersionedGroups(plan, NextOrder(Query(db)), atomic), d)
    ensures Reached(db, MigrateProgram(db, source, plan, atomic), d)
    ensures ExecAll(db, VersionedGroups(plan, NextOrder(Query(db)), atomic)).None? ==>
      ExecAll(db, MigrateProgram(db, source, plan, atomic)).None?
  {
    var order := NextOrder(Query(db));
    var versioned := VersionedGroups(plan, order, atomic);
    hide Reached, VersionedGroups, RepeatablePhase, Query, NextOrder;
    if ExecAll(db, versioned).Some? {
      ReachedWeaken(db, versioned, RepeatablePhase(ExecAll(db, versioned).value, source, order + |plan|), d);
    }
  }

  lemma MigrateCutInRepeatables(db: Db, source: Source, plan: seq<Migration>, atomic: bool, mid: Db, d: Db)
    requires ExecAll(db, VersionedGroups(plan, NextOrder(Query(db)), atomic)) == Some(mid)
    requires Reached(mid, RepeatablePhase(mid, source, NextOrder(Query(db)) + |plan|), d)
    ensures Reached(db, MigrateProgram(db, source, plan, atomic), d)
  {
    hide Reached, Query, NextOrder, VersionedGroups, RepeatablePhase;
    var order := NextOrder(Query(db));
    ReachedConcat(db, VersionedGroups(plan, order, atomic), RepeatablePhase(mid, source, order + |plan|), d);
  }

  lemma MigrateDone(db: Db, source: Source, plan: seq<Migration>, atomic: bool, mid: Db)
    requires ExecAll(db, VersionedGroups(plan, NextOrder(Query(db)), atomic)) == Some(mid)
    ensures ExecAll(db, MigrateProgram(db, source, plan, atomic))
         == ExecAll(mid, RepeatablePhase(mid, source, NextOrder(Query(db)) + |plan|))
  {
    hide ExecAll, Query, NextOrder, VersionedGroups, RepeatablePhase;
    var order := NextOrder(Query(db));
    ExecAllConcat(db, VersionedGroups(plan, order, atomic), RepeatablePhase(mid, source, order + |plan|));
  }

  lemma AtomicStops(db: Db, plan: seq<Migration>, order: int, i: nat)
    requires i <= |plan|
    ensures ExecGroup(db, AtomicGroup(plan[..i], order)).None? ==> ExecAll(db, [AtomicGroup(plan, order)]).None?
  {
    hide AtomicGroup, ExecGroup;
    AtomicGroupSplit(plan, i, order);
    if ExecGroup(db, AtomicGroup(plan[..i], order)).None? {
      ExecGroupFails(db, AtomicGroup(plan[..i], order), AtomicGroup(plan[i..], order + i));
    }
  }

  /** Where the groups of the `i`-th migration stand in a sequential run. */
  lemma SequentialGroupsAt(plan: seq<Migration>, i: nat, order: int) returns (rest: seq<Group>)
    requires i < |plan|
    ensures SequentialGroups(plan[..i + 1], order)
         == SequentialGroups(plan[..i], order) + MigrationGroups(plan[i], order + i)
    ensures SequentialGroups(plan, order)
         == SequentialGroups(plan[..i], order) + (MigrationGroups(plan[i], order + i) + rest)
  {
    hide MigrationGroups;
    rest := SequentialGroups(plan[i + 1..], order + i + 1);
    SequentialGroupsSplit(plan, i, order);
    SequentialGroupsSplit(plan[..i + 1], i, order);
    assert plan[i..][0] == plan[i] && plan[i..][1..] == plan[i + 1..];
    assert plan[..i + 1][..i] == plan[..i] && plan[..i + 1][i..] == [plan[i]];
    assert [plan[i]][1..] == [];
  }

  /** Where the row of the `i`-th migration stands in a baseline. */
  lemma BaselineGroupsAt(ms: seq<Migration>, i: nat, order: int) returns (rest: seq<Group>)
    requires i < |ms|
    ensures var g := [InsertRow(RowOf(ms[i], order + i, Applied), None)];
      && BaselineGroups(ms[..i + 1], order) == BaselineGroups(ms[..i], order) + [g]
      && BaselineGroups(ms, order) == BaselineGroups(ms[..i], order) + ([g] + rest)
  {
    rest := BaselineGroups(ms[i + 1..], order + i + 1);
    BaselineGroupsSplit(ms, i, order);
    BaselineGroupsSplit(ms[..i + 1], i, order);
    assert ms[i..][0] == ms[i] && ms[i..][1..] == ms[i + 1..];
    assert ms[..i + 1][..i] == ms[..i] && ms[..i + 1][i..] == [ms[i]];
    assert [ms[i]][1..] == [];
  }

  /** Where the groups of the `i`-th due repeatable stand in the program. */
  lemma RepeatableGroupsAt(due: seq<Migration>, i: nat, known: set<string>, order: int) returns (rest: seq<Group>)
    requires i < |due|
    ensures var next := order + NewCount(due[..i], known);
      var gs := [[MigrationSql(due[i].upSql)], [RecordRepeatable(due[i], known, next)]];
      && RepeatableGroups(due[..i + 1], known, order) == RepeatableGroups(due[..i], known, order) + gs
      && RepeatableGroups(due, known, order) == RepeatableGroups(due[..i], known, order) + (gs + rest)
      && NewCount(due[..i + 1], known) == NewCount(due[..i], known) + (if due[i].version in known then 0 else 1)
  {
    var next := order + NewCount(due[..i], known);
    rest := RepeatableGroups(due[i + 1..], known, if due[i].version in known then next else next + 1);
    RepeatableGroupsSplit(due, i, known, order);
    RepeatableGroupsSplit(due[..i + 1], i, known, order);
    NewCountAppend(due, i, known);
    assert due[i..][0] == due[i] && due[i..][1..] == due[i + 1..];
    assert due[..i + 1][..i] == due[..i] && due[..i + 1][i..] == [due[i]];
    assert [due[i]][1..] == [];
  }

  /** `gs` comes after `done` and before `rest`: stopping inside it, and getting past it. */
  lemma StoppedAmong(db: Db, done: seq<Group>, gs: seq<Group>, rest: seq<Group>, d: Db)
    requires ExecAll(db, done).Some? && Reached(ExecAll(db, done).value, gs, d)
    ensures Reached(db, done + (gs + rest), d)
    ensures ExecAll(ExecAll(db, done).value, gs).None? ==> ExecAll(db, done + (gs + rest)).None?
  {
    ExecAllConcat(db, done, gs + rest);
    if ExecAll(ExecAll(db, done).value, gs).None? {
      ExecAllFails(ExecAll(db, done).value, gs, rest);
    }
    ReachedWeaken(ExecAll(db, done).value, gs, rest, d);
    ReachedConcat(db, done, gs + rest, d);
  }

  /** Where the transaction of the `i`-th row stands in a rollback. */
  lemma {:induction false} RollbackGroupsAt(rows: seq<AppliedMigration>, i: nat)
    requires i <= |rows|
    requires forall j :: 0 <= j < i ==> rows[j].downSql.Some?
    ensures RollbackGroups(rows) == RollbackGroups(rows[..i]) + RollbackGroups(rows[i..])
  {
    if i == 0 {
      assert rows[..0] == [] && rows[0..] == rows;
    } else {
      RollbackGroupsAt(rows[1..], i - 1);
      assert rows[1..][..i - 1] == rows[..i][1..] && rows[1..][i - 1..] == rows[i..];
    }
  }

  function RollbackGroup(row: AppliedMigration): Group
    requires row.downSql.Some?
  {
    [MigrationSql(row.downSql.value), DeleteRow(row.version)]
  }

  lemma RollbackGroupsStep(rows: seq<AppliedMigration>, i: nat) returns (rest: seq<Group>)
    requires i < |rows|
    requires forall j :: 0 <= j <= i ==> rows[j].downSql.Some?
    ensures RollbackGroups(rows[..i + 1]) == RollbackGroups(rows[..i]) + [RollbackGroup(rows[i])]
    ensures RollbackGroups(rows) == RollbackGroups(rows[..i]) + ([RollbackGroup(rows[i])] + rest)
  {
    rest := RollbackGroups(rows[i + 1..]);
    RollbackGroupsAt(rows, i);
    RollbackGroupsAt(rows[..i + 1], i);
    assert rows[i..][0] == rows[i] && rows[i..][1..] == rows[i + 1..];
    assert rows[..i + 1][..i] == rows[..i] && rows[..i + 1][i..] == [rows[i]];
    assert [rows[i]][1..] == [];
  }

  class MigrationEngine {
    const driver: Driver

    constructor (driver: Driver)
      ensures this.driver == driver
    {
      this.driver := driver;
    }

    /** Reading the migration files. */
    method LoadSource() returns (ok: bool)
      modifies driver`faulty
      ensures !ok ==> driver.faulty
    {
      ok := *;
      driver.faulty := driver.faulty || !ok;
    }

    /** Two single statements in a row, the second only if the first succeeded. */
    method ExecuteBoth(first: Statement, second: Statement) returns (r: Outcome)
      modifies driver
      ensures r.Ok? ==> ExecAll(old(driver.db), [[first], [second]]) == Some(driver.db)
      ensures Reached(old(driver.db), [[first], [second]], driver.db)
      ensures r.Err? ==> r == Err(Sql) && (driver.faulty || ExecAll(old(driver.db), [[first], [second]]).None?)
    {
      ghost var db0 := driver.db;
      assert [] + ([[first]] + [[second]]) == [[first], [second]];
      assert [[first]] + ([[second]] + []) == [[first], [second]] == [[first]] + [[second]];
      r := driver.Execute(first);
      ExecSingle(db0, first);
      if r.Err? {
        StoppedIn(db0, [], [first], [[second]], driver.db);
        return;
      }
      Advanced(db0, [], [first]);
      assert [] + [[first]] == [[first]];
      ghost var db1 := driver.db;
      r := driver.Execute(second);
      ExecSingle(db1, second);
      if r.Err? {
        StoppedIn(db0, [[first]], [second], [], driver.db);
        return;
      }
      Advanced(db0, [[first]], [second]);
      ExecAllReached(db0, [[first], [second]]);
    }

    /** The migration's SQL and its row, both in the open transaction. */
    method RunAndRecord(tx: Transaction, m: Migration, order: int) returns (r: Outcome)
      modifies tx, tx.driver`faulty
      ensures r.Ok? ==> ExecGroup(old(tx.work), TransactionGroup(m, order)) == Some(tx.work)
      ensures r.Err? ==> r == Err(Sql)
      ensures r.Err? ==> tx.driver.faulty || ExecGroup(old(tx.work), TransactionGroup(m, order)).None?
    {
      r := tx.Execute(MigrationSql(m.upSql));
      if r.Err? {
        return;
      }
      ExecPair(old(tx.work), MigrationSql(m.upSql), InsertRow(RowOf(m, order, Applied), Some(m.needs)));
      r := tx.Execute(InsertRow(RowOf(m, order, Applied), Some(m.needs)));
    }

    /** PARTIAL row, SQL, final status; an error leaves what was done in place. */
    method RunNoTransaction(m: Migration, order: int) returns (r: Outcome)
      modifies driver
      ensures r.Ok? ==> ExecAll(old(driver.db), NoTransactionGroups(m, order)) == Some(driver.db)
      ensures r.Err? ==> r == Err(Sql) && Reached(old(driver.db), NoTransactionGroups(m, order), driver.db)
      ensures r.Err? ==> driver.faulty || ExecAll(old(driver.db), NoTransactionGroups(m, order)).None?
    {
      ghost var db0 := driver.db;
      ghost var gs := NoTransactionGroups(m, order);
      assert gs[..1] == [] + [gs[0]] && gs[..2] == gs[..1] + [gs[1]] && gs == gs[..2] + [gs[2]];
      assert gs == [] + ([gs[0]] + gs[1..]) && gs == gs[..1] + ([gs[1]] + gs[2..]) && gs == gs[..2] + ([gs[2]] + []);
      r := driver.Execute(InsertRow(RowOf(m, order, Partial), Some(m.needs)));
      ExecSingle(db0, gs[0][0]);
      if r.Err? {
        StoppedIn(db0, [], gs[0], gs[1..], driver.db);
        return;
      }
      Advanced(db0, [], gs[0]);
      ghost var db1 := driver.db;
      r := driver.Execute(MigrationSql(m.upSql));
      ExecSingle(db1, gs[1][0]);
      if r.Err? {
        StoppedIn(db0, gs[..1], gs[1], gs[2..], driver.db);
        return;
      }
      Advanced(db0, gs[..1], gs[1]);
      ghost var db2 := driver.db;
      r := driver.Execute(SetStatus(m.version, Applied));
      ExecSingle(db2, gs[2][0]);
      if r.Err? {
        StoppedIn(db0, gs[..2], gs[2], [], driver.db);
        return;
      }
      Advanced(db0, gs[..2], gs[2]);
    }

    /** One migration in its own transaction. */
    method RunInTransaction(m: Migration, order: int) returns (r: Outcome)
      modifies driver
      ensures r.Ok? ==> ExecAll(old(driver.db), [TransactionGroup(m, order)]) == Some(driver.db)
      ensures r.Err? ==> r == Err(Sql) && Reached(old(driver.db), [TransactionGroup(m, order)], driver.db)
      ensures r.Err? ==> driver.faulty || ExecAll(old(driver.db), [TransactionGroup(m, order)]).None?
    {
      ghost var g := TransactionGroup(m, order);
      assert [g][1..] == [];
      var begun := driver.Begin();
      if begun.Err? {
        return Err(Sql);
      }
      var tx := begun.value;
      r := RunAndRecord(tx, m, order);
      if r.Err? {
        var discarded := tx.Discard();
        return if discarded.Err? then discarded else r;
      }
      r := tx.Commit();
    }

    /** Every migration of the plan in a single transaction. */
    method ExecuteAtomic(plan: seq<Migration>, order: int) returns (r: Result<int, MigrateError>)
      modifies driver
      ensures r.Ok? ==> r.value == order + |plan|
      ensures r.Ok? ==> ExecAll(old(driver.db), [AtomicGroup(plan, order)]) == Some(driver.db)
      ensures r.Err? ==> r == Err(Sql) && Reached(old(driver.db), [AtomicGroup(plan, order)], driver.db)
      ensures r.Err? ==> driver.faulty || ExecAll(old(driver.db), [AtomicGroup(plan, order)]).None?
    {
      ghost var g := AtomicGroup(plan, order);
      assert [g][1..] == [];
      var begun := driver.Begin();
      if begun.Err? {
        return Err(Sql);
      }
      var tx := begun.value;
      for i := 0 to |plan|
        invariant ExecGroup(old(driver.db), AtomicGroup(plan[..i], order)) == Some(tx.work)
        invariant driver.db == old(driver.db)
      {
        AtomicGroupSplit(plan[..i + 1], i, order);
        assert plan[..i + 1][..i] == plan[..i] && plan[..i + 1][i..] == [plan[i]];
        ExecGroupConcat(old(driver.db), AtomicGroup(plan[..i], order), AtomicGroup([plan[i]], order + i));
        assert AtomicGroup([plan[i]], order + i) == TransactionGroup(plan[i], order + i) by {
          assert [plan[i]][1..] == [];
        }
        var ran := RunAndRecord(tx, plan[i], order + i);
        if ran.Err? {
          AtomicStops(old(driver.db), plan, order, i + 1);
          var discarded := tx.Discard();
          return if discarded.Err? then Err(discarded.error) else Err(ran.error);
        }
      }
      assert plan[..|plan|] == plan;
      var committed := tx.Commit();
      return if committed.Err? then Err(committed.error) else Ok(order + |plan|);
    }

    /** Each migration of the plan on its own, until one fails. */
    method ExecuteSequential(plan: seq<Migration>, order: int) returns (r: Result<int, MigrateError>)
      modifies driver
      ensures r.Ok? ==> r.value == order + |plan|
      ensures r.Ok? ==> ExecAll(old(driver.db), SequentialGroups(plan, order)) == Some(driver.db)
      ensures r.Err? ==> r == Err(Sql) && Reached(old(driver.db), SequentialGroups(plan, order), driver.db)
      ensures r.Err? ==> driver.faulty || ExecAll(old(driver.db), SequentialGroups(plan, order)).None?
    {
      hide Reached;
      ghost var db0 := driver.db;
      for i := 0 to |plan|
        invariant ExecAll(db0, SequentialGroups(plan[..i], order)) == Some(driver.db)
      {
        var m := plan[i];
        ghost var done := SequentialGroups(plan[..i], order);
        ghost var next := MigrationGroups(m, order + i);
        ghost var rest := SequentialGroupsAt(plan, i, order);
        ExecAllConcat(db0, done, next);

        var ran;
        if m.noTransaction {
          ran := RunNoTransaction(m, order + i);
        } else {
          ran := RunInTransaction(m, order + i);
        }
        if ran.Err? {
          StoppedAmong(db0, done, next, rest, driver.db);
          return Err(ran.error);
        }
      }
      assert plan[..|plan|] == plan;
      return Ok(order + |plan|);
    }

    /** Every repeatable that is new or whose checksum changed: execute, then record. */
    method ApplyRepeatables(source: Source, order: int) returns (r: Outcome, ran: seq<string>)
      modifies driver
      ensures r.Ok? ==> ExecAll(old(driver.db), RepeatablePhase(old(driver.db), source, order)) == Some(driver.db)
      ensures r.Ok? ==> ran == PlanVersions(Due(source.repeatable, Query(old(driver.db))))
      ensures r.Err? ==> Reached(old(driver.db), RepeatablePhase(old(driver.db), source, order), driver.db)
      ensures r.Err? ==> driver.faulty || ExecAll(old(driver.db), RepeatablePhase(old(driver.db), source, order)).None?
    {
      hide Reached, ExecAll, ExecGroup, Exec, RecordRepeatable, RepeatableGroups, NewCount, Due, Query, Versions;
      ReachedStart(driver.db, RepeatablePhase(driver.db, source, order));
      ghost var db0 := driver.db;
      ran := [];
      var loaded := LoadSource();
      if !loaded {
        return Err(Config), ran;
      }
      var queried := driver.QueryApplied();
      if queried.Err? {
        return Err(queried.error), ran;
      }
      var applied := queried.value;
      var known := Versions(applied);
      QueryVersions(db0);

      var due := Due(source.repeatable, applied);
      assert due[..0] == [];
      NothingRepeated(db0, known, order);
      var next := order;
      for i := 0 to |due|
        invariant next == order + NewCount(due[..i], known)
        invariant ExecAll(db0, RepeatableGroups(due[..i], known, order)) == Some(driver.db)
        invariant |ran| == i && forall j :: 0 <= j < i ==> ran[j] == due[j].version
      {
        var m := due[i];
        var last := RecordRepeatable(m, known, next);
        ghost var done := RepeatableGroups(due[..i], known, order);
        ghost var gs := [[MigrationSql(m.upSql)], [last]];
        ghost var rest := RepeatableGroupsAt(due, i, known, order);
        r := ExecuteBoth(MigrationSql(m.upSql), last);
        if r.Err? {
          StoppedAmong(db0, done, gs, rest, driver.db);
          return;
        }
        ExecAllConcat(db0, done, gs);
        if m.version !in known {
          next := next + 1;
        }
        ran := ran + [m.version];
      }
      assert due[..|due|] == due;
      r := Ok(());
    }

    /** The versioned phase, then the repeatables. */
    method RunPlan(source: Source, plan: seq<Migration>, order: int, atomic: bool)
      returns (r: Result<seq<string>, MigrateError>)
      requires order == NextOrder(Query(driver.db))
      modifies driver
      ensures r.Ok? ==> ExecAll(old(driver.db), MigrateProgram(old(driver.db), source, plan, atomic)) == Some(driver.db)
      ensures r.Ok? ==> r.value == MigrateReport(old(driver.db), source, plan, atomic)
      ensures r.Err? ==> Reached(old(driver.db), MigrateProgram(old(driver.db), source, plan, atomic), driver.db)
      ensures r.Err? && !driver.faulty ==>
        ExecAll(old(driver.db), MigrateProgram(old(driver.db), source, plan, atomic)).None?
    {
      hide Reached, ExecAll, ExecGroup, MigrateProgram, RepeatablePhase, NextOrder, Query;
      var executed;
      if atomic {
        executed := ExecuteAtomic(plan, order);
      } else {
        executed := ExecuteSequential(plan, order);
      }
      if executed.Err? {
        MigrateCutInVersioned(old(driver.db), source, plan, atomic, driver.db);
        return Err(executed.error);
      }
      ghost var mid := driver.db;
      MigrateDone(old(driver.db), source, plan, atomic, mid);
      var repeated, ran := ApplyRepeatables(source, executed.value);
      if repeated.Err? {
        MigrateCutInRepeatables(old(driver.db), source, plan, atomic, mid, driver.db);
        return Err(repeated.error);
      }
      return Ok(PlanVersions(plan) + ran);
    }

    /** On success the versions that were run, in the order they ran. */
    method MigrateInner(source: Source, target: Option<string>, atomic: bool, dryRun: bool)
      returns (r: Result<seq<string>, MigrateError>)
      modifies driver
      ensures Reached(old(driver.db), Program(Migrate(source, target, atomic, dryRun), old(driver.db)), driver.db)
      ensures r.Ok? ==>
        && BuildPlan(source.versioned, Query(old(driver.db)), target, atomic).Ok?
        && ExecAll(old(driver.db), Program(Migrate(source, target, atomic, dryRun), old(driver.db))) == Some(driver.db)
        && var plan := BuildPlan(source.versioned, Query(old(driver.db)), target, atomic).value;
           r.value == if dryRun then PlanVersions(plan) else MigrateReport(old(driver.db), source, plan, atomic)
      ensures r.Err? && !driver.faulty ==>
        match BuildPlan(source.versioned, Query(old(driver.db)), target, atomic)
        case Err(e) => r.error == e && driver.db == old(driver.db)
        case Ok(plan) => !dryRun && ExecAll(old(driver.db), MigrateProgram(old(driver.db), source, plan, atomic)).None?
      ensures BuildPlan(source.versioned, Query(old(driver.db)), target, atomic).Err? ==>
        r.Err? && driver.db == old(driver.db)
      ensures dryRun ==> driver.db == old(driver.db)
    {
      var queried := driver.QueryApplied();
      if queried.Err? {
        return Err(queried.error);
      }
      var loaded := LoadSource();
      if !loaded {
        return Err(Config);
      }
      var built := Build(source.versioned, queried.value, target, atomic);
      if built.Err? {
        return Err(built.error);
      }
      var plan := built.value;
      if dryRun {
        return Ok(PlanVersions(plan));
      }
      var again := driver.QueryApplied();
      if again.Err? {
        return Err(again.error);
      }
      r := RunPlan(source, plan, NextOrder(again.value), atomic);
      if r.Ok? {
        ExecAllReached(old(driver.db), MigrateProgram(old(driver.db), source, plan, atomic));
      }
    }

    /** On success the rolled-back versions, latest first. */
    method RollbackInner(strategy: RollbackStrategy) returns (r: Result<seq<string>, MigrateError>)
      modifies driver
      ensures Reached(old(driver.db), Program(Rollback(strategy), old(driver.db)), driver.db)
      ensures r.Ok? ==>
        && ExecAll(old(driver.db), Program(Rollback(strategy), old(driver.db))) == Some(driver.db)
        && FirstPartial(Query(old(driver.db))).None?
        && r == RollbackReport(ToRollback(Query(old(driver.db)), strategy))
      ensures r.Err? && !driver.faulty ==>
        match FirstPartial(Query(old(driver.db)))
        case Some(e) => r == Err(e)
        case None => r == RollbackReport(ToRollback(Query(old(driver.db)), strategy))
      ensures FirstPartial(Query(old(driver.db))).Some? ==> r.Err? && driver.db == old(driver.db)
    {
      ghost var db0 := driver.db;
      var queried := driver.QueryApplied();
      if queried.Err? {
        return Err(queried.error);
      }
      var applied := queried.value;
      for i := 0 to |applied|
        invariant FirstPartial(applied) == FirstPartial(applied[i..])
      {
        if applied[i].status == Partial {
          return Err(PartialBlocking(applied[i].version));
        }
      }

      r := RollbackRows(ToRollback(applied, strategy));
      if r.Ok? {
        ExecAllReached(old(driver.db), Program(Rollback(strategy), old(driver.db)));
      }
    }

    /** Each row in its own transaction, stopping at one without down SQL. */
    method RollbackRows(rows: seq<AppliedMigration>) returns (r: Result<seq<string>, MigrateError>)
      modifies driver
      ensures r.Ok? ==> ExecAll(old(driver.db), RollbackGroups(rows)) == Some(driver.db)
      ensures r.Ok? || !driver.faulty ==> r == RollbackReport(rows)
      ensures r.Err? ==> Reached(old(driver.db), RollbackGroups(rows), driver.db)
    {
      hide Reached;
      ghost var db0 := driver.db;
      var rolledBack: seq<string> := [];
      assert rows[0..] == rows;
      ReportedNothing(RollbackReport(rows));
      for i := 0 to |rows|
        invariant ExecAll(db0, RollbackGroups(rows[..i])) == Some(driver.db)
        invariant forall j :: 0 <= j < i ==> rows[j].downSql.Some?
        invariant RollbackReport(rows) == Reported(rolledBack, RollbackReport(rows[i..]))
      {
        ReportedFirst(rolledBack, rows[i..]);
        assert rows[i..][1..] == rows[i + 1..];
        ghost var done := RollbackGroups(rows[..i]);
        if rows[i].downSql.None? {
          RollbackGroupsAt(rows, i);
          assert RollbackGroups(rows) == done;
          ExecAllReached(db0, done);
          return Err(RollbackSkipped(rows[i].version));
        }
        ghost var rest := RollbackGroupsStep(rows, i);
        var undone := RollbackRow(rows[i]);
        if undone.Err? {
          StoppedIn(db0, done, RollbackGroup(rows[i]), rest, driver.db);
          return Err(undone.error);
        }
        Advanced(db0, done, RollbackGroup(rows[i]));
        rolledBack := rolledBack + [rows[i].version];
      }
      assert rows[..|rows|] == rows && rows[|rows|..] == [] && rolledBack + [] == rolledBack;
      return Ok(rolledBack);
    }

    method RollbackRow(row: AppliedMigration) returns (r: Outcome)
      requires row.downSql.Some?
      modifies driver
      ensures r.Ok? ==> ExecGroup(old(driver.db), RollbackGroup(row)) == Some(driver.db)
      ensures r.Err? ==> Reached(old(driver.db), [RollbackGroup(row)], driver.db) && driver.faulty
    {
      ghost var g: Group := RollbackGroup(row);
      var begun := driver.Begin();
      if begun.Err? {
        return Err(begun.error);
      }
      var tx := begun.value;
      r := tx.Execute(MigrationSql(row.downSql.value));
      if r.Err? {
        return;
      }
      ExecPair(driver.db, g[0], g[1]);
      r := tx.Execute(DeleteRow(row.version));
      if r.Err? {
        return;
      }
      r := tx.Commit();
    }

    method RepairInner(source: Source, strategy: RepairStrategy) returns (r: Result<string, MigrateError>)
      modifies driver
      ensures Reached(old(driver.db), Program(Repair(source, strategy), old(driver.db)), driver.db)
      ensures r.Ok? ==>
        && Program(Repair(source, strategy), old(driver.db)) != []
        && ExecAll(old(driver.db), Program(Repair(source, strategy), old(driver.db))) == Some(driver.db)
      ensures r.Ok? || !driver.faulty ==> r == RepairReport(old(driver.db), source, strategy)
    {
      ghost var db0 := driver.db;
      if strategy.UpdateChecksum? {
        var loaded := LoadSource();
        if !loaded {
          return Err(Config);
        }
        var found := FindMigration(source.versioned, strategy.version);
        if found.None? {
          return Err(MigrationNotFound(strategy.version));
        }
        var s := SetChecksum(strategy.version, found.value.checksum);
        var set_ := driver.Execute(s);
        ExecSingle(db0, s);
        if set_.Err? {
          return Err(set_.error);
        }
        ExecAllReached(db0, [[s]]);
        return Ok(strategy.version);
      }

      var queried := driver.QueryApplied();
      if queried.Err? {
        return Err(queried.error);
      }
      var partial := FindPartial(queried.value);
      if partial.None? {
        return Err(Config);
      }
      var row := partial.value;
      NeverRefused(db0, row.upSql, SetStatus(row.version, Applied));
      var done;
      if strategy == Retry {
        done := ExecuteBoth(MigrationSql(row.upSql), SetStatus(row.version, Applied));
      } else if strategy == Skip {
        done := driver.Execute(SetStatus(row.version, Applied));
        ExecSingle(db0, SetStatus(row.version, Applied));
        if done.Ok? {
          ExecAllReached(db0, [[SetStatus(row.version, Applied)]]);
        }
      } else {
        if row.downSql.None? {
          return Err(RollbackSkipped(row.version));
        }
        NeverRefused(db0, row.downSql.value, DeleteRow(row.version));
        done := ExecuteBoth(MigrationSql(row.downSql.value), DeleteRow(row.version));
      }
      return if done.Err? then Err(done.error) else Ok(row.version);
    }

    method BaselineInner(source: Source, version: string) returns (r: Outcome)
      modifies driver
      ensures Reached(old(driver.db), Program(Baseline(source, version), old(driver.db)), driver.db)
      ensures r.Ok? ==>
        && old(driver.db).rows == []
        && ExecAll(old(driver.db), Program(Baseline(source, version), old(driver.db))) == Some(driver.db)
      ensures r.Err? && !driver.faulty ==>
        if old(driver.db).rows != [] then r == Err(Config)
        else ExecAll(old(driver.db), Program(Baseline(source, version), old(driver.db))).None?
      ensures old(driver.db).rows != [] ==> r.Err? && driver.db == old(driver.db)
    {
      hide Reached, ExecAll, ExecGroup, Exec, StrLt, Query, UpToVersion, BaselineGroups;
      ReachedStart(driver.db, Program(Baseline(source, version), driver.db));
      ghost var db0 := driver.db;
      var queried := driver.QueryApplied();
      QueryEmpty(db0);
      if queried.Err? {
        return Err(queried.error);
      }
      if queried.value != [] {
        return Err(Config);
      }
      var loaded := LoadSource();
      if !loaded {
        return Err(Config);
      }
      var all := source.versioned;
      ghost var ms := UpToVersion(all, version);
      var i, order := 0, 1;
      assert ms[..0] == [] && ms[0..] == ms && all[0..] == all;
      NothingBaselined(db0);
      while i < |all| && !StrLt(version, all[i].version)
        invariant 0 <= i <= |all| && order == 1 + i
        invariant i <= |ms| && ms[..i] == all[..i] && ms[i..] == UpToVersion(all[i..], version)
        invariant ExecAll(db0, BaselineGroups(ms[..i], 1)) == Some(driver.db)
      {
        var m := all[i];
        UpToVersionFirst(all[i..], version);
        assert all[i..][0] == m && all[i..][1..] == all[i + 1..];
        assert ms[i..][0] == m && ms[i..][1..] == ms[i + 1..];
        ghost var done := BaselineGroups(ms[..i], 1);
        ghost var rest := BaselineGroupsAt(ms, i, 1);
        var s := InsertRow(RowOf(m, order, Applied), None);
        ghost var db1 := driver.db;
        r := driver.Execute(s);
        ExecSingle(db1, s);
        if r.Err? {
          StoppedIn(db0, done, [s], rest, driver.db);
          return;
        }
        Advanced(db0, done, [s]);
        i, order := i + 1, order + 1;
      }
      UpToVersionFirst(all[i..], version);
      assert ms[i..] == [];
      assert ms[..i] == ms;
      ExecAllReached(db0, BaselineGroups(ms, 1));
      r := Ok(());
    }
  }

  /** The versions rolled back so far, in front of a report on the rest. */
  function Reported(versions: seq<string>, rest: Result<seq<string>, MigrateError>): Result<seq<string>, MigrateError> {
    if rest.Ok? then Ok(versions + rest.value) else rest
  }

  lemma ReportedNothing(rest: Result<seq<string>, MigrateError>)
    ensures Reported([], rest) == rest
  {
    assert rest.Ok? ==> [] + rest.value == rest.value;
  }

  lemma ReportedFirst(versions: seq<string>, rows: seq<AppliedMigration>)
    requires rows != []
    ensures Reported(versions, RollbackReport(rows)) ==
      if rows[0].downSql.None? then Err(RollbackSkipped(rows[0].version))
      else Reported(versions + [rows[0].version], RollbackReport(rows[1..]))
  {
    var rest := RollbackReport(rows[1..]);
    assert rest.Ok? ==> versions + ([rows[0].version] + rest.value) == versions + [rows[0].version] + rest.value;
  }

  /** Only an INSERT can be refused by the table. */
  lemma NeverRefused(db: Db, sql: string, s: Statement)
    requires s.SetStatus? || s.DeleteRow?
    ensures Exec(db, s).Some? && ExecAll(db, [[MigrationSql(sql)], [s]]).Some?
  {
    ExecSingle(db, MigrationSql(sql));
    ExecSingle(WithEffect(db, Ran(sql)), s);
    ExecAllConcat(db, [[MigrationSql(sql)]], [[s]]);
    assert [[MigrationSql(sql)]] + [[s]] == [[MigrationSql(sql)], [s]];
  }

  lemma NothingRepeated(db: Db, known: set<string>, order: int)
    ensures NewCount([], known) == 0 && ExecAll(db, RepeatableGroups([], known, order)) == Some(db)
  {}

  lemma NothingBaselined(db: Db)
    ensures ExecAll(db, BaselineGroups([], 1)) == Some(db)
  {}

  lemma UpToVersionFirst(all: seq<Migration>, version: string)
    ensures UpToVersion(all, version) ==
      if all == [] || StrLt(version, all[0].version) then [] else [all[0]] + UpToVersion(all[1..], version)
  {}

  lemma QueryVersions(db: Db)
    ensures Versions(Query(db)) == Versions(db.rows)
  {
    MultisetMembers(Query(db), db.rows);
  }

  lemma QueryEmpty(db: Db)
    ensures Query(db) == [] <==> db.rows == []
  {
    MultisetMembers(Query(db), db.rows);
  }

  /** What a program can leave behind, a longer one can. */
  lemma {:induction false} ReachedWeaken(db: Db, a: seq<Group>, b: seq<Group>, d: Db)
    requires Reached(db, a, d)
    ensures Reached(db, a + b, d)
    decreases |a|
  {
    if a == [] {
    } else {
      assert (a + b)[1..] == a[1..] + b;
      if ExecGroup(db, a[0]).Some? && Reached(ExecGroup(db, a[0]).value, a[1..], d) {
        ReachedWeaken(ExecGroup(db, a[0]).value, a[1..], b, d);
      }
    }
  }
}
