/**
 Whole histories of the tracking table: any operations in any order, each cut
 short anywhere.
 */
module Histories {
  import opened Wrappers
  import opened Ordering
  import opened Migrations
  import opened Plan
  import opened Programs
  import opened Tracking

  // ----- Dependencies -----

  lemma AddRowKeepsDeps(db: Db, row: AppliedMigration, needs: seq<string>, log: seq<Effect>)
    requires DepsOk(db) && row.version !in Versions(db.rows)
    requires forall v :: v in needs ==> v in Versions(db.rows)
    ensures DepsOk(Db(db.rows + [row], log, db.deps[row.version := needs]))
  {
    var d := Db(db.rows + [row], log, db.deps[row.version := needs]);
    VersionsAppend(db.rows, row);
    forall i, v | 0 <= i < |d.rows| && d.rows[i].version in d.deps && v in d.deps[d.rows[i].version]
      ensures VersionBefore(d.rows, i, v)
    {
      if i < |db.rows| {
        assert db.rows[i].version in Versions(db.rows);
        assert VersionBefore(db.rows, i, v);
        var j :| 0 <= j < i && db.rows[j].version == v;
        assert d.rows[j].version == v;
      } else {
        var r :| r in db.rows && r.version == v;
        var j :| 0 <= j < |db.rows| && db.rows[j] == r;
        assert d.rows[j].version == v;
      }
    }
  }

  lemma DropLastKeepsDeps(db: Db, d: Db)
    requires DepsOk(db) && TableOk(db.rows) && db.rows != []
    requires d.rows == db.rows[..|db.rows| - 1] && d.deps == db.deps - {db.rows[|db.rows| - 1].version}
    ensures DepsOk(d)
  {
    hide TableOk, Versions;
    assert db.rows == d.rows + [db.rows[|db.rows| - 1]];
    VersionsAppend(d.rows, db.rows[|db.rows| - 1]);
    forall i, v | 0 <= i < |d.rows| && d.rows[i].version in d.deps && v in d.deps[d.rows[i].version]
      ensures VersionBefore(d.rows, i, v)
    {
      assert VersionBefore(db.rows, i, v);
      var j :| 0 <= j < i && db.rows[j].version == v;
      assert d.rows[j].version == v;
    }
  }

  /** Rows with the same versions in the same places, and nothing else the invariant looks at. */
  lemma SameVersionsKeepDeps(db: Db, d: Db)
    requires DepsOk(db) && TableOk(d.rows) && d.deps == db.deps && |db.rows| <= |d.rows|
    requires forall i :: 0 <= i < |db.rows| ==> d.rows[i].version == db.rows[i].version
    ensures DepsOk(d)
  {}

  lemma {:induction false} RecordedConcat(db: Db, a: seq<Migration>, b: seq<Migration>, order: int)
    ensures Recorded(Recorded(db, a, order), b, order + |a|) == Recorded(db, a + b, order)
    decreases |a|
  {
    if a == [] {
      RecordedNothing(db, order);
      assert a + b == b;
    } else {
      RecordedFirst(db, a, order);
      RecordedFirst(db, a + b, order);
      assert (a + b)[1..] == a[1..] + b;
      RecordedConcat(Recorded(db, [a[0]], order), a[1..], b, order + 1);
    }
  }

  lemma RecordableConcat(db: Db, a: seq<Migration>, b: seq<Migration>, order: int)
    ensures Recordable(db.rows, a + b) <==> Recordable(db.rows, a) && Recordable(Recorded(db, a, order).rows, b)
  {
    VersionsConcat(db.rows, RowsOf(a, order));
    VersionsOfRows(a, order);
    var ms := a + b;
    if Recordable(db.rows, ms) {
      forall i | 0 <= i < |a| ensures a[i].version !in Versions(db.rows) {
        assert ms[i] == a[i];
      }
      forall i, j | 0 <= i < j < |a| ensures a[i].version != a[j].version {
        assert ms[i] == a[i] && ms[j] == a[j];
      }
      forall j | 0 <= j < |b| ensures b[j].version !in Versions(Recorded(db, a, order).rows) {
        assert ms[|a| + j] == b[j];
        forall i | 0 <= i < |a| ensures a[i].version != b[j].version {
          assert ms[i] == a[i];
        }
      }
      forall i, j | 0 <= i < j < |b| ensures b[i].version != b[j].version {
        assert ms[|a| + i] == b[i] && ms[|a| + j] == b[j];
      }
    }
    if Recordable(db.rows, a) && Recordable(Recorded(db, a, order).rows, b) {
      forall j | 0 <= j < |ms| ensures ms[j].version !in Versions(db.rows) {}
      forall i, j | 0 <= i < j < |ms| ensures ms[i].version != ms[j].version {
        if i < |a| <= j {
          assert a[i].version in VersionsOf(a);
        }
      }
    }
  }

  lemma VersionsOfRows(ms: seq<Migration>, order: int)
    ensures Versions(RowsOf(ms, order)) == VersionsOf(ms)
  {
    var rows := RowsOf(ms, order);
    forall v | v in VersionsOf(ms) ensures v in Versions(rows) {
      var m :| m in ms && m.version == v;
      var i :| 0 <= i < |ms| && ms[i] == m;
      assert rows[i] in rows;
    }
  }

  /** What the next migration of a plan requires is recorded once the ones before it are. */
  lemma NeedsRecorded(db: Db, plan: seq<Migration>, order: int, k: nat)
    requires k < |plan| && NeedsMet(plan, Versions(db.rows))
    ensures forall v :: v in plan[k].needs ==> v in Versions(Recorded(db, plan[..k], order).rows)
  {
    hide RowsOf, Versions;
    var ms := plan[..k];
    VersionsConcat(db.rows, RowsOf(ms, order));
    VersionsOfRows(ms, order);
    forall v | v in plan[k].needs ensures v in Versions(db.rows) + VersionsOf(ms) {
      assert v in Versions(db.rows) || PlannedBefore(plan, k, v);
      if v !in Versions(db.rows) {
        var j :| 0 <= j < k && plan[j].version == v;
        assert ms[j] in ms;
      }
    }
  }

  lemma RecordOneKeepsDeps(db: Db, m: Migration, order: int)
    requires DepsOk(db) && Recordable(db.rows, [m])
    requires forall v :: v in m.needs ==> v in Versions(db.rows)
    ensures DepsOk(Recorded(db, [m], order))
  {
    hide DepsOk;
    assert [m][0].version !in Versions(db.rows);
    RecordedOne(db, m, order);
    AddRowKeepsDeps(db, RowOf(m, order, Applied), m.needs, db.log + [Ran(m.upSql)]);
  }

  /** Recording a plan whose `@requires` are met keeps the dependency invariant, prefix by prefix. */
  lemma {:induction false} RecordedKeepsDeps(db: Db, plan: seq<Migration>, order: int, k: nat)
    requires DepsOk(db) && k <= |plan| && Recordable(db.rows, plan[..k]) && NeedsMet(plan, Versions(db.rows))
    ensures DepsOk(Recorded(db, plan[..k], order))
  {
    hide DepsOk, Recordable, Recorded, NeedsMet, Versions;
    if k == 0 {
      RecordedNothing(db, order);
      assert plan[..0] == [];
    } else {
      var less := plan[..k - 1];
      var m := plan[k - 1];
      assert plan[..k] == less + [m];
      RecordableConcat(db, less, [m], order);
      RecordedConcat(db, less, [m], order);
      RecordedKeepsDeps(db, plan, order, k - 1);
      NeedsRecorded(db, plan, order, k - 1);
      RecordOneKeepsDeps(Recorded(db, less, order), m, order + |less|);
    }
  }

  lemma StoppedKeepsDeps(db: Db, plan: seq<Migration>, order: int, k: nat, d: Db)
    requires DepsOk(db) && StoppedAt(db, plan, order, k, d) && NeedsMet(plan, Versions(db.rows))
    ensures DepsOk(d)
  {
    hide DepsOk, NeedsMet, Recordable, Recorded;
    RecordedKeepsDeps(db, plan, order, k);
    var done := Recorded(db, plan[..k], order);
    if d != done {
      NeedsRecorded(db, plan, order, k);
      AddRowKeepsDeps(done, RowOf(plan[k], order + k, Partial), plan[k].needs, d.log);
    }
  }

  lemma {:induction false} RolledBackKeepsDeps(db: Db, j: nat)
    requires DepsOk(db) && TableOk(db.rows) && j <= |db.rows|
    ensures DepsOk(RolledBack(db, j)) && TableOk(RolledBack(db, j).rows)
    ensures RolledBack(db, j).rows == db.rows[..|db.rows| - j]
  {
    hide DepsOk;
    if j == 0 {
    } else {
      RolledBackKeepsDeps(db, j - 1);
      DropLastKeepsDeps(RolledBack(db, j - 1), RolledBack(db, j));
    }
  }

  lemma RefreshedKeepsDeps(db: Db, due: set<string>, d: Db)
    requires DepsOk(db) && Refreshed(db, due, d) && TableOk(d.rows)
    ensures DepsOk(d)
  {}

  lemma MigrateKeepsDeps(source: Source, target: Option<string>, atomic: bool, dryRun: bool, db: Db, d: Db)
    requires TableOk(db.rows) && DepsOk(db) && Reached(db, Program(Migrate(source, target, atomic, dryRun), db), d)
    ensures DepsOk(d)
  {
    hide Reached, MigrateProgram, Refreshed, StoppedAt, TableOk, DepsOk, Query, NextOrder, BuildPlan, Recorded;
    QueryIsRows(db);
    var built := BuildPlan(source.versioned, db.rows, target, atomic);
    if built.Err? || dryRun {
      ReachedNothing(db, d);
    } else {
      BuildNeedsNoPartial(source.versioned, db.rows, target, atomic);
      BuildMeetsNeeds(source.versioned, db.rows, target, atomic);
      var k, mid := MigrateReached(db, source, built.value, atomic, d);
      StoppedKeepsDeps(db, built.value, NextOrder(db.rows), k, mid);
      if d != mid {
        RefreshedKeepsDeps(mid, VersionsOf(source.repeatable), d);
      }
    }
  }

  lemma BuildMeetsNeeds(pending: seq<Migration>, applied: seq<AppliedMigration>, target: Option<string>, atomic: bool)
    requires BuildPlan(pending, applied, target, atomic).Ok?
    ensures NeedsMet(BuildPlan(pending, applied, target, atomic).value, Versions(applied))
  {
    FirstUnmetNone(Selected(pending, Stored(applied), target), Versions(applied));
  }

  lemma RollbackKeepsDeps(db: Db, strategy: RollbackStrategy, d: Db)
    requires TableOk(db.rows) && DepsOk(db) && Reached(db, RollbackProgram(db, strategy), d)
    ensures DepsOk(d)
  {
    hide Reached, RollbackProgram;
    var j := RollbackProgramReached(db, strategy, d);
    RolledBackKeepsDeps(db, j);
  }

  lemma RepairKeepsDeps(db: Db, source: Source, strategy: RepairStrategy, d: Db)
    requires TableOk(db.rows) && DepsOk(db) && Reached(db, RepairProgram(db, source, strategy), d)
    ensures DepsOk(d)
  {
    hide Reached, RepairProgram, DepsOk;
    RepairReached(db, source, strategy, d);
    RepairShapes(db, source, strategy, d);
    RepairKeepsTable(db, source, strategy, d);
    if LastRemoved(db, d) {
      DropLastKeepsDeps(db, d);
    } else {
      SameVersionsKeepDeps(db, d);
    }
  }

  lemma BaselineKeepsDeps(db: Db, source: Source, version: string, d: Db)
    requires TableOk(db.rows) && DepsOk(db) && Reached(db, BaselineProgram(db, source, version), d)
    ensures DepsOk(d)
  {
    hide Reached, BaselineProgram, UpToVersion;
    var k := BaselineProgramReached(db, source, version, d);
  }

  /**
   Every operation, cut short anywhere, leaves each row that the versioned path
   recorded after the rows of all its `@requires` versions.
   */
  lemma OperationKeepsDeps(op: Operation, db: Db, d: Db)
    requires TableOk(db.rows) && DepsOk(db) && Reached(db, Program(op, db), d)
    ensures DepsOk(d)
  {
    hide Reached, TableOk, DepsOk, MigrateProgram, RollbackProgram, RepairProgram, BaselineProgram, BuildPlan;
    match op {
      case Migrate(source, target, atomic, dryRun) =>
        MigrateKeepsDeps(source, target, atomic, dryRun, db, d);
      case Rollback(strategy) =>
        RollbackKeepsDeps(db, strategy, d);
      case Repair(source, strategy) =>
        RepairKeepsDeps(db, source, strategy, d);
      case Baseline(source, version) =>
        BaselineKeepsDeps(db, source, version, d);
    }
  }

  // ----- Checksums of repeatables -----

  /** SQL with this checksum has run to its end. */
  ghost predicate RanWith(log: seq<Effect>, hash: string -> string, checksum: string) {
    exists k :: 0 <= k < |log| && log[k].Ran? && hash(log[k].sql) == checksum
  }

  /** The stored checksum of every repeatable is that of SQL that has already run. */
  ghost predicate ChecksumsRan(db: Db, isRepeatable: string -> bool, hash: string -> string) {
    forall r :: r in db.rows && isRepeatable(r.version) ==> RanWith(db.log, hash, r.checksum)
  }

  /** Versioned and repeatable versions are told apart by `isRepeatable`; checksums are hashes of the up SQL. */
  ghost predicate SourceOk(source: Source, isRepeatable: string -> bool, hash: string -> string) {
    && (forall m :: m in source.versioned ==> !isRepeatable(m.version))
    && (forall m :: m in source.repeatable ==> isRepeatable(m.version) && m.checksum == hash(m.upSql))
  }

  ghost predicate OperationOk(op: Operation, isRepeatable: string -> bool, hash: string -> string) {
    match op
    case Migrate(source, _, _, _) => SourceOk(source, isRepeatable, hash)
    case Rollback(_) => true
    case Repair(source, _) => SourceOk(source, isRepeatable, hash)
    case Baseline(source, _) => SourceOk(source, isRepeatable, hash)
  }

  lemma LongerLogRan(log: seq<Effect>, longer: seq<Effect>, hash: string -> string, checksum: string)
    requires log <= longer && RanWith(log, hash, checksum)
    ensures RanWith(longer, hash, checksum)
  {
    var k :| 0 <= k < |log| && log[k].Ran? && hash(log[k].sql) == checksum;
    assert longer[k] == log[k];
  }

  /** Repeatable rows keep their version and checksum, or are gone; the log only grows. */
  lemma KeepChecksums(db: Db, d: Db, isRepeatable: string -> bool, hash: string -> string)
    requires ChecksumsRan(db, isRepeatable, hash) && db.log <= d.log
    requires forall r :: r in d.rows && isRepeatable(r.version) ==>
      exists q :: q in db.rows && q.version == r.version && q.checksum == r.checksum
    ensures ChecksumsRan(d, isRepeatable, hash)
  {}

  lemma {:induction false} RepeatablesKeepChecksums(
      db: Db, due: seq<Migration>, known: set<string>, order: int, d: Db, isRepeatable: string -> bool,
        hash: string -> string)
    requires ChecksumsRan(db, isRepeatable, hash) && Reached(db, RepeatableGroups(due, known, order), d)
    requires forall m :: m in due ==> m.checksum == hash(m.upSql)
    ensures ChecksumsRan(d, isRepeatable, hash)
    decreases |due|
  {
    hide Reached;
    if due == [] {
      ReachedNothing(db, d);
    } else {
      var m := due[0];
      RepeatableStep(db, due, known, order, d);
      if d == db || d == WithEffect(db, Cut(m.upSql)) || d == AfterSql(db, m) {
        KeepChecksums(db, d, isRepeatable, hash);
      } else {
        var db1 := Exec(AfterSql(db, m), RecordRepeatable(m, known, order)).value;
        RecordedAfterRun(db, m, known, order, isRepeatable, hash);
        var next := if m.version in known then order else order + 1;
        RepeatablesKeepChecksums(db1, due[1..], known, next, d, isRepeatable, hash);
      }
    }
  }

  lemma RecordedAfterRun(
      db: Db, m: Migration, known: set<string>, order: int, isRepeatable: string -> bool, hash: string -> string)
    requires ChecksumsRan(db, isRepeatable, hash) && m.checksum == hash(m.upSql)
    requires Exec(AfterSql(db, m), RecordRepeatable(m, known, order)).Some?
    ensures ChecksumsRan(Exec(AfterSql(db, m), RecordRepeatable(m, known, order)).value, isRepeatable, hash)
  {
    var d := Exec(AfterSql(db, m), RecordRepeatable(m, known, order)).value;
    assert d.log[|db.log|] == Ran(m.upSql);
    forall r | r in d.rows && isRepeatable(r.version) ensures RanWith(d.log, hash, r.checksum) {
      if r.checksum != m.checksum {
        assert r in db.rows by {
          var i :| 0 <= i < |d.rows| && d.rows[i] == r;
          assert i < |db.rows| && db.rows[i] == r;
        }
        LongerLogRan(db.log, d.log, hash, r.checksum);
      }
    }
  }

  lemma StoppedKeepsChecksums(
      db: Db, plan: seq<Migration>, order: int, k: nat, d: Db, isRepeatable: string -> bool, hash: string -> string)
    requires ChecksumsRan(db, isRepeatable, hash) && StoppedAt(db, plan, order, k, d)
    requires forall m :: m in plan ==> !isRepeatable(m.version)
    ensures ChecksumsRan(d, isRepeatable, hash)
  {
    StoppedAhead(db, plan, order, k, d);
    var rows := RowsOf(plan[..k], order) + (if k < |plan| then [RowOf(plan[k], order + k, Partial)] else []);
    forall i | 0 <= i < |rows| ensures !isRepeatable(rows[i].version) {
      assert plan[i] in plan;
    }
    forall r | r in d.rows && isRepeatable(r.version)
      ensures exists q :: q in db.rows && q.version == r.version && q.checksum == r.checksum
    {
      assert r in db.rows || r in rows;
    }
    KeepChecksums(db, d, isRepeatable, hash);
  }

  lemma PlanFromSource(pending: seq<Migration>, applied: seq<AppliedMigration>, target: Option<string>, atomic: bool)
    requires BuildPlan(pending, applied, target, atomic).Ok?
    ensures forall m :: m in BuildPlan(pending, applied, target, atomic).value ==> m in pending
  {
    SelectedContents(pending, applied, target);
  }

  lemma MigrateKeepsChecksums(
      source: Source, target: Option<string>, atomic: bool, dryRun: bool, db: Db, d: Db,
      isRepeatable: string -> bool, hash: string -> string)
    requires TableOk(db.rows) && ChecksumsRan(db, isRepeatable, hash) && SourceOk(source, isRepeatable, hash)
    requires Reached(db, Program(Migrate(source, target, atomic, dryRun), db), d)
    ensures ChecksumsRan(d, isRepeatable, hash)
  {
    hide Reached, MigrateProgram, Refreshed, StoppedAt, TableOk, Query, NextOrder, BuildPlan, Recorded, ChecksumsRan;
    QueryIsRows(db);
    var built := BuildPlan(source.versioned, db.rows, target, atomic);
    if built.Err? || dryRun {
      ReachedNothing(db, d);
    } else {
      BuildNeedsNoPartial(source.versioned, db.rows, target, atomic);
      PlanFromSource(source.versioned, db.rows, target, atomic);
      var k, mid := MigrateReached(db, source, built.value, atomic, d);
      StoppedKeepsChecksums(db, built.value, NextOrder(db.rows), k, mid, isRepeatable, hash);
      if d != mid {
        RepeatablesKeepChecksums(mid, Due(source.repeatable, Query(mid)), Versions(mid.rows),
          NextOrder(db.rows) + |built.value|, d, isRepeatable, hash);
      }
    }
  }

  lemma {:induction false} RolledBackLog(db: Db, j: nat)
    requires j <= |db.rows|
    ensures db.log <= RolledBack(db, j).log && RolledBack(db, j).rows == db.rows[..|db.rows| - j]
  {
    if j == 0 {
    } else {
      RolledBackLog(db, j - 1);
    }
  }

  lemma RepairKeepsChecksums(db: Db, source: Source, strategy: RepairStrategy, d: Db, isRepeatable: string -> bool,
      hash: string -> string)
    requires TableOk(db.rows) && ChecksumsRan(db, isRepeatable, hash) && SourceOk(source, isRepeatable, hash)
    requires Reached(db, RepairProgram(db, source, strategy), d)
    ensures ChecksumsRan(d, isRepeatable, hash)
  {
    hide Reached, RepairProgram, TableOk, ChecksumsRan;
    RepairReached(db, source, strategy, d);
    RepairShapes(db, source, strategy, d);
    if strategy.UpdateChecksum? {
      FindMigrationInSource(source.versioned, strategy.version);
    }
    forall r | r in d.rows && isRepeatable(r.version)
      ensures exists q :: q in db.rows && q.version == r.version && q.checksum == r.checksum
    {
      var i :| 0 <= i < |d.rows| && d.rows[i] == r;
      assert db.rows[i].version == r.version;
      assert db.rows[i].checksum == r.checksum;
    }
    KeepChecksums(db, d, isRepeatable, hash);
  }

  lemma {:induction false} FindMigrationInSource(ms: seq<Migration>, version: string)
    ensures FindMigration(ms, version).Some? ==>
      FindMigration(ms, version).value in ms && FindMigration(ms, version).value.version == version
  {
    if ms != [] && ms[0].version != version {
      FindMigrationInSource(ms[1..], version);
    }
  }

  lemma BaselineKeepsChecksums(db: Db, source: Source, version: string, d: Db, isRepeatable: string -> bool,
      hash: string -> string)
    requires TableOk(db.rows) && ChecksumsRan(db, isRepeatable, hash) && SourceOk(source, isRepeatable, hash)
    requires Reached(db, BaselineProgram(db, source, version), d)
    ensures ChecksumsRan(d, isRepeatable, hash)
  {
    hide Reached, BaselineProgram, TableOk;
    var k := BaselineProgramReached(db, source, version, d);
    if d != db {
      UpToVersionShorter(source.versioned, version);
      var ms := UpToVersion(source.versioned, version)[..k];
      forall r | r in d.rows ensures !isRepeatable(r.version) {
        var i :| 0 <= i < |RowsOf(ms, 1)| && RowsOf(ms, 1)[i] == r;
        assert source.versioned[i] in source.versioned && ms[i] == source.versioned[i];
      }
    }
  }

  /** The checksum stored for a repeatable is, after any operation cut short anywhere, that of SQL that ran. */
  lemma OperationKeepsChecksums(op: Operation, db: Db, d: Db, isRepeatable: string -> bool, hash: string -> string)
    requires TableOk(db.rows) && ChecksumsRan(db, isRepeatable, hash) && OperationOk(op, isRepeatable, hash)
    requires Reached(db, Program(op, db), d)
    ensures ChecksumsRan(d, isRepeatable, hash)
  {
    hide Reached, TableOk, ChecksumsRan, SourceOk, MigrateProgram, RollbackProgram, RepairProgram, BaselineProgram,
         BuildPlan;
    match op {
      case Migrate(source, target, atomic, dryRun) =>
        MigrateKeepsChecksums(source, target, atomic, dryRun, db, d, isRepeatable, hash);
      case Rollback(strategy) =>
        var j := RollbackProgramReached(db, strategy, d);
        RolledBackLog(db, j);
        KeepChecksums(db, d, isRepeatable, hash);
      case Repair(source, strategy) =>
        RepairKeepsChecksums(db, source, strategy, d, isRepeatable, hash);
      case Baseline(source, version) =>
        BaselineKeepsChecksums(db, source, version, d, isRepeatable, hash);
    }
  }

  // ----- Histories -----

  /** `dbs` are the databases between the operations `ops`, each of which may have been cut short. */
  ghost predicate History(dbs: seq<Db>, ops: seq<Operation>) {
    && |dbs| == |ops| + 1
    && forall i :: 0 <= i < |ops| ==> Reached(dbs[i], Program(ops[i], dbs[i]), dbs[i + 1])
  }

  /**
   From a table in order (an empty one, say), any history keeps it in order and
   every recorded migration behind all it requires.
   */
  lemma {:induction false} HistoryKeepsTable(dbs: seq<Db>, ops: seq<Operation>, n: nat)
    requires History(dbs, ops) && n < |dbs|
    requires TableOk(dbs[0].rows) && DepsOk(dbs[0])
    ensures TableOk(dbs[n].rows) && DepsOk(dbs[n])
  {
    hide Reached, Program, TableOk, DepsOk;
    if n == 0 {
    } else {
      HistoryKeepsTable(dbs, ops, n - 1);
      OperationKeepsTable(ops[n - 1], dbs[n - 1], dbs[n]);
      OperationKeepsDeps(ops[n - 1], dbs[n - 1], dbs[n]);
    }
  }

  lemma {:induction false} HistoryKeepsChecksums(
      dbs: seq<Db>, ops: seq<Operation>, n: nat, isRepeatable: string -> bool, hash: string -> string)
    requires History(dbs, ops) && n < |dbs|
    requires TableOk(dbs[0].rows) && ChecksumsRan(dbs[0], isRepeatable, hash)
    requires forall op :: op in ops ==> OperationOk(op, isRepeatable, hash)
    ensures TableOk(dbs[n].rows) && ChecksumsRan(dbs[n], isRepeatable, hash)
  {
    hide Reached, Program, TableOk, ChecksumsRan, OperationOk;
    if n == 0 {
    } else {
      HistoryKeepsChecksums(dbs, ops, n - 1, isRepeatable, hash);
      OperationKeepsTable(ops[n - 1], dbs[n - 1], dbs[n]);
      OperationKeepsChecksums(ops[n - 1], dbs[n - 1], dbs[n], isRepeatable, hash);
    }
  }
}
