/** What the operations report, in terms of the SQL they execute and the rows they leave. */
module Reports {
  import opened Wrappers
  import opened Ordering
  import opened Migrations
  import opened Plan
  import opened Programs
  import opened Engine
  import opened Tracking
  import opened Histories
  import opened MigrateLaws
  import opened Rerunning
  import opened Recovery

  // ----- migrate -----

  /** Whether `report` lists the versions of `ms`. */
  ghost predicate Names(report: seq<string>, ms: seq<Migration>) {
    |report| == |ms| && forall i :: 0 <= i < |ms| ==> report[i] == ms[i].version
  }

  /** No row carries the repeatable's checksum. */
  ghost predicate NewOrChanged(m: Migration, rows: seq<AppliedMigration>) {
    forall r :: r in rows && r.version == m.version ==> r.checksum != m.checksum
  }

  /** The due repeatables are those that are new or changed, in the order of the source. */
  lemma {:induction false} DueIs(repeatables: seq<Migration>, rows: seq<AppliedMigration>)
    requires TableOk(rows)
    ensures forall m :: m in Due(repeatables, rows) <==> m in repeatables && NewOrChanged(m, rows)
    ensures forall i :: 0 <= i <= |repeatables| ==>
      Due(repeatables, rows) == Due(repeatables[..i], rows) + Due(repeatables[i..], rows)
  {
    hide TableOk, FindRow;
    forall m ensures IsDue(m, rows) <==> NewOrChanged(m, rows) {
      FindRowIs(rows, m.version);
      if FindRow(rows, m.version).Some? {
        forall r | r in rows && r.version == m.version ensures r == FindRow(rows, m.version).value {
          OneRow(rows, r, FindRow(rows, m.version).value);
        }
      } else {
        forall r | r in rows ensures r.version in Versions(rows) {}
      }
    }
    forall i | 0 <= i <= |repeatables|
      ensures Due(repeatables, rows) == Due(repeatables[..i], rows) + Due(repeatables[i..], rows)
    {
      assert repeatables == repeatables[..i] + repeatables[i..];
      KeepConcat(repeatables[..i], repeatables[i..], (m: Migration) => IsDue(m, rows));
    }
  }

  lemma MigrateReportIs(db: Db, source: Source, plan: seq<Migration>, atomic: bool, mid: Db)
    requires ExecAll(db, VersionedGroups(plan, NextOrder(Query(db)), atomic)) == Some(mid) && TableOk(mid.rows)
    ensures Names(PlanVersions(plan), plan)
    ensures Names(MigrateReport(db, source, plan, atomic), plan + Due(source.repeatable, mid.rows))
  {
    hide ExecAll, VersionedGroups, NextOrder, Due, TableOk, Query;
    QueryIsRows(mid);
  }

  /**
   A migrate that succeeds reports exactly what it executes, in that order: the
   plan, which a dry run reports too, and then the due repeatables.
   */
  lemma ReportNamesTheSql(db: Db, source: Source, target: Option<string>, atomic: bool)
    returns (plan: seq<Migration>, mid: Db, due: seq<Migration>)
    requires TableOk(db.rows) && DistinctVersions(source.versioned) && Migrated(db, source, target, atomic).Some?
    ensures BuildPlan(source.versioned, Query(db), target, atomic) == Ok(plan)
    ensures mid.rows == db.rows + RowsOf(plan, NextOrder(db.rows)) && TableOk(mid.rows)
    ensures due == Due(source.repeatable, mid.rows)
    ensures Names(PlanVersions(plan), plan) && Names(MigrateReport(db, source, plan, atomic), plan + due)
    ensures Migrated(db, source, target, atomic).value.log == db.log + Ups(plan + due)
  {
    hide *;
    plan := Selected(source.versioned, Stored(db.rows), target);
    var order := NextOrder(db.rows);
    QueryIsRows(db);
    MigratedIs(db, source, target, atomic);
    mid, due := AfterMigrate(db, source, target, atomic);
    VersionedEffect(db, plan, order, atomic);
    PlanIsBuilt(db, source, target, atomic);
    ReadyIsTable(mid.rows, order + |plan|);
    MigrateReportIs(db, source, plan, atomic, mid);
    RecordedRows(db, plan, order);
    RecordedLog(db, plan, order);
    RepeatedLog(mid, due, Migrated(db, source, target, atomic).value);
    UpsConcat(plan, due);
    assert db.log + Ups(plan) + Ups(due) == db.log + (Ups(plan) + Ups(due));
  }

  lemma RecordedLog(db: Db, ms: seq<Migration>, order: int)
    ensures Recorded(db, ms, order).log == db.log + Ups(ms)
  {}

  lemma UpsConcat(a: seq<Migration>, b: seq<Migration>)
    ensures Ups(a + b) == Ups(a) + Ups(b)
  {}

  lemma RepeatedLog(db: Db, due: seq<Migration>, d: Db)
    requires Repeated(db, due, d)
    ensures d.log == db.log + Ups(due)
  {}

  lemma ReadyIsTable(rows: seq<AppliedMigration>, order: int)
    requires Ready(rows, order)
    ensures TableOk(rows)
  {}

  lemma PlanIsBuilt(db: Db, source: Source, target: Option<string>, atomic: bool)
    requires TableOk(db.rows) && Migrated(db, source, target, atomic).Some?
    ensures BuildPlan(source.versioned, Query(db), target, atomic) ==
      Ok(Selected(source.versioned, Stored(db.rows), target))
  {
    hide ExecAll, MigrateProgram, Selected, Stored, Query;
    QueryIsRows(db);
  }

  // ----- rollback -----

  /** The latest `j` rows, latest first. */
  function Latest(rows: seq<AppliedMigration>, j: nat): seq<AppliedMigration>
    requires j <= |rows|
  {
    Reversed(rows)[..j]
  }

  function DownEffects(rows: seq<AppliedMigration>): seq<Effect>
    requires forall i :: 0 <= i < |rows| ==> rows[i].downSql.Some?
  {
    seq(|rows|, i requires 0 <= i < |rows| => Ran(rows[i].downSql.value))
  }

  lemma {:induction false} RolledBackIs(db: Db, j: nat)
    requires j <= |db.rows| && forall i :: 0 <= i < j ==> Latest(db.rows, j)[i].downSql.Some?
    ensures RolledBack(db, j) == Db(db.rows[..|db.rows| - j], db.log + DownEffects(Latest(db.rows, j)),
                                    db.deps - Versions(Latest(db.rows, j)))
  {
    if j == 0 {
      assert db.rows[..|db.rows|] == db.rows && db.log + DownEffects([]) == db.log;
    } else {
      var fewer, all := Latest(db.rows, j - 1), Latest(db.rows, j);
      var row := db.rows[|db.rows| - j];
      assert all == fewer + [row] && all[j - 1] == row;
      assert forall i :: 0 <= i < j - 1 ==> fewer[i] == all[i];
      RolledBackIs(db, j - 1);
      VersionsAppend(fewer, row);
      hide RolledBack;
      RolledBackStep(db, j);
      assert DownEffects(all) == DownEffects(fewer) + [Ran(row.downSql.value)];
      assert db.log + DownEffects(fewer) + [Ran(row.downSql.value)] == db.log + DownEffects(all);
    }
  }

  lemma RolledBackStep(db: Db, j: nat)
    requires 0 < j <= |db.rows| && db.rows[|db.rows| - j].downSql.Some?
    ensures var d, row := RolledBack(db, j - 1), db.rows[|db.rows| - j];
      RolledBack(db, j) == Db(db.rows[..|db.rows| - j], d.log + [Ran(row.downSql.value)], d.deps - {row.version})
  {}

  /** The length of the front of rows that store down SQL. */
  function Undoable(rows: seq<AppliedMigration>): (j: nat)
    ensures j <= |rows| && forall i :: 0 <= i < j ==> rows[i].downSql.Some?
    ensures j < |rows| ==> rows[j].downSql.None?
  {
    if rows == [] || rows[0].downSql.None? then 0 else Undoable(rows[1..]) + 1
  }

  lemma {:induction false} RollbackStopsAt(rows: seq<AppliedMigration>)
    ensures var j := Undoable(rows);
      && RollbackGroups(rows) == RollbackGroups(rows[..j])
      && RollbackReport(rows) ==
         if j < |rows| then Err(RollbackSkipped(rows[j].version)) else Ok(RowVersions(rows[..j]))
  {
    var j := Undoable(rows);
    assert RowVersions([]) == [];
    if rows != [] && rows[0].downSql.Some? {
      RollbackStopsAt(rows[1..]);
      assert rows[1..][..j - 1] == rows[..j][1..];
      assert RowVersions(rows[..j]) == [rows[0].version] + RowVersions(rows[1..][..j - 1]);
    }
  }

  function RowVersions(rows: seq<AppliedMigration>): seq<string> {
    seq(|rows|, i requires 0 <= i < |rows| => rows[i].version)
  }

  /**
   A rollback that no call fails undoes the selected rows, latest first, up to
   the first without down SQL: these rows are gone, their down SQL was executed
   in this order, and it reports their versions, or the row it stopped at.
   */
  lemma RollbackOutcome(db: Db, strategy: RollbackStrategy) returns (n: nat, j: nat)
    requires TableOk(db.rows) && AllApplied(db.rows)
    ensures n <= |db.rows| && ToRollback(Query(db), strategy) == Latest(db.rows, n)
    ensures j <= n && (forall i :: 0 <= i < j ==> Latest(db.rows, j)[i].downSql.Some?)
    ensures j < n ==> db.rows[|db.rows| - 1 - j].downSql.None?
    ensures ExecAll(db, RollbackProgram(db, strategy)) ==
      Some(Db(db.rows[..|db.rows| - j], db.log + DownEffects(Latest(db.rows, j)),
              db.deps - Versions(Latest(db.rows, j))))
    ensures RollbackReport(ToRollback(Query(db), strategy)) ==
      if j < n then Err(RollbackSkipped(db.rows[|db.rows| - 1 - j].version))
      else Ok(RowVersions(Latest(db.rows, j)))
  {
    hide ExecAll, RollbackGroups, ToRollback, Query, RolledBack, TableOk, RollbackReport, RowVersions, DownEffects,
         Versions;
    QueryIsRows(db);
    FirstPartialNone(db.rows);
    RollbackSelects(db.rows, strategy);
    var rows := ToRollback(db.rows, strategy);
    n := |rows|;
    j := Undoable(rows);
    assert Latest(db.rows, j) == rows[..j] == Reversed(db.rows)[0..j];
    forall k | |db.rows| - j <= k < |db.rows| ensures db.rows[k].downSql.Some? {
      assert rows[|db.rows| - 1 - k] == db.rows[k];
    }
    RollbackStopsAt(rows);
    RollbackEffect(db, 0, j);
    RolledBackIs(db, j);
    RolledBackNone(db);
  }

  // ----- repair -----

  /** When no call fails, a repair reports the version it repaired, or why it refused. */
  lemma RepairReportIs(db: Db, source: Source, strategy: RepairStrategy)
    requires TableOk(db.rows)
    ensures var report := RepairReport(db, source, strategy);
      if strategy.UpdateChecksum? then
        if exists m :: m in source.versioned && m.version == strategy.version then report == Ok(strategy.version)
        else report == Err(MigrationNotFound(strategy.version))
      else if db.rows == [] || db.rows[|db.rows| - 1].status == Applied then report == Err(Config)
      else
        var row := db.rows[|db.rows| - 1];
        if strategy == Undo && row.downSql.None? then report == Err(RollbackSkipped(row.version))
        else report == Ok(row.version)
  {
    hide Query, TableOk;
    QueryIsRows(db);
    FindPartialIsLast(db.rows);
    if strategy.UpdateChecksum? {
      var i := FindMigrationIsFirst(source.versioned, strategy.version);
      hide FindMigration;
    }
  }
}
