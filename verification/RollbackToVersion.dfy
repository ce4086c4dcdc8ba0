/** What a rollback to a version selects, and what the documentation says it should. */
module RollbackToVersion {
  import opened Wrappers
  import opened Ordering
  import opened Migrations
  import opened Plan
  import opened Programs
  import opened Tracking
  import opened Histories
  import opened MigrateLaws

  /**
   Rolling back to the version in row `i` selects exactly the rows applied
   after it if and only if all of those have a greater version; when some
   earlier version was applied late, fewer rows are selected.
   */
  lemma ToVersionSelects(rows: seq<AppliedMigration>, i: nat)
    requires TableOk(rows) && i < |rows|
    ensures RollbackCount(rows, ToVersion(rows[i].version)) <= |rows| - 1 - i
    ensures RollbackCount(rows, ToVersion(rows[i].version)) == |rows| - 1 - i
       <==> forall j :: i < j < |rows| ==> StrLt(rows[i].version, rows[j].version)
  {
    var v := rows[i].version;
    var latest := Reversed(rows);
    var n := |WhileAboveBounded(latest, v)|;
    WhileAboveStops(latest, v);
    StrLtTrichotomy(v, v);
    assert latest[|rows| - 1 - i] == rows[i];
    forall j | i < j < |rows| ensures latest[|rows| - 1 - j] == rows[j] {}
    if n == |rows| - 1 - i {
      forall j | i < j < |rows| ensures StrLt(v, rows[j].version) {
        assert StrLt(v, latest[|rows| - 1 - j].version);
      }
    }
  }

  /** The rows a rollback to `v` selects are the latest ones, from place `from` on. */
  lemma SelectedFrom(rows: seq<AppliedMigration>, v: string) returns (from: nat)
    requires TableOk(rows)
    ensures from <= |rows|
    ensures forall i :: 0 <= i < |rows| ==> (rows[i] in ToRollback(rows, ToVersion(v)) <==> from <= i)
    ensures forall r :: r in ToRollback(rows, ToVersion(v)) ==> r in rows
    ensures forall i :: from <= i < |rows| ==> StrLt(v, rows[i].version)
    ensures from > 0 ==> !StrLt(v, rows[from - 1].version)
  {
    var latest := Reversed(rows);
    var n := |WhileAboveBounded(latest, v)|;
    WhileAboveStops(latest, v);
    ToRollbackIsSuffix(rows, ToVersion(v));
    var selected := ToRollback(rows, ToVersion(v));
    assert selected == latest[..n];
    from := |rows| - n;
    forall i | from <= i < |rows| ensures rows[i] in selected && StrLt(v, rows[i].version) {
      assert latest[|rows| - 1 - i] == rows[i] && selected[|rows| - 1 - i] == rows[i];
    }
    forall i | 0 <= i < from ensures rows[i] !in selected {
      forall k | 0 <= k < n ensures selected[k] != rows[i] {
        assert selected[k] == rows[|rows| - 1 - k];
      }
    }
    assert from > 0 ==> latest[n] == rows[from - 1];
  }

  /** Whether the rows of versions greater than `v` are the latest rows. */
  ghost predicate GreaterAreLatest(rows: seq<AppliedMigration>, v: string) {
    forall i, j :: 0 <= i < j < |rows| && StrLt(v, rows[i].version) ==> StrLt(v, rows[j].version)
  }

  /**
   Rolling back to any version selects exactly the rows of greater versions if
   and only if those are the latest rows.
   */
  lemma ToVersionSelectsGreater(rows: seq<AppliedMigration>, v: string)
    requires TableOk(rows)
    ensures (forall r :: r in ToRollback(rows, ToVersion(v)) <==> r in rows && StrLt(v, r.version)) <==>
      GreaterAreLatest(rows, v)
  {
    hide TableOk, ToRollback, StrLt;
    var selected := ToRollback(rows, ToVersion(v));
    var from := SelectedFrom(rows, v);
    if GreaterAreLatest(rows, v) {
      forall i | 0 <= i < from ensures !StrLt(v, rows[i].version) {
        var next := rows[from - 1];
        assert StrLt(v, rows[i].version) ==> StrLt(v, next.version);
      }
    }
    if forall r :: r in selected <==> r in rows && StrLt(v, r.version) {
      forall i, j | 0 <= i < j < |rows| && StrLt(v, rows[i].version) ensures StrLt(v, rows[j].version) {
        assert rows[i] in selected;
      }
    }
  }

  /** A migration with down SQL and nothing else of note. */
  function Simple(version: string): Migration {
    Migration(version, version, version, Some(version), None, version, false, [], false)
  }

  lemma MigrateSimple(db: Db, source: Source, plan: seq<Migration>)
    requires TableOk(db.rows) && AllApplied(db.rows) && source.repeatable == [] && SortedBy(source.versioned, VersionLt)
    requires forall m :: m in source.versioned ==> m.needs == []
    requires ChecksumsAgree(source.versioned, db.rows)
    requires plan == Selected(source.versioned, Stored(db.rows), None)
    ensures Reached(db, Program(Migrate(source, None, false, false), db), Recorded(db, plan, NextOrder(db.rows)))
    ensures Ready(Recorded(db, plan, NextOrder(db.rows)).rows, NextOrder(db.rows) + |plan|)
  {
    hide Selected, RepeatablePhase, Query, NextOrder, Recordable, Recorded, TableOk, AllApplied, ChecksumsAgree;
    StrictIsDistinct(source.versioned);
    SelectedContents(source.versioned, db.rows, None);
    MigratedIs(db, source, None, false);
    assert NeedsMet(plan, Versions(db.rows));
    var order := NextOrder(db.rows);
    var mid := Recorded(db, plan, order);
    assert NothingDue(mid, source) by { EmptyIsNotDue(mid, source); }
    NothingToRepeat(mid, source, order + |plan|);
    ReadyWhenApplied(db.rows);
    RecordedIsReady(db, plan, order);
    QueryIsRows(db);
    var program := Program(Migrate(source, None, false, false), db);
    MigratedRuns(db, source, None, false);
    ExecAllReached(db, program);
  }

  lemma EmptyIsNotDue(db: Db, source: Source)
    requires source.repeatable == []
    ensures NothingDue(db, source)
  {}

  lemma MigratedRuns(db: Db, source: Source, target: Option<string>, atomic: bool)
    requires Migrated(db, source, target, atomic).Some?
    ensures ExecAll(db, Program(Migrate(source, target, atomic, false), db)) == Migrated(db, source, target, atomic)
  {}

  lemma ThreeIsNotBelowTwo()
    ensures !StrLt("3", Simple("2").version)
  {}

  lemma EmptyTable(pending: seq<Migration>)
    ensures TableOk([]) && AllApplied([]) && NextOrder([]) == 1 && ChecksumsAgree(pending, [])
  {}

  /** The versions of the example are in order. */
  lemma SimpleSorted()
    ensures SortedBy([Simple("1"), Simple("3")], VersionLt)
    ensures SortedBy([Simple("1"), Simple("2"), Simple("3")], VersionLt)
  {
    assert StrLt("1", "2") && StrLt("2", "3") && StrLt("1", "3");
  }

  lemma FirstPlan()
    ensures var ms := [Simple("1"), Simple("3")]; Selected(ms, Stored([]), None) == ms
  {
    hide Selected, Simple;
    var ms := [Simple("1"), Simple("3")];
    SimpleSorted();
    StrictIsDistinct(ms);
    SelectedContents(ms, [], None);
    SelectedStrict(ms, [], None);
    SortedByMembers(Selected(ms, Stored([]), None), ms);
  }

  lemma SecondPlan(rows: seq<AppliedMigration>)
    requires rows == [RowOf(Simple("1"), 1, Applied), RowOf(Simple("3"), 2, Applied)] && Ready(rows, 3)
    ensures var ms := [Simple("1"), Simple("2"), Simple("3")];
      Selected(ms, Stored(rows), None) == [Simple("2")] && ChecksumsAgree(ms, rows)
    ensures NextOrder(rows) == 3
  {
    hide Selected, Stored, TableOk, Ready, Simple, SortedBy, Versions, RowOf, NextOrder, ChecksumsAgree,
         DistinctVersions, VersionLt;
    var ms := [Simple("1"), Simple("2"), Simple("3")];
    var plan := Selected(ms, Stored(rows), None);
    SimpleSorted();
    SimpleFields();
    StrictIsDistinct(ms);
    SelectedContents(ms, rows, None);
    SelectedStrict(ms, rows, None);
    TwoRows(rows);
    ReadyTable(rows, 3);
    ReadyNextOrder(rows, 3);
    forall m ensures m in plan <==> m in [Simple("2")] {}
    assert SortedBy([Simple("2")], VersionLt) by { OneIsSorted(Simple("2")); }
    SortedByMembers(plan, [Simple("2")]);
    RowsOfSimple();
    TwoChecksums(rows, ms);
  }

  lemma RowsOfSimple()
    ensures forall v, n :: RowOf(Simple(v), n, Applied).checksum == RowOf(Simple(v), n, Applied).version == v
  {}

  lemma SimpleFields()
    ensures forall v :: Simple(v).version == v && Simple(v).checksum == v && Simple(v).needs == []
  {}

  lemma OneIsSorted(m: Migration)
    ensures SortedBy([m], VersionLt)
  {}

  lemma TwoRows(rows: seq<AppliedMigration>)
    requires rows == [RowOf(Simple("1"), 1, Applied), RowOf(Simple("3"), 2, Applied)]
    ensures Versions(rows) == {"1", "3"} && "2" !in Versions(rows) && rows[1].appliedOrder == 2
  {
    assert rows[0] in rows && rows[1] in rows;
    assert "2"[0] != "1"[0] && "2"[0] != "3"[0];
  }

  lemma TwoChecksums(rows: seq<AppliedMigration>, ms: seq<Migration>)
    requires TableOk(rows) && forall r :: r in rows ==> r.checksum == r.version
    requires forall m :: m in ms ==> m.checksum == m.version
    ensures ChecksumsAgree(ms, rows)
  {
    hide Stored, TableOk, Versions;
    StoredKeys(rows);
    forall m | m in ms && m.version in Stored(rows) ensures Stored(rows)[m.version] == m.checksum {
      var r := RowWith(rows, m.version);
      StoredAt(rows, r);
    }
  }

  /** A rollback to `v` does nothing if the latest row is not above `v`. */
  lemma NothingAbove(db: Db, v: string)
    requires TableOk(db.rows) && db.rows != [] && !StrLt(v, db.rows[|db.rows| - 1].version)
    ensures RollbackProgram(db, ToVersion(v)) == []
  {
    hide TableOk;
    QueryIsRows(db);
    assert Reversed(db.rows)[0] == db.rows[|db.rows| - 1];
  }

  /**
   A history of two migrates, the second of a source with a late migration "2",
   after which a rollback to "3" leaves the row of "2", applied after "3".
   */
  lemma ToVersionMissesLateRow() returns (dbs: seq<Db>, ops: seq<Operation>)
    ensures History(dbs, ops) && |ops| == 2 && ops[0].Migrate? && ops[1].Migrate? && dbs[0] == Db([], [], map[])
    ensures dbs[2].rows == [RowOf(Simple("1"), 1, Applied), RowOf(Simple("3"), 2, Applied),
      RowOf(Simple("2"), 3, Applied)]
    ensures TableOk(dbs[2].rows) && RollbackProgram(dbs[2], ToVersion("3")) == []
  {
    hide Selected, Program, Recorded, RollbackProgram, Reached, Simple, NextOrder, TableOk, Ready, ChecksumsAgree,
         Stored, AllApplied;
    var early := Source([Simple("1"), Simple("3")], []);
    var late := Source([Simple("1"), Simple("2"), Simple("3")], []);
    var db0 := Db([], [], map[]);
    assert TableOk([]) && AllApplied([]) && NextOrder([]) == 1 && ChecksumsAgree(early.versioned, []) by {
      EmptyTable(early.versioned);
    }
    SimpleSorted();
    SimpleFields();
    FirstPlan();
    MigrateSimple(db0, early, early.versioned);
    var db1 := Recorded(db0, early.versioned, 1);
    var rows1 := [RowOf(Simple("1"), 1, Applied), RowOf(Simple("3"), 2, Applied)];
    assert db1.rows == rows1 by { RecordedRows(db0, early.versioned, 1); }
    ReadyTable(rows1, 3);
    ReadyIsApplied(rows1, 3);
    SecondPlan(rows1);
    MigrateSimple(db1, late, [Simple("2")]);
    var db2 := Recorded(db1, [Simple("2")], 3);
    assert db2.rows == rows1 + [RowOf(Simple("2"), 3, Applied)] by { RecordedRows(db1, [Simple("2")], 3); }
    dbs := [db0, db1, db2];
    ops := [Migrate(early, None, false, false), Migrate(late, None, false, false)];
    ReadyTable(db2.rows, 4);
    assert !StrLt("3", Simple("2").version) by { ThreeIsNotBelowTwo(); }
    NothingAbove(db2, "3");
  }
}
