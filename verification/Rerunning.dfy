/** What one more migrate does after a migrate that succeeded. */
module Rerunning {
  import opened Wrappers
  import opened Ordering
  import opened Migrations
  import opened Plan
  import opened Programs
  import opened Tracking
  import opened Histories
  import opened MigrateLaws

  /** Migrations of one version agree on the checksum, repeatable or not. */
  ghost predicate Consistent(source: Source) {
    forall m, w :: m in source.repeatable && w in source.repeatable + source.versioned && m.version == w.version ==>
      m.checksum == w.checksum
  }

  predicate Matches(m: Migration, r: AppliedMigration) {
    m.version == r.version && m.checksum == r.checksum
  }

  /** A row that one of `ms` recorded, or gave its checksum. */
  ghost predicate MatchedBy(ms: seq<Migration>, r: AppliedMigration) {
    exists m :: m in ms && Matches(m, r)
  }

  /** What the repeatable phase over `due` executes and leaves of the rows. */
  ghost predicate Repeated(db: Db, due: seq<Migration>, d: Db) {
    && d.log == db.log + Ups(due)
    && Versions(d.rows) == Versions(db.rows) + VersionsOf(due)
    && (forall r :: r in d.rows ==> r in db.rows || MatchedBy(due, r))
    && (forall r :: r in d.rows && r.version in VersionsOf(due) ==> MatchedBy(due, r))
  }

  lemma RepeatedOne(db: Db, m: Migration, known: set<string>, order: int)
    requires known <= Versions(db.rows) && Exec(AfterSql(db, m), RecordRepeatable(m, known, order)).Some?
    ensures Repeated(db, [m], Exec(AfterSql(db, m), RecordRepeatable(m, known, order)).value)
  {
    var d := Exec(AfterSql(db, m), RecordRepeatable(m, known, order)).value;
    assert Ups([m]) == [Ran(m.upSql)];
    assert VersionsOf([m]) == {m.version};
    if m.version in known {
      ChecksumKeepsVersions(db.rows, m.version, m.checksum);
    } else {
      VersionsAppend(db.rows, RowOf(m, order, Applied));
    }
    forall r | r in d.rows ensures if r.version == m.version then MatchedBy([m], r) else r in db.rows {
      var i :| 0 <= i < |d.rows| && d.rows[i] == r;
      if r.version == m.version {
        assert i < |db.rows| ==> db.rows[i].version in Versions(db.rows) && db.rows[i].version == r.version;
        assert m in [m] && Matches(m, r);
      }
    }
  }

  lemma ChecksumKeepsVersions(rows: seq<AppliedMigration>, version: string, checksum: string)
    ensures Versions(WithChecksum(rows, version, checksum)) == Versions(rows)
  {
    var changed := WithChecksum(rows, version, checksum);
    forall v | v in Versions(rows) ensures v in Versions(changed) {
      var r :| r in rows && r.version == v;
      var i :| 0 <= i < |rows| && rows[i] == r;
      assert changed[i] in changed;
    }
    forall v | v in Versions(changed) ensures v in Versions(rows) {
      var r :| r in changed && r.version == v;
      var i :| 0 <= i < |changed| && changed[i] == r;
      assert rows[i] in rows;
    }
  }

  lemma MatchedByMore(a: seq<Migration>, b: seq<Migration>, r: AppliedMigration)
    ensures MatchedBy(a + b, r) <==> MatchedBy(a, r) || MatchedBy(b, r)
  {
    if MatchedBy(a + b, r) {
      var m :| m in a + b && Matches(m, r);
      assert m in a || m in b;
    }
    if MatchedBy(a, r) {
      var m :| m in a && Matches(m, r);
      assert m in a + b;
    }
    if MatchedBy(b, r) {
      var m :| m in b && Matches(m, r);
      assert m in a + b;
    }
  }

  lemma RepeatedTwice(db: Db, a: seq<Migration>, mid: Db, b: seq<Migration>, d: Db)
    requires Repeated(db, a, mid) && Repeated(mid, b, d)
    ensures Repeated(db, a + b, d)
  {
    hide MatchedBy, Versions;
    assert Ups(a + b) == Ups(a) + Ups(b);
    assert db.log + Ups(a + b) == db.log + Ups(a) + Ups(b);
    assert VersionsOf(a + b) == VersionsOf(a) + VersionsOf(b);
    forall r | r in d.rows
      ensures r in db.rows || MatchedBy(a + b, r)
      ensures r.version in VersionsOf(a + b) ==> MatchedBy(a + b, r)
    {
      MatchedByMore(a, b, r);
    }
  }

  lemma {:induction false} RepeatablesEffect(db: Db, due: seq<Migration>, known: set<string>, order: int, d: Db)
    requires known <= Versions(db.rows) && ExecAll(db, RepeatableGroups(due, known, order)) == Some(d)
    ensures Repeated(db, due, d)
    decreases |due|
  {
    hide ExecGroup, Exec, Versions, RecordRepeatable, Repeated, ExecAll;
    if due == [] {
      RepeatedNothing(db, known, order);
    } else {
      var m := due[0];
      var last := RecordRepeatable(m, known, order);
      var rest := RepeatableGroups(due[1..], known, if m.version in known then order else order + 1);
      assert RepeatableGroups(due, known, order) == [[MigrationSql(m.upSql)]] + ([[last]] + rest);
      ExecAllFirst(db, [MigrationSql(m.upSql)], [[last]] + rest);
      SqlAlways(db, m);
      ExecAllFirst(AfterSql(db, m), [last], rest);
      ExecSingle(AfterSql(db, m), last);
      var db1 := Exec(AfterSql(db, m), last).value;
      RepeatedOne(db, m, known, order);
      assert Versions(db.rows) <= Versions(db1.rows) by { RepeatedVersions(db, [m], db1); }
      RepeatablesEffect(db1, due[1..], known, if m.version in known then order else order + 1, d);
      RepeatedTwice(db, [m], db1, due[1..], d);
      assert due == [m] + due[1..];
    }
  }

  lemma RepeatedNothing(db: Db, known: set<string>, order: int)
    ensures ExecAll(db, RepeatableGroups([], known, order)) == Some(db) && Repeated(db, [], db)
  {
    assert db.log + Ups([]) == db.log;
  }

  lemma SqlAlways(db: Db, m: Migration)
    ensures ExecGroup(db, [MigrationSql(m.upSql)]) == Some(AfterSql(db, m))
  {
    ExecSingle(db, MigrationSql(m.upSql));
  }

  lemma RepeatedVersions(db: Db, due: seq<Migration>, d: Db)
    requires Repeated(db, due, d)
    ensures Versions(db.rows) <= Versions(d.rows)
  {}

  lemma {:induction false} FindRowIs(rows: seq<AppliedMigration>, version: string)
    ensures var found := FindRow(rows, version);
      && (found.None? <==> version !in Versions(rows))
      && (found.Some? ==> found.value in rows && found.value.version == version)
  {
    if rows == [] {
    } else {
      FindRowIs(rows[1..], version);
      assert rows == [rows[0]] + rows[1..];
    }
  }

  /** Nothing is due exactly if every repeatable's row carries its checksum. */
  lemma NothingDueIs(db: Db, source: Source)
    requires TableOk(db.rows)
    ensures NothingDue(db, source) <==> forall m :: m in source.repeatable ==> exists r :: r in db.rows && Matches(m, r)
  {
    hide TableOk, FindRow;
    QueryIsRows(db);
    forall m ensures !IsDue(m, db.rows) <==> exists r :: r in db.rows && Matches(m, r) {
      FindRowIs(db.rows, m.version);
      if r :| r in db.rows && Matches(m, r) {
        assert r.version in Versions(db.rows);
        OneRow(db.rows, r, FindRow(db.rows, m.version).value);
      }
    }
    var due := Due(source.repeatable, db.rows);
    assert forall m :: m in due <==> m in source.repeatable && IsDue(m, db.rows);
    if due != [] {
      assert due[0] in due;
    }
  }

  lemma OneRow(rows: seq<AppliedMigration>, a: AppliedMigration, b: AppliedMigration)
    requires TableOk(rows) && a in rows && b in rows && a.version == b.version
    ensures a == b
  {
    var i :| 0 <= i < |rows| && rows[i] == a;
    var j :| 0 <= j < |rows| && rows[j] == b;
    assert i == j;
  }

  /** What a migrate that succeeded leaves behind. */
  lemma AfterMigrate(db: Db, source: Source, target: Option<string>, atomic: bool)
    returns (mid: Db, due: seq<Migration>)
    requires TableOk(db.rows) && DistinctVersions(source.versioned) && Migrated(db, source, target, atomic).Some?
    ensures var plan := Selected(source.versioned, Stored(db.rows), target);
      && mid == Recorded(db, plan, NextOrder(db.rows))
      && CanMigrate(db.rows, source.versioned, plan, atomic)
      && Ready(mid.rows, NextOrder(db.rows) + |plan|)
      && ChecksumsAgree(source.versioned, mid.rows)
    ensures due == Due(source.repeatable, mid.rows)
    ensures var d := Migrated(db, source, target, atomic).value;
      Repeated(mid, due, d) && TableOk(d.rows) && AllApplied(d.rows)
  {
    hide Migrated, Selected, Stored, Recorded, CanMigrate, ChecksumsAgree, Recordable, TableOk, AllApplied, NextOrder,
         ExecAll, Repeated, Due, RepeatableGroups, Refreshed, Reached, NeedsMet;
    var plan := Selected(source.versioned, Stored(db.rows), target);
    var order := NextOrder(db.rows);
    mid := Recorded(db, plan, order);
    MigratedIs(db, source, target, atomic);
    CanMigrateIs(db.rows, source.versioned, plan, atomic);
    ReadyWhenApplied(db.rows);
    RecordedIsReady(db, plan, order);
    SelectedContents(source.versioned, db.rows, target);
    RecordedChecksumsAgree(db, source.versioned, plan, order);
    QueryIsRows(mid);
    due := Due(source.repeatable, mid.rows);
    var d := Migrated(db, source, target, atomic).value;
    RepeatablesEffect(mid, due, Versions(mid.rows), order + |plan|, d);
    ExecAllReached(mid, RepeatableGroups(due, Versions(mid.rows), order + |plan|));
    RepeatablesReached(mid, due, Versions(mid.rows), order + |plan|, d);
  }

  lemma CanMigrateIs(rows: seq<AppliedMigration>, pending: seq<Migration>, plan: seq<Migration>, atomic: bool)
    requires CanMigrate(rows, pending, plan, atomic)
    ensures AllApplied(rows) && ChecksumsAgree(pending, rows)
  {}

  /** A migrate that succeeded leaves nothing to plan. */
  lemma NothingPlanned(db: Db, source: Source, target: Option<string>, mid: Db, due: seq<Migration>, d: Db)
    requires mid == Recorded(db, Selected(source.versioned, Stored(db.rows), target), NextOrder(db.rows))
    requires Repeated(mid, due, d)
    ensures Selected(source.versioned, Stored(d.rows), target) == []
  {
    hide Selected, Stored, NextOrder, Versions, UpTo, RowsOf, Ups, WithDeps, VersionsOf;
    var plan := Selected(source.versioned, Stored(db.rows), target);
    var again := Selected(source.versioned, Stored(d.rows), target);
    SelectedContents(source.versioned, db.rows, target);
    SelectedContents(source.versioned, d.rows, target);
    VersionsConcat(db.rows, RowsOf(plan, NextOrder(db.rows)));
    VersionsOfRows(plan, NextOrder(db.rows));
    forall m | m in plan ensures m.version in VersionsOf(plan) {
      VersionIn(plan, m);
    }
    EmptyOrHasMember(again);
  }

  lemma EmptyOrHasMember(ms: seq<Migration>)
    ensures ms == [] || exists m :: m in ms
  {
    if ms != [] {
      assert ms[0] in ms;
    }
  }

  lemma VersionIn(ms: seq<Migration>, m: Migration)
    requires m in ms
    ensures m.version in VersionsOf(ms)
  {}

  /** Migrating with nothing to plan changes nothing exactly if no checksum differs. */
  lemma AgainIs(d: Db, source: Source, target: Option<string>, atomic: bool)
    requires TableOk(d.rows) && AllApplied(d.rows) && DistinctVersions(source.versioned)
    requires Selected(source.versioned, Stored(d.rows), target) == []
    ensures Migrated(d, source, target, atomic) == Some(d) <==>
      ChecksumsAgree(source.versioned, d.rows) && NothingDue(d, source)
  {
    hide Migrated, Stored, ChecksumsAgree, Recordable, TableOk, AllApplied, NextOrder, ExecAll, Due, RepeatableGroups,
         Selected, Query;
    var order := NextOrder(d.rows);
    MigratedIs(d, source, target, atomic);
    RecordedNothing(d, order);
    if NothingDue(d, source) {
      NothingToRepeat(d, source, order);
    }
    if ExecAll(d, RepeatablePhase(d, source, order)) == Some(d) {
      var due := Due(source.repeatable, Query(d));
      RepeatablesEffect(d, due, Versions(d.rows), order, d);
      assert |d.log + Ups(due)| == |d.log| + |due|;
    }
  }

  /** If checksums agree, every repeatable's row carries its checksum afterwards. */
  lemma ConsistentRow(source: Source, mid: Db, due: seq<Migration>, d: Db, m: Migration) returns (r: AppliedMigration)
    requires TableOk(mid.rows) && Repeated(mid, due, d) && due == Due(source.repeatable, mid.rows)
    requires Consistent(source) && m in source.repeatable
    ensures r in d.rows && Matches(m, r)
  {
    hide TableOk, Due, Versions, VersionsOf;
    if m in due {
      VersionIn(due, m);
      r := RowWith(d.rows, m.version);
    } else {
      assert !IsDue(m, mid.rows) by { NotDue(source.repeatable, mid.rows, m); }
      FindRowIs(mid.rows, m.version);
      r := RowWith(d.rows, m.version);
      if r in mid.rows {
        OneRow(mid.rows, r, FindRow(mid.rows, m.version).value);
      }
    }
    if MatchedBy(due, r) {
      var other :| other in due && Matches(other, r);
      assert other in source.repeatable by { DueIsRepeatable(source.repeatable, mid.rows, other); }
      assert m in source.repeatable + source.versioned;
    }
  }

  lemma NotDue(repeatables: seq<Migration>, rows: seq<AppliedMigration>, m: Migration)
    requires m in repeatables && m !in Due(repeatables, rows)
    ensures !IsDue(m, rows)
  {}

  lemma DueIsRepeatable(repeatables: seq<Migration>, rows: seq<AppliedMigration>, m: Migration)
    requires m in Due(repeatables, rows)
    ensures m in repeatables
  {}

  /** Repeatables that agree with the versioned migrations leave the checksums in agreement. */
  lemma ChecksumsStay(source: Source, mid: Db, due: seq<Migration>, d: Db)
    requires TableOk(mid.rows) && TableOk(d.rows) && Repeated(mid, due, d)
    requires forall m :: m in due ==> m in source.repeatable
    requires Consistent(source) && ChecksumsAgree(source.versioned, mid.rows)
    ensures ChecksumsAgree(source.versioned, d.rows)
  {
    hide TableOk, Versions, VersionsOf, Stored;
    StoredKeys(d.rows);
    forall w | w in source.versioned && w.version in Stored(d.rows) ensures Stored(d.rows)[w.version] == w.checksum {
      var r := RowWith(d.rows, w.version);
      StoredAt(d.rows, r);
      if r in mid.rows {
        StoredAt(mid.rows, r);
      } else {
        var other :| other in due && Matches(other, r);
        assert w in source.repeatable + source.versioned;
      }
    }
  }

  lemma ConsistentAgrees(source: Source, mid: Db, due: seq<Migration>, d: Db)
    requires TableOk(mid.rows) && TableOk(d.rows) && Repeated(mid, due, d) && due == Due(source.repeatable, mid.rows)
    requires Consistent(source) && ChecksumsAgree(source.versioned, mid.rows)
    ensures ChecksumsAgree(source.versioned, d.rows) && NothingDue(d, source)
  {
    hide TableOk, Due, ChecksumsAgree;
    forall m | m in due ensures m in source.repeatable {
      DueIsRepeatable(source.repeatable, mid.rows, m);
    }
    ChecksumsStay(source, mid, due, d);
    forall m | m in source.repeatable ensures exists r :: r in d.rows && Matches(m, r) {
      var r := ConsistentRow(source, mid, due, d, m);
    }
    NothingDueIs(d, source);
  }

  lemma AgreesIsConsistent(source: Source, d: Db)
    requires TableOk(d.rows) && ChecksumsAgree(source.versioned, d.rows) && NothingDue(d, source)
    ensures Consistent(source)
  {
    hide TableOk, NothingDue, Stored;
    NothingDueIs(d, source);
    forall m, w | m in source.repeatable && w in source.repeatable + source.versioned && m.version == w.version
      ensures m.checksum == w.checksum
    {
      var r :| r in d.rows && Matches(m, r);
      if w in source.repeatable {
        var other :| other in d.rows && Matches(w, other);
        OneRow(d.rows, r, other);
      } else {
        StoredAt(d.rows, r);
      }
    }
  }

  /**
   After a migrate has succeeded, one more changes nothing exactly if no two
   migrations of the source share a version but not the checksum; versioned
   ones never do. Otherwise the next migrate fails, or executes a repeatable again.
   */
  lemma MigrateAgain(db: Db, source: Source, target: Option<string>, atomic: bool)
    requires TableOk(db.rows) && DistinctVersions(source.versioned) && Migrated(db, source, target, atomic).Some?
    ensures Migrated(Migrated(db, source, target, atomic).value, source, target, atomic) ==
      Migrated(db, source, target, atomic)
      <==> Consistent(source)
  {
    hide *;
    var mid, due := AfterMigrate(db, source, target, atomic);
    var d := Migrated(db, source, target, atomic).value;
    NothingPlanned(db, source, target, mid, due, d);
    AgainIs(d, source, target, atomic);
    if Consistent(source) {
      ReadyIsApplied(mid.rows, NextOrder(db.rows) + |Selected(source.versioned, Stored(db.rows), target)|);
      ConsistentAgrees(source, mid, due, d);
    }
    if ChecksumsAgree(source.versioned, d.rows) && NothingDue(d, source) {
      AgreesIsConsistent(source, d);
    }
  }
}
