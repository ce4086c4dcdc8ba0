/**
 Recovery: a migrate stopped anywhere, repaired if a migration stands half-way,
 and done again ends with the rows of one that is not stopped.
 */
module Recovery {
  import opened Wrappers
  import opened Ordering
  import opened Migrations
  import opened Plan
  import opened Programs
  import opened Tracking
  import opened Histories
  import opened MigrateLaws
  import opened Rerunning

  // ----- Stops in the versioned phase -----

  /** The database after a stop, repaired if a migration stands half-way. */
  function Repaired(d: Db, source: Source, strategy: RepairStrategy): Option<Db> {
    if FindPartial(Query(d)).None? then Some(d) else ExecAll(d, RepairProgram(d, source, strategy))
  }

  lemma RepairedIs(d: Db, source: Source, strategy: RepairStrategy)
    requires TableOk(d.rows) && d.rows != [] && d.rows[|d.rows| - 1].status == Partial
    ensures Repaired(d, source, strategy) == ExecAll(d, RepairProgram(d, source, strategy))
  {
    hide ExecAll, RepairProgram;
    QueryIsRows(d);
    FindPartialIsLast(d.rows);
  }

  /** A half-way migration is the one PARTIAL row, and a repair makes its row APPLIED. */
  lemma RepairHalfway(base: Db, m: Migration, order: int, d: Db, source: Source, strategy: RepairStrategy)
    requires Ready(base.rows, order) && Midway(base, m, order, d) && (strategy == Retry || strategy == Skip)
    ensures Repaired(d, source, strategy).Some?
    ensures var e := Repaired(d, source, strategy).value;
      && e.rows == Recorded(base, [m], order).rows && e.deps == Recorded(base, [m], order).deps
      && e.log == d.log + if strategy == Retry then [Ran(m.upSql)] else []
  {
    hide Ready, ExecAll, Query, TableOk, RepairProgram, Repaired, Versions, Recorded;
    var row := RowOf(m, order, Partial);
    assert d.rows == base.rows + [row] && d.deps == base.deps[m.version := m.needs];
    PartialKeepsTable(base.rows, row);
    RepairedIs(d, source, strategy);
    RepairDone(d, source, strategy);
    RecordedOne(base, m, order);
    assert d.rows[..|d.rows| - 1] == base.rows && d.log + [] == d.log;
  }

  /** A stop leaves, after a repair, the first `done` migrations of the plan recorded. */
  lemma RepairStopped(db: Db, plan: seq<Migration>, order: int, k: nat, d: Db, source: Source, strategy: RepairStrategy)
    returns (done: nat, tail: seq<Effect>)
    requires Ready(db.rows, order) && Recordable(db.rows, plan) && StoppedAt(db, plan, order, k, d)
    requires strategy == Retry || strategy == Skip
    ensures k <= done <= |plan| && done <= k + 1
    ensures |tail| <= 1 && (tail != [] ==> done == k + 1 && tail[0].sql == plan[k].upSql)
    ensures Repaired(d, source, strategy).Some?
    ensures var e := Repaired(d, source, strategy).value;
      var x := Recorded(db, plan[..done], order);
      && e.rows == x.rows && e.deps == x.deps
      && e.log == db.log + Ups(plan[..k]) + tail + if strategy == Retry then Ups(plan[k..done]) else []
  {
    hide Ready, Recordable, Recorded, RowsOf, Ups, WithDeps, Query, RepairProgram, Repaired, Versions;
    var base := Recorded(db, plan[..k], order);
    RecordablePrefix(db.rows, plan, k);
    RecordedIsReady(db, plan[..k], order);
    RecordedParts(db, plan[..k], order);
    if d == base {
      done, tail := k, [];
      NothingToRepair(d, order + k, source, strategy);
      assert plan[k..k] == [] && Ups([]) == [] by { NoUps(); }
      assert d.log + [] + [] == d.log;
    } else {
      done := k + 1;
      tail := d.log[|base.log|..];
      RepairHalfway(base, plan[k], order + k, d, source, strategy);
      assert plan[..k + 1] == plan[..k] + [plan[k]] && plan[k..k + 1] == [plan[k]];
      RecordedConcat(db, plan[..k], [plan[k]], order);
      assert Ups([plan[k]]) == [Ran(plan[k].upSql)] by { OneUp(plan[k]); }
      assert base.log + [] == base.log && d.log == base.log + tail;
    }
  }

  lemma NoUps()
    ensures Ups([]) == []
  {}

  lemma OneUp(m: Migration)
    ensures Ups([m]) == [Ran(m.upSql)]
  {}

  lemma NothingToRepair(d: Db, order: int, source: Source, strategy: RepairStrategy)
    requires Ready(d.rows, order)
    ensures Repaired(d, source, strategy) == Some(d)
  {
    QueryIsRows(d);
    FindPartialIsLast(d.rows);
    assert d.rows != [] ==> d.rows[|d.rows| - 1] in d.rows;
  }

  /**
   Recovery: wherever the versioned phase of a migrate is stopped, a retry or a
   skip of a half-way migration and then the same migrate end with the rows and
   order numbers of one migrate that is not stopped. Up to `tail`, what the
   half-way migration did before, a retry executes the same SQL; a skip may
   leave out that migration's.
   */
  lemma RepairThenMigrate(db: Db, source: Source, target: Option<string>, atomic: bool, d: Db, strategy: RepairStrategy)
    returns (k: nat, done: nat, tail: seq<Effect>)
    requires TableOk(db.rows) && DistinctVersions(source.versioned) && (strategy == Retry || strategy == Skip)
    requires var plan := Selected(source.versioned, Stored(db.rows), target);
      && CanMigrate(db.rows, source.versioned, plan, atomic)
      && Reached(db, VersionedGroups(plan, NextOrder(db.rows), atomic), d)
    ensures Repaired(d, source, strategy).Some?
    ensures var once := Migrated(db, source, target, atomic);
      var again := Migrated(Repaired(d, source, strategy).value, source, target, atomic);
      && (again.Some? <==> once.Some?)
      && (once.Some? ==> again.value.rows == once.value.rows && again.value.deps == once.value.deps)
    ensures var plan := Selected(source.versioned, Stored(db.rows), target);
      && k <= done <= |plan| && done <= k + 1
      && |tail| <= 1 && (tail != [] ==> done == k + 1 && tail[0].sql == plan[k].upSql)
    ensures var plan := Selected(source.versioned, Stored(db.rows), target);
      var once := Migrated(db, source, target, atomic);
      var again := Migrated(Repaired(d, source, strategy).value, source, target, atomic);
      once.Some? ==> exists sql ::
        && once.value.log == db.log + Ups(plan[..done]) + sql
        && again.value.log == db.log + Ups(plan[..k]) + tail + (if strategy == Retry then Ups(plan[k..done]) else []) +
          sql
  {
    hide *;
    var plan := Selected(source.versioned, Stored(db.rows), target);
    var order := NextOrder(db.rows);
    CanMigrateIs(db.rows, source.versioned, plan, atomic);
    ReadyWhenApplied(db.rows);
    MigratedIs(db, source, target, atomic);
    k := VersionedReached(db, plan, order, atomic, d);
    done, tail := RepairStopped(db, plan, order, k, d, source, strategy);
    var e := Repaired(d, source, strategy).value;
    var x := Recorded(db, plan[..done], order);
    MigrateRest(db, source, target, done, atomic);
    MigratedAlike(e, x, source, target, atomic);
    RecordedParts(db, plan[..done], order);
  }

  // ----- Undoing instead -----

  /** An undo takes a half-way migration back: its row and dependencies are gone, its down SQL was executed. */
  lemma UndoHalfway(base: Db, m: Migration, order: int, d: Db, source: Source)
    requires Ready(base.rows, order) && Midway(base, m, order, d) && base.deps.Keys <= Versions(base.rows)
    requires m.downSql.Some?
    ensures Repaired(d, source, Undo) == Some(Db(base.rows, d.log + [Ran(m.downSql.value)], base.deps))
  {
    hide Ready, ExecAll, Query, TableOk, RepairProgram, Repaired, Versions;
    var row := RowOf(m, order, Partial);
    assert d.rows == base.rows + [row] && d.deps == base.deps[m.version := m.needs];
    PartialKeepsTable(base.rows, row);
    RepairedIs(d, source, Undo);
    RepairDone(d, source, Undo);
    assert d.rows[..|d.rows| - 1] == base.rows;
    assert base.deps[m.version := m.needs] - {m.version} == base.deps;
  }

  /** The stopped plan stands half-way in its `k`-th migration, which stores no down SQL. */
  ghost predicate Irrevocable(db: Db, plan: seq<Migration>, order: int, k: nat, d: Db) {
    k < |plan| && plan[k].downSql.None? && Midway(Recorded(db, plan[..k], order), plan[k], order + k, d)
  }

  /**
   Wherever the versioned phase of a migrate is stopped, an undo and then the
   same migrate end like one migrate that is not stopped, too; unless the
   half-way migration stores no down SQL, and then the undo does nothing.
   */
  lemma UndoThenMigrate(db: Db, source: Source, target: Option<string>, atomic: bool, d: Db) returns (k: nat)
    requires TableOk(db.rows) && DepsOk(db) && DistinctVersions(source.versioned)
    requires var plan := Selected(source.versioned, Stored(db.rows), target);
      && CanMigrate(db.rows, source.versioned, plan, atomic)
      && Reached(db, VersionedGroups(plan, NextOrder(db.rows), atomic), d)
    ensures var plan := Selected(source.versioned, Stored(db.rows), target);
      StoppedAt(db, plan, NextOrder(db.rows), k, d)
    ensures Repaired(d, source, Undo).Some?
    ensures var plan := Selected(source.versioned, Stored(db.rows), target);
      var once := Migrated(db, source, target, atomic);
      var again := Migrated(Repaired(d, source, Undo).value, source, target, atomic);
      if Irrevocable(db, plan, NextOrder(db.rows), k, d) then Repaired(d, source, Undo) == Some(d)
      else
        && Repaired(d, source, Undo).value.rows == Recorded(db, plan[..k], NextOrder(db.rows)).rows
        && (again.Some? <==> once.Some?)
        && (once.Some? ==> again.value.rows == once.value.rows && again.value.deps == once.value.deps)
  {
    hide *;
    var plan := Selected(source.versioned, Stored(db.rows), target);
    var order := NextOrder(db.rows);
    CanMigrateIs(db.rows, source.versioned, plan, atomic);
    ReadyWhenApplied(db.rows);
    MigratedIs(db, source, target, atomic);
    k := VersionedReached(db, plan, order, atomic, d);
    UndoStopped(db, plan, order, k, d, source);
    if !Irrevocable(db, plan, order, k, d) {
      var x := Recorded(db, plan[..k], order);
      MigrateRest(db, source, target, k, atomic);
      MigratedAlike(Repaired(d, source, Undo).value, x, source, target, atomic);
    }
  }

  lemma UndoStopped(db: Db, plan: seq<Migration>, order: int, k: nat, d: Db, source: Source)
    requires Ready(db.rows, order) && DepsOk(db) && Recordable(db.rows, plan) && StoppedAt(db, plan, order, k, d)
    ensures k <= |plan| && Repaired(d, source, Undo).Some?
    ensures var x := Recorded(db, plan[..k], order);
      if Irrevocable(db, plan, order, k, d) then Repaired(d, source, Undo) == Some(d)
      else Repaired(d, source, Undo).value.rows == x.rows && Repaired(d, source, Undo).value.deps == x.deps
  {
    hide Ready, Recordable, Recorded, WithDeps, Query, RepairProgram, Repaired, Versions, DepsOk, Midway;
    var base := Recorded(db, plan[..k], order);
    RecordablePrefix(db.rows, plan, k);
    RecordedIsReady(db, plan[..k], order);
    RecordedKeys(db, plan[..k], order);
    if d == base {
      NothingToRepair(d, order + k, source, Undo);
      NotHalfway(base, plan, k, order);
    } else if plan[k].downSql.Some? {
      UndoHalfway(base, plan[k], order + k, d, source);
    } else {
      NothingToUndo(base, plan[k], order + k, d, source);
    }
  }

  lemma NotHalfway(base: Db, plan: seq<Migration>, k: nat, order: int)
    ensures k < |plan| ==> !Midway(base, plan[k], order + k, base)
  {
    if k < |plan| {
      assert |HalfWay(base, plan[k], order + k).rows| == |base.rows| + 1;
    }
  }

  lemma NothingToUndo(base: Db, m: Migration, order: int, d: Db, source: Source)
    requires Ready(base.rows, order) && Midway(base, m, order, d) && m.downSql.None?
    ensures Repaired(d, source, Undo) == Some(d)
  {
    hide Ready, Query, TableOk, RepairProgram, Repaired;
    var row := RowOf(m, order, Partial);
    assert d.rows == base.rows + [row];
    PartialKeepsTable(base.rows, row);
    RepairedIs(d, source, Undo);
    RepairDone(d, source, Undo);
  }

  lemma RecordedKeys(db: Db, ms: seq<Migration>, order: int)
    requires DepsOk(db)
    ensures Recorded(db, ms, order).deps.Keys <= Versions(Recorded(db, ms, order).rows)
  {
    WithDepsKeys(db.deps, ms);
    VersionsConcat(db.rows, RowsOf(ms, order));
    VersionsOfRows(ms, order);
  }

  // ----- Stops among the repeatables -----

  /** A repeatable phase cut short has the rows of its first `j` repeatables. */
  lemma {:induction false} RepeatablesStop(db: Db, due: seq<Migration>, known: set<string>, order: int, d: Db)
    returns (j: nat, x: Db)
    requires Reached(db, RepeatableGroups(due, known, order), d)
    ensures j <= |due| && ExecAll(db, RepeatableGroups(due[..j], known, order)) == Some(x)
    ensures x.rows == d.rows && x.deps == d.deps
    decreases |due|
  {
    hide Reached, ExecGroup, ExecAll, RecordRepeatable;
    assert due[..0] == [];
    RepeatedNothing(db, known, order);
    if due == [] {
      ReachedNothing(db, d);
      j, x := 0, db;
    } else {
      var m := due[0];
      var last := RecordRepeatable(m, known, order);
      RepeatableStep(db, due, known, order, d);
      if d == db || d == WithEffect(db, Cut(m.upSql)) || d == AfterSql(db, m) {
        j, x := 0, db;
      } else {
        var db1 := Exec(AfterSql(db, m), last).value;
        var next := if m.version in known then order else order + 1;
        var n;
        n, x := RepeatablesStop(db1, due[1..], known, next, d);
        j := n + 1;
        assert due[..j][0] == m && due[..j][1..] == due[1..][..n];
        RepeatFirst(db, due[..j], known, order);
      }
    }
  }

  lemma RepeatFirst(db: Db, due: seq<Migration>, known: set<string>, order: int)
    requires due != []
    ensures var m := due[0];
      var db1 := Exec(AfterSql(db, m), RecordRepeatable(m, known, order));
      ExecAll(db, RepeatableGroups(due, known, order)) ==
        if db1.None? then None
        else ExecAll(db1.value, RepeatableGroups(due[1..], known, if m.version in known then order else order + 1))
  {
    hide ExecGroup, ExecAll, RecordRepeatable;
    var m := due[0];
    var last := RecordRepeatable(m, known, order);
    var rest := RepeatableGroups(due[1..], known, if m.version in known then order else order + 1);
    assert RepeatableGroups(due, known, order) == [[MigrationSql(m.upSql)]] + ([[last]] + rest);
    ExecAllFirst(db, [MigrationSql(m.upSql)], [[last]] + rest);
    SqlAlways(db, m);
    ExecAllFirst(AfterSql(db, m), [last], rest);
    ExecSingle(AfterSql(db, m), last);
  }

  /** The repeatables whose version is not among `done`. */
  function Open(due: seq<Migration>, done: set<string>): seq<Migration> {
    Keep(due, (m: Migration) => m.version !in done)
  }

  /** Every repeatable whose version is among `done` has a row with its checksum. */
  ghost predicate Settled(rows: seq<AppliedMigration>, due: seq<Migration>, done: set<string>) {
    forall m, r :: m in due && m.version in done && r in rows && r.version == m.version ==> r.checksum == m.checksum
  }

  /** Leaving out the repeatables that are settled makes no difference to the rows. */
  lemma {:induction false} RestIsEnough(
      a: Db, b: Db, rest: seq<Migration>, known: set<string>, done: set<string>, order: int)
    requires a.rows == b.rows && a.deps == b.deps && done <= Versions(a.rows) && Settled(a.rows, rest, done)
    requires ExecAll(a, RepeatableGroups(rest, known, order)).Some?
    ensures var again := ExecAll(b, RepeatableGroups(Open(rest, done), known + done, order));
      var once := ExecAll(a, RepeatableGroups(rest, known, order)).value;
      again.Some? && again.value.rows == once.rows && again.value.deps == once.deps
    decreases |rest|
  {
    hide ExecAll, Versions, Settled;
    RepeatedNothing(a, known, order);
    RepeatedNothing(b, known + done, order);
    if rest == [] {
    } else {
      var m := rest[0];
      RepeatFirst(a, rest, known, order);
      var a1 := Exec(AfterSql(a, m), RecordRepeatable(m, known, order)).value;
      if m.version in done {
        SettledIsKept(a, rest, known, done, order);
        assert Open(rest, done) == Open(rest[1..], done);
        RestIsEnough(a1, b, rest[1..], known, done, order);
      } else {
        var next := if m.version in known then order else order + 1;
        OpenFirst(rest, done);
        OpenIsKept(a, rest, known, done, order);
        var b1 := Exec(AfterSql(b, m), RecordRepeatable(m, known + done, order)).value;
        RepeatFirst(b, [m] + Open(rest[1..], done), known + done, order);
        assert ([m] + Open(rest[1..], done))[1..] == Open(rest[1..], done);
        RestIsEnough(a1, b1, rest[1..], known, done, next);
      }
    }
  }

  lemma OpenFirst(rest: seq<Migration>, done: set<string>)
    requires rest != []
    ensures Open(rest, done) == (if rest[0].version !in done then [rest[0]] else []) + Open(rest[1..], done)
  {}

  /** A settled repeatable has a row, so its record is a checksum that is there already. */
  lemma SettledIsKept(a: Db, rest: seq<Migration>, known: set<string>, done: set<string>, order: int)
    requires rest != [] && rest[0].version in done && done <= Versions(a.rows) && Settled(a.rows, rest, done)
    requires Exec(AfterSql(a, rest[0]), RecordRepeatable(rest[0], known, order)).Some?
    ensures var a1 := Exec(AfterSql(a, rest[0]), RecordRepeatable(rest[0], known, order)).value;
      rest[0].version in known && a1.rows == a.rows && a1.deps == a.deps && Settled(a1.rows, rest[1..], done)
  {
    var m := rest[0];
    forall i | 0 <= i < |a.rows| && a.rows[i].version == m.version ensures a.rows[i].checksum == m.checksum {
      assert a.rows[i] in a.rows && m in rest;
    }
    assert WithChecksum(a.rows, m.version, m.checksum) == a.rows;
    assert forall x :: x in rest[1..] ==> x in rest;
  }

  /** Recording an open repeatable leaves the settled ones settled. */
  lemma OpenIsKept(a: Db, rest: seq<Migration>, known: set<string>, done: set<string>, order: int)
    requires rest != [] && rest[0].version !in done && done <= Versions(a.rows) && Settled(a.rows, rest, done)
    requires Exec(AfterSql(a, rest[0]), RecordRepeatable(rest[0], known, order)).Some?
    ensures var a1 := Exec(AfterSql(a, rest[0]), RecordRepeatable(rest[0], known, order)).value;
      done <= Versions(a1.rows) && Settled(a1.rows, rest[1..], done)
  {
    var m := rest[0];
    var a1 := Exec(AfterSql(a, m), RecordRepeatable(m, known, order)).value;
    if m.version in known {
      ChecksumKeepsVersions(a.rows, m.version, m.checksum);
    } else {
      VersionsAppend(a.rows, RowOf(m, order, Applied));
    }
    forall x, r | x in rest[1..] && x.version in done && r in a1.rows && r.version == x.version
      ensures r.checksum == x.checksum
    {
      var i :| 0 <= i < |a1.rows| && a1.rows[i] == r;
      assert r in a.rows && x in rest;
    }
  }

  /** The repeatable phase numbers its new rows on. */
  lemma {:induction false} RepeatablesNumber(db: Db, due: seq<Migration>, known: set<string>, order: int, x: Db)
    requires Ready(db.rows, order) && NextOrder(db.rows) == order
    requires ExecAll(db, RepeatableGroups(due, known, order)) == Some(x)
    ensures Ready(x.rows, order + NewCount(due, known)) && NextOrder(x.rows) == order + NewCount(due, known)
    decreases |due|
  {
    hide ExecAll, Ready, NextOrder, RecordRepeatable;
    if due == [] {
      RepeatedNothing(db, known, order);
    } else {
      RepeatFirst(db, due, known, order);
      RepeatableNumber(db, due[0], known, order);
      var next := if due[0].version in known then order else order + 1;
      RepeatablesNumber(Exec(AfterSql(db, due[0]), RecordRepeatable(due[0], known, order)).value, due[1..], known,
        next, x);
    }
  }

  lemma RepeatableNumber(db: Db, m: Migration, known: set<string>, order: int)
    requires Ready(db.rows, order) && NextOrder(db.rows) == order
    requires Exec(AfterSql(db, m), RecordRepeatable(m, known, order)).Some?
    ensures var rows := Exec(AfterSql(db, m), RecordRepeatable(m, known, order)).value.rows;
      var next := if m.version in known then order else order + 1;
      Ready(rows, next) && NextOrder(rows) == next
  {
    hide Ready, NextOrder, TableOk, AllApplied;
    var rows := Exec(AfterSql(db, m), RecordRepeatable(m, known, order)).value.rows;
    RecordRepeatableEffect(db, m, known, order);
    if m.version !in known {
      ReadyNextOrder(rows, order + 1);
    } else if db.rows == [] {
      assert rows == db.rows;
    } else {
      LastOrder(db.rows, order);
      ReadyNextOrder(rows, order);
    }
  }

  lemma LastOrder(rows: seq<AppliedMigration>, order: int)
    requires Ready(rows, order) && rows != [] && NextOrder(rows) == order
    ensures rows[|rows| - 1].appliedOrder == order - 1
  {
    MaxOrderIsGreatest(rows);
  }

  /** If checksums agree, the repeatables done so far are the ones no longer due. */
  lemma DueAfterStop(source: Source, mid: Db, due: seq<Migration>, j: nat, x: Db)
    requires TableOk(mid.rows) && TableOk(x.rows) && due == Due(source.repeatable, mid.rows) && j <= |due|
    requires Consistent(source) && Repeated(mid, due[..j], x)
    ensures Due(source.repeatable, x.rows) == Open(due[j..], VersionsOf(due[..j]))
    ensures Settled(x.rows, due[j..], VersionsOf(due[..j]))
  {
    hide TableOk, VersionsOf, IsDue, Repeated;
    var done := VersionsOf(due[..j]);
    var isDue := (m: Migration) => IsDue(m, mid.rows);
    var isOpen := (m: Migration) => m.version !in done;
    forall m | m in source.repeatable ensures IsDue(m, x.rows) <==> isDue(m) && isOpen(m) {
      IsDueAfterStop(source, mid, due, j, x, m);
    }
    KeepBoth(source.repeatable, isDue, isOpen, (m: Migration) => IsDue(m, x.rows));
    assert due == due[..j] + due[j..];
    KeepConcat(due[..j], due[j..], isOpen);
    forall m | m in due[..j] ensures !isOpen(m) {
      VersionIn(due[..j], m);
    }
    KeepNone(due[..j], isOpen);
    assert [] + Keep(due[j..], isOpen) == Keep(due[j..], isOpen);
    forall m, r | m in due[j..] && m.version in done && r in x.rows &&
      r.version == m.version ensures r.checksum == m.checksum {
      assert m in due && m in source.repeatable;
      DoneMatches(source, mid, due, j, x, m, r);
    }
  }

  /** A row whose version is done has the checksum of every repeatable of that version. */
  lemma DoneMatches(source: Source, mid: Db, due: seq<Migration>, j: nat, x: Db, m: Migration, r: AppliedMigration)
    requires due == Due(source.repeatable, mid.rows) && j <= |due| && Consistent(source) && Repeated(mid, due[..j], x)
    requires m in source.repeatable && r in x.rows && r.version == m.version && m.version in VersionsOf(due[..j])
    ensures r.checksum == m.checksum
  {
    hide VersionsOf, Versions;
    var other :| other in due[..j] && Matches(other, r);
    assert other in due && other in source.repeatable && m in source.repeatable + source.versioned;
  }

  lemma MatchedVersion(ms: seq<Migration>, r: AppliedMigration)
    ensures MatchedBy(ms, r) ==> r.version in VersionsOf(ms)
  {
    hide VersionsOf;
    if MatchedBy(ms, r) {
      var m :| m in ms && Matches(m, r);
      VersionIn(ms, m);
    }
  }

  lemma IsDueAfterStop(source: Source, mid: Db, due: seq<Migration>, j: nat, x: Db, m: Migration)
    requires TableOk(mid.rows) && TableOk(x.rows) && due == Due(source.repeatable, mid.rows) && j <= |due|
    requires Consistent(source) && Repeated(mid, due[..j], x) && m in source.repeatable
    ensures IsDue(m, x.rows) <==> IsDue(m, mid.rows) && m.version !in VersionsOf(due[..j])
  {
    hide TableOk, FindRow, Due, Consistent;
    var done := VersionsOf(due[..j]);
    FindRowIs(mid.rows, m.version);
    FindRowIs(x.rows, m.version);
    if m.version in done {
      DoneMatches(source, mid, due, j, x, m, FindRow(x.rows, m.version).value);
    } else if m.version in Versions(x.rows) {
      var r := FindRow(x.rows, m.version).value;
      MatchedVersion(due[..j], r);
      assert r.version in Versions(mid.rows);
      OneRow(mid.rows, r, FindRow(mid.rows, m.version).value);
    }
  }

  lemma {:induction false} KeepBoth<T(!new)>(s: seq<T>, p: T -> bool, q: T -> bool, both: T -> bool)
    requires forall x :: x in s ==> (both(x) <==> p(x) && q(x))
    ensures Keep(s, both) == Keep(Keep(s, p), q)
  {
    if s == [] {
    } else {
      KeepBoth(s[1..], p, q, both);
      assert p(s[0]) ==> Keep(s, p)[1..] == Keep(s[1..], p);
      assert !p(s[0]) ==> Keep(s, p) == Keep(s[1..], p);
    }
  }

  /** Stopped among the repeatables, the same migrate ends with the rows of one that is not stopped. */
  lemma MigrateAfterRepeatables(db: Db, source: Source, target: Option<string>, atomic: bool, d: Db)
    requires TableOk(db.rows) && DistinctVersions(source.versioned) && Consistent(source)
    requires Migrated(db, source, target, atomic).Some?
    requires var plan := Selected(source.versioned, Stored(db.rows), target);
      var mid := Recorded(db, plan, NextOrder(db.rows));
      Reached(mid, RepeatablePhase(mid, source, NextOrder(db.rows) + |plan|), d)
    ensures var again := Migrated(d, source, target, atomic);
      var once := Migrated(db, source, target, atomic).value;
      again.Some? && again.value.rows == once.rows && again.value.deps == once.deps
    ensures TableOk(d.rows) && AllApplied(d.rows)
  {
    hide *;
    var plan := Selected(source.versioned, Stored(db.rows), target);
    var mid, due := AfterMigrate(db, source, target, atomic);
    var order, known := NextOrder(db.rows) + |plan|, Versions(mid.rows);
    MigratedIs(db, source, target, atomic);
    ReadyIsApplied(mid.rows, order);
    PhaseIs(mid, source, order);
    RepeatablesReached(mid, due, known, order, d);
    var j, x := RepeatablesStop(mid, due, known, order, d);
    RepeatablesEffect(mid, due[..j], known, order, x);
    NothingPlanned(db, source, target, mid, due[..j], x);
    forall m | m in due[..j] ensures m in source.repeatable {
      assert m in due;
      DueIsRepeatable(source.repeatable, mid.rows, m);
    }
    ChecksumsStay(source, mid, due[..j], x);
    DueAfterStop(source, mid, due, j, x);
    MidNumber(db, source, target, atomic);
    RepeatablesNumber(mid, due[..j], known, order, x);
    RestOfPhase(mid, due, j, known, order, x);
    RepeatedMeans(mid, due[..j], x);
    RestIsEnough(x, d, due[j..], known, VersionsOf(due[..j]), order + NewCount(due[..j], known));
    AgainFrom(d, source, target, atomic);
  }

  lemma PhaseIs(db: Db, source: Source, order: int)
    requires TableOk(db.rows)
    ensures RepeatablePhase(db, source, order) ==
      RepeatableGroups(Due(source.repeatable, db.rows), Versions(db.rows), order)
  {
    QueryIsRows(db);
  }

  lemma MidNumber(db: Db, source: Source, target: Option<string>, atomic: bool)
    requires TableOk(db.rows) && DistinctVersions(source.versioned) && Migrated(db, source, target, atomic).Some?
    ensures var plan := Selected(source.versioned, Stored(db.rows), target);
      NextOrder(Recorded(db, plan, NextOrder(db.rows)).rows) == NextOrder(db.rows) + |plan|
  {
    hide *;
    var plan := Selected(source.versioned, Stored(db.rows), target);
    MigratedIs(db, source, target, atomic);
    CanMigrateIs(db.rows, source.versioned, plan, atomic);
    ReadyWhenApplied(db.rows);
    NextOrderAfter(db, plan);
  }

  lemma RestOfPhase(mid: Db, due: seq<Migration>, j: nat, known: set<string>, order: int, x: Db)
    requires j <= |due| && ExecAll(mid, RepeatableGroups(due[..j], known, order)) == Some(x)
    ensures ExecAll(mid, RepeatableGroups(due, known, order)) ==
      ExecAll(x, RepeatableGroups(due[j..], known, order + NewCount(due[..j], known)))
  {
    hide *;
    RepeatableGroupsSplit(due, j, known, order);
    ExecAllConcat(mid, RepeatableGroups(due[..j], known, order),
                  RepeatableGroups(due[j..], known, order + NewCount(due[..j], known)));
  }

  lemma RepeatedMeans(mid: Db, due: seq<Migration>, x: Db)
    requires Repeated(mid, due, x)
    ensures Versions(x.rows) == Versions(mid.rows) + VersionsOf(due)
  {}

  /** With nothing to plan, a migrate is its repeatable phase. */
  lemma AgainFrom(d: Db, source: Source, target: Option<string>, atomic: bool)
    requires TableOk(d.rows) && AllApplied(d.rows) && DistinctVersions(source.versioned)
    requires Selected(source.versioned, Stored(d.rows), target) == [] && ChecksumsAgree(source.versioned, d.rows)
    ensures Migrated(d, source, target, atomic) ==
      ExecAll(d, RepeatableGroups(Due(source.repeatable, d.rows), Versions(d.rows), NextOrder(d.rows)))
  {
    hide Migrated, Stored, ChecksumsAgree, Recordable, TableOk, AllApplied, NextOrder, ExecAll, Due, RepeatableGroups,
         Selected, RepeatablePhase;
    MigratedIs(d, source, target, atomic);
    RecordedNothing(d, NextOrder(d.rows));
    PhaseIs(d, source, NextOrder(d.rows));
  }

  // ----- Stops anywhere -----

  /** After a repair, the same migrate ends with the rows, order numbers and dependencies of `once`. */
  ghost predicate CatchesUp(
      d: Db, source: Source, target: Option<string>, atomic: bool, strategy: RepairStrategy, once: Db)
  {
    && Repaired(d, source, strategy).Some?
    && var again := Migrated(Repaired(d, source, strategy).value, source, target, atomic);
      again.Some? && again.value.rows == once.rows && again.value.deps == once.deps
  }

  lemma CatchesUpMeans(
      d: Db, source: Source, target: Option<string>, atomic: bool, strategy: RepairStrategy, once: Db)
    requires Repaired(d, source, strategy).Some?
    requires var again := Migrated(Repaired(d, source, strategy).value, source, target, atomic);
      again.Some? && again.value.rows == once.rows && again.value.deps == once.deps
    ensures CatchesUp(d, source, target, atomic, strategy, once)
  {}

  /** Stopped anywhere, a consistent source catches up with the migrate that is not stopped. */
  lemma CatchesUpFrom(
      db: Db, source: Source, target: Option<string>, atomic: bool, d: Db, strategy: RepairStrategy)
    requires TableOk(db.rows) && DistinctVersions(source.versioned) && Consistent(source)
    requires Migrated(db, source, target, atomic).Some? && (strategy == Retry || strategy == Skip)
    requires Reached(db, Program(Migrate(source, target, atomic, false), db), d)
    ensures CatchesUp(d, source, target, atomic, strategy, Migrated(db, source, target, atomic).value)
  {
    hide *;
    var plan := Selected(source.versioned, Stored(db.rows), target);
    var order := NextOrder(db.rows);
    var versioned := VersionedGroups(plan, order, atomic);
    var mid := Recorded(db, plan, order);
    MigratedIs(db, source, target, atomic);
    ProgramIs(db, source, target, atomic);
    ReachedSplit(db, versioned, RepeatablePhase(mid, source, order + |plan|), d);
    if Reached(db, versioned, d) {
      var k, done, tail := RepairThenMigrate(db, source, target, atomic, d, strategy);
    } else {
      MigrateAfterRepeatables(db, source, target, atomic, d);
      AppliedNeedsNoRepair(d, source, strategy);
    }
    CatchesUpMeans(d, source, target, atomic, strategy, Migrated(db, source, target, atomic).value);
  }

  /** A repeatable that is due leaves a row that was not there. */
  lemma DueLeavesRow(d: Db, source: Source, x: Db)
    requires TableOk(d.rows) && Due(source.repeatable, d.rows) != [] && Repeated(d, Due(source.repeatable, d.rows), x)
    ensures x.rows != d.rows
  {
    hide TableOk, Due, VersionsOf, FindRow;
    var due := Due(source.repeatable, d.rows);
    VersionIn(due, due[0]);
    var r := RowWith(x.rows, due[0].version);
    var m :| m in due && Matches(m, r);
    DueIsDue(source.repeatable, d.rows, m);
    FindRowIs(d.rows, m.version);
    if r in d.rows {
      assert r.version in Versions(d.rows);
      OneRow(d.rows, r, FindRow(d.rows, m.version).value);
    }
  }

  lemma DueIsDue(repeatables: seq<Migration>, rows: seq<AppliedMigration>, m: Migration)
    requires m in Due(repeatables, rows)
    ensures IsDue(m, rows)
  {}

  /** If the rows stay, nothing was due. */
  lemma SameRowsNothingDue(d: Db, source: Source, target: Option<string>, atomic: bool)
    requires TableOk(d.rows) && AllApplied(d.rows) && DistinctVersions(source.versioned)
    requires Selected(source.versioned, Stored(d.rows), target) == [] && Migrated(d, source, target, atomic).Some?
    requires Migrated(d, source, target, atomic).value.rows == d.rows
    ensures ChecksumsAgree(source.versioned, d.rows) && NothingDue(d, source)
  {
    hide *;
    MigratedIs(d, source, target, atomic);
    CanMigrateIs(d.rows, source.versioned, [], atomic);
    AgainFrom(d, source, target, atomic);
    var due := Due(source.repeatable, d.rows);
    var x := Migrated(d, source, target, atomic).value;
    RepeatablesEffect(d, due, Versions(d.rows), NextOrder(d.rows), x);
    if due != [] {
      DueLeavesRow(d, source, x);
    }
    NothingDueMeans(d, source);
  }

  lemma NothingDueMeans(d: Db, source: Source)
    requires TableOk(d.rows)
    ensures NothingDue(d, source) <==> Due(source.repeatable, d.rows) == []
  {
    QueryIsRows(d);
  }

  /** A migrate that was not stopped catches up with itself only if the source is consistent. */
  lemma CatchesUpAtEnd(db: Db, source: Source, target: Option<string>, atomic: bool)
    requires TableOk(db.rows) && DistinctVersions(source.versioned) && Migrated(db, source, target, atomic).Some?
    requires var once := Migrated(db, source, target, atomic).value;
      CatchesUp(once, source, target, atomic, Retry, once)
    ensures Consistent(source)
  {
    hide Migrated, Repaired, Consistent, TableOk, AllApplied, DistinctVersions, Selected, Stored, ChecksumsAgree,
         NothingDue, Repeated, Due, Recorded;
    var mid, due := AfterMigrate(db, source, target, atomic);
    var once := Migrated(db, source, target, atomic).value;
    AppliedNeedsNoRepair(once, source, Retry);
    NothingPlanned(db, source, target, mid, due, once);
    SameRowsNothingDue(once, source, target, atomic);
    AgreesIsConsistent(source, once);
  }

  lemma EndIsReached(db: Db, source: Source, target: Option<string>, atomic: bool)
    requires Migrated(db, source, target, atomic).Some?
    ensures Reached(db, Program(Migrate(source, target, atomic, false), db), Migrated(db, source, target, atomic).value)
  {
    hide ExecAll, Reached, BuildPlan, MigrateProgram;
    ExecAllReached(db, Program(Migrate(source, target, atomic, false), db));
  }

  /**
   Recovery: for a migrate that would succeed, a retry or a skip of a half-way
   migration and then the same migrate make up for every stop, exactly if no two
   migrations of the source share a version but not the checksum.
   */
  lemma Recovers(db: Db, source: Source, target: Option<string>, atomic: bool)
    requires TableOk(db.rows) && DistinctVersions(source.versioned) && Migrated(db, source, target, atomic).Some?
    ensures Consistent(source) <==>
      forall d, strategy ::
        (strategy == Retry || strategy == Skip) && Reached(db, Program(Migrate(source, target, atomic, false), db), d)
        ==> CatchesUp(d, source, target, atomic, strategy, Migrated(db, source, target, atomic).value)
  {
    hide *;
    var once := Migrated(db, source, target, atomic).value;
    var program := Program(Migrate(source, target, atomic, false), db);
    EndIsReached(db, source, target, atomic);
    if Consistent(source) {
      forall d, strategy | (strategy == Retry || strategy == Skip) && Reached(db, program, d)
        ensures CatchesUp(d, source, target, atomic, strategy, once)
      {
        CatchesUpFrom(db, source, target, atomic, d, strategy);
      }
    }
    if CatchesUp(once, source, target, atomic, Retry, once) {
      CatchesUpAtEnd(db, source, target, atomic);
    }
  }

  lemma AppliedNeedsNoRepair(d: Db, source: Source, strategy: RepairStrategy)
    requires TableOk(d.rows) && AllApplied(d.rows)
    ensures Repaired(d, source, strategy) == Some(d)
  {
    ReadyWhenApplied(d.rows);
    NothingToRepair(d, NextOrder(d.rows), source, strategy);
  }

  lemma ProgramIs(db: Db, source: Source, target: Option<string>, atomic: bool)
    requires TableOk(db.rows) && Migrated(db, source, target, atomic).Some?
    requires Recordable(db.rows, Selected(source.versioned, Stored(db.rows), target))
    ensures var plan := Selected(source.versioned, Stored(db.rows), target);
      var order := NextOrder(db.rows);
      var mid := Recorded(db, plan, order);
      && Program(Migrate(source, target, atomic, false), db) ==
         VersionedGroups(plan, order, atomic) + RepeatablePhase(mid, source, order + |plan|)
      && ExecAll(db, VersionedGroups(plan, order, atomic)) == Some(mid)
  {
    hide Selected, Stored, NextOrder, VersionedGroups, RepeatablePhase, ExecAll, Recorded, Recordable, TableOk, Query;
    var plan := Selected(source.versioned, Stored(db.rows), target);
    QueryIsRows(db);
    BuildValue(source.versioned, db.rows, target, atomic);
    VersionedEffect(db, plan, NextOrder(db.rows), atomic);
  }
}
