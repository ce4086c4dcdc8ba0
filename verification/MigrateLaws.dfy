/**
 Laws of migrate, rollback and baseline: what a migrate leaves when it is cut
 short, migrating in stages, adopting a database by baseline, and undoing a
 migrate by a rollback.
 */
module MigrateLaws {
  import opened Wrappers
  import opened Ordering
  import opened Migrations
  import opened Plan
  import opened Programs
  import opened Tracking
  import opened Histories

  // ----- All, nothing or a prefix -----

  /** The rows that no repeatable of the source owns. */
  function VersionedPart(rows: seq<AppliedMigration>, repeatables: set<string>): seq<AppliedMigration> {
    Keep(rows, (r: AppliedMigration) => r.version !in repeatables)
  }

  lemma {:induction false} KeepConcat<T(!new)>(a: seq<T>, b: seq<T>, p: T -> bool)
    ensures Keep(a + b, p) == Keep(a, p) + Keep(b, p)
  {
    if a == [] {
      assert a + b == b;
    } else {
      assert (a + b)[1..] == a[1..] + b;
      KeepConcat(a[1..], b, p);
    }
  }

  lemma {:induction false} KeepAlike<T(!new)>(a: seq<T>, b: seq<T>, p: T -> bool)
    requires |a| == |b|
    requires forall i :: 0 <= i < |a| ==> p(a[i]) == p(b[i]) && (p(a[i]) ==> a[i] == b[i])
    ensures Keep(a, p) == Keep(b, p)
  {
    if a == [] {
    } else {
      KeepAlike(a[1..], b[1..], p);
    }
  }

  lemma {:induction false} KeepAll<T(!new)>(s: seq<T>, p: T -> bool)
    requires forall x :: x in s ==> p(x)
    ensures Keep(s, p) == s
  {
    if s == [] {
    } else {
      KeepAll(s[1..], p);
    }
  }

  lemma {:induction false} KeepNone<T(!new)>(s: seq<T>, p: T -> bool)
    requires forall x :: x in s ==> !p(x)
    ensures Keep(s, p) == []
  {
    if s == [] {
    } else {
      KeepNone(s[1..], p);
    }
  }

  lemma VersionedConcat(a: seq<AppliedMigration>, b: seq<AppliedMigration>, repeatables: set<string>)
    requires forall r :: r in b ==> r.version !in repeatables
    ensures VersionedPart(a + b, repeatables) == VersionedPart(a, repeatables) + b
  {
    var p := (r: AppliedMigration) => r.version !in repeatables;
    KeepConcat(a, b, p);
    KeepAll(b, p);
  }

  lemma PlanRowsVersioned(plan: seq<Migration>, ms: seq<Migration>, order: int, repeatables: set<string>)
    requires forall m :: m in plan ==> m.version !in repeatables
    requires forall m :: m in ms ==> m in plan
    ensures forall r :: r in RowsOf(ms, order) ==> r.version !in repeatables
  {}

  /** The repeatable phase leaves the versioned rows exactly as they are. */
  lemma RefreshedKeepsVersioned(db: Db, repeatables: set<string>, d: Db)
    requires Refreshed(db, repeatables, d)
    ensures VersionedPart(d.rows, repeatables) == VersionedPart(db.rows, repeatables)
  {
    var p := (r: AppliedMigration) => r.version !in repeatables;
    var n := |db.rows|;
    assert d.rows == d.rows[..n] + d.rows[n..];
    KeepConcat(d.rows[..n], d.rows[n..], p);
    forall i | 0 <= i < n ensures p(db.rows[i]) == p(d.rows[i]) && (p(db.rows[i]) ==> db.rows[i] == d.rows[i]) {
      assert d.rows[i] == db.rows[i].(checksum := d.rows[i].checksum);
    }
    KeepAlike(db.rows, d.rows[..n], p);
    KeepNone(d.rows[n..], p);
  }

  /** What a versioned phase has added: `k` rows of the plan and perhaps one PARTIAL row. */
  ghost predicate PlanRows(plan: seq<Migration>, order: int, k: nat, added: seq<AppliedMigration>) {
    && k <= |plan|
    && (added == RowsOf(plan[..k], order)
        || (k < |plan| && plan[k].noTransaction &&
          added == RowsOf(plan[..k], order) + [RowOf(plan[k], order + k, Partial)]))
  }

  lemma StoppedVersioned(db: Db, plan: seq<Migration>, order: int, k: nat, d: Db, repeatables: set<string>)
    returns (added: seq<AppliedMigration>)
    requires StoppedAt(db, plan, order, k, d)
    requires forall m :: m in plan ==> m.version !in repeatables
    ensures PlanRows(plan, order, k, added)
    ensures VersionedPart(d.rows, repeatables) == VersionedPart(db.rows, repeatables) + added
    ensures d == Recorded(db, plan[..k], order) ==> added == RowsOf(plan[..k], order)
  {
    hide RowsOf, Recordable, VersionedPart, Ups, WithDeps, Versions;
    var done := Recorded(db, plan[..k], order);
    added := if d == done then RowsOf(plan[..k], order)
      else RowsOf(plan[..k], order) + [RowOf(plan[k], order + k, Partial)];
    assert d.rows == db.rows + added;
    PlanRowsVersioned(plan, plan[..k], order, repeatables);
    assert k < |plan| ==> plan[k] in plan;
    VersionedConcat(db.rows, added, repeatables);
  }

  /**
   Wherever a migrate stops, the versioned rows are those of before followed by
   the first `k` rows of the plan and, in sequential mode, perhaps one PARTIAL
   row. In atomic mode `k` is 0 or the whole plan and nothing is PARTIAL; after
   a success `k` is the whole plan and the table has no PARTIAL row.
   */
  lemma MigrateOutcome(db: Db, source: Source, target: Option<string>, atomic: bool, d: Db)
    returns (k: nat, added: seq<AppliedMigration>)
    requires TableOk(db.rows) && BuildPlan(source.versioned, db.rows, target, atomic).Ok?
    requires forall m :: m in source.versioned ==> m.version !in VersionsOf(source.repeatable)
    requires Reached(db, Program(Migrate(source, target, atomic, false), db), d)
    ensures var plan := BuildPlan(source.versioned, db.rows, target, atomic).value;
      var repeatables := VersionsOf(source.repeatable);
      && PlanRows(plan, NextOrder(db.rows), k, added)
      && VersionedPart(d.rows, repeatables) == VersionedPart(db.rows, repeatables) + added
      && (atomic ==> (added == [] && d == db) || added == RowsOf(plan, NextOrder(db.rows)))
      && (ExecAll(db, Program(Migrate(source, target, atomic, false), db)) == Some(d) ==>
            added == RowsOf(plan, NextOrder(db.rows)) && AllApplied(d.rows))
  {
    hide Reached, MigrateProgram, Refreshed, StoppedAt, TableOk, AllApplied, Query, NextOrder, BuildPlan, Recorded,
         VersionsOf, VersionedPart, PlanRows, ExecAll, RowsOf;
    QueryIsRows(db);
    var plan := BuildPlan(source.versioned, db.rows, target, atomic).value;
    var repeatables := VersionsOf(source.repeatable);
    BuildNeedsNoPartial(source.versioned, db.rows, target, atomic);
    PlanFromSource(source.versioned, db.rows, target, atomic);
    var n, mid := MigrateReached(db, source, plan, atomic, d);
    k := n;
    added := StoppedVersioned(db, plan, NextOrder(db.rows), k, mid, repeatables);
    if d != mid {
      RefreshedKeepsVersioned(mid, repeatables, d);
    }
    if mid == Recorded(db, plan, NextOrder(db.rows)) {
      StoppedAtWhole(db, plan, NextOrder(db.rows), k, mid, added, repeatables);
    }
    if ExecAll(db, Program(Migrate(source, target, atomic, false), db)) == Some(d) {
      MigrateSucceeded(db, source, plan, atomic, k, mid, d);
      StoppedAtWhole(db, plan, NextOrder(db.rows), k, mid, added, repeatables);
    }
    if atomic && mid == db {
      StoppedAtNothing(db, added, repeatables);
    }
  }

  lemma StoppedAtNothing(db: Db, added: seq<AppliedMigration>, repeatables: set<string>)
    requires VersionedPart(db.rows, repeatables) == VersionedPart(db.rows, repeatables) + added
    ensures added == []
  {
    assert |VersionedPart(db.rows, repeatables) + added| == |VersionedPart(db.rows, repeatables)| + |added|;
  }

  lemma StoppedAtWhole(db: Db, plan: seq<Migration>, order: int, k: nat, mid: Db,
                       added: seq<AppliedMigration>, repeatables: set<string>)
    requires mid == Recorded(db, plan, order) && StoppedAt(db, plan, order, k, mid)
    requires forall m :: m in plan ==> m.version !in repeatables
    requires VersionedPart(mid.rows, repeatables) == VersionedPart(db.rows, repeatables) + added
    ensures added == RowsOf(plan, order)
  {
    hide RowsOf, Recordable, VersionedPart, Ups, WithDeps, Versions, StoppedAt;
    PlanRowsVersioned(plan, plan, order, repeatables);
    VersionedConcat(db.rows, RowsOf(plan, order), repeatables);
    var before := VersionedPart(db.rows, repeatables);
    assert (before + added)[|before|..] == added && (before + RowsOf(plan, order))[|before|..] == RowsOf(plan, order);
  }

  lemma MigrateSucceeded(db: Db, source: Source, plan: seq<Migration>, atomic: bool, k: nat, mid: Db, d: Db)
    requires TableOk(db.rows) && FirstPartial(db.rows).None?
    requires ExecAll(db, MigrateProgram(db, source, plan, atomic)) == Some(d)
    requires StoppedAt(db, plan, NextOrder(db.rows), k, mid)
    requires d == mid || (k == |plan| && mid == Recorded(db, plan, NextOrder(db.rows)) && AllApplied(d.rows))
    ensures mid == Recorded(db, plan, NextOrder(db.rows)) && AllApplied(d.rows)
  {
    hide Reached, VersionedGroups, Refreshed, Query, NextOrder, RepeatablePhase, ExecAll, TableOk;
    QueryIsRows(db);
    ReadyForNextOrder(db.rows);
    var order := NextOrder(db.rows);
    VersionedEffect(db, plan, order, atomic);
    var all := Recorded(db, plan, order);
    RecordedIsReady(db, plan, order);
    var last := RepeatablePhase(all, source, order + |plan|);
    ExecAllConcat(db, VersionedGroups(plan, order, atomic), last);
    ExecAllReached(all, last);
    RepeatablePhaseReached(all, source, order + |plan|, d);
    if d == mid {
      assert |mid.rows| <= |db.rows| + |plan| by {
        MidwayRows(db, plan, order, k, mid);
      }
      RefreshedLonger(all, VersionsOf(source.repeatable), d);
      MidwayIsPartial(db, plan, order, k, mid);
    }
  }

  lemma RefreshedLonger(db: Db, due: set<string>, d: Db)
    requires Refreshed(db, due, d)
    ensures |db.rows| <= |d.rows|
  {}

  lemma MidwayRows(db: Db, plan: seq<Migration>, order: int, k: nat, d: Db)
    requires StoppedAt(db, plan, order, k, d)
    ensures |d.rows| <= |db.rows| + |plan|
  {}

  lemma MidwayIsPartial(db: Db, plan: seq<Migration>, order: int, k: nat, d: Db)
    requires StoppedAt(db, plan, order, k, d) && AllApplied(d.rows) && |d.rows| >= |db.rows| + |plan|
    ensures d == Recorded(db, plan, order)
  {
    assert plan[..|plan|] == plan;
    assert d.rows != [] ==> d.rows[|d.rows| - 1] in d.rows;
  }

  // ----- Migrating in stages -----

  /** The database a migrate that succeeds leaves; `None` when it cannot succeed. */
  function Migrated(db: Db, source: Source, target: Option<string>, atomic: bool): Option<Db> {
    match BuildPlan(source.versioned, Query(db), target, atomic)
    case Err(_) => None
    case Ok(plan) => ExecAll(db, MigrateProgram(db, source, plan, atomic))
  }

  ghost predicate DistinctVersions(ms: seq<Migration>) {
    forall i, j :: 0 <= i < j < |ms| ==> ms[i].version != ms[j].version
  }

  /** A strictly sorted list is determined by its members. */
  lemma {:induction false} SortedByMembers(a: seq<Migration>, b: seq<Migration>)
    requires SortedBy(a, VersionLt) && SortedBy(b, VersionLt)
    requires forall m :: m in a <==> m in b
    ensures a == b
    decreases |a|
  {
    assert b != [] ==> b[0] in a;
    assert a != [] ==> a[0] in b;
    if a == [] {
    } else {
      SortedFirst(a, b[0]);
      SortedFirst(b, a[0]);
      StrLtTrichotomy(a[0].version, b[0].version);
      forall m ensures m in a[1..] <==> m in b[1..] {
        SortedTail(a, m);
        SortedTail(b, m);
      }
      SortedByMembers(a[1..], b[1..]);
      assert a == [a[0]] + a[1..] && b == [b[0]] + b[1..];
    }
  }

  lemma SortedFirst(a: seq<Migration>, m: Migration)
    requires SortedBy(a, VersionLt) && m in a
    ensures m == a[0] || StrLt(a[0].version, m.version)
  {
    var i :| 0 <= i < |a| && a[i] == m;
  }

  lemma SortedTail(a: seq<Migration>, m: Migration)
    requires a != [] && SortedBy(a, VersionLt)
    ensures m in a[1..] <==> m in a && m != a[0]
  {
    StrLtTrichotomy(a[0].version, a[0].version);
    if m in a && m != a[0] {
      var i :| 0 <= i < |a| && a[i] == m;
      assert a[1..][i - 1] == m;
    }
    if m in a[1..] {
      var i :| 0 <= i < |a[1..]| && a[1..][i] == m;
      assert StrLt(a[0].version, a[i + 1].version);
    }
  }

  /** Of a source with distinct versions, a plan is strictly sorted. */
  lemma SelectedStrict(pending: seq<Migration>, applied: seq<AppliedMigration>, target: Option<string>)
    requires DistinctVersions(pending)
    ensures SortedBy(Selected(pending, Stored(applied), target), VersionLt)
  {
    var plan := Selected(pending, Stored(applied), target);
    SelectedContents(pending, applied, target);
    forall i, j | 0 <= i < j < |plan| ensures StrLt(plan[i].version, plan[j].version) {
      assert ByVersion(plan[i], plan[j]);
      var v := plan[i].version;
      if plan[j].version == v {
        assert plan[i] in plan;
        var p := (m: Migration) => m.version == v;
        assert Keep(plan, (m: Migration) => m.version == v) == Keep(pending, (m: Migration) => m.version == v);
        KeepTwo(plan, p, i, j);
        KeepAtMostOne(pending, v);
      }
    }
  }

  lemma {:induction false} KeepTwo<T(!new)>(s: seq<T>, p: T -> bool, i: nat, j: nat)
    requires i < j < |s| && p(s[i]) && p(s[j])
    ensures |Keep(s, p)| >= 2
  {
    assert s == s[..j] + s[j..];
    KeepConcat(s[..j], s[j..], p);
    assert s[..j][i] in s[..j] && s[j..][0] in s[j..];
    assert s[i] in Keep(s[..j], p) && s[j] in Keep(s[j..], p);
  }

  lemma {:induction false} KeepAtMostOne(ms: seq<Migration>, v: string)
    requires DistinctVersions(ms)
    ensures |Keep(ms, (m: Migration) => m.version == v)| <= 1
  {
    if ms == [] {
    } else {
      KeepAtMostOne(ms[1..], v);
      if ms[0].version == v {
        forall m | m in ms[1..] ensures m.version != v {
          var i :| 0 <= i < |ms[1..]| && ms[1..][i] == m;
          assert ms[i + 1].version != ms[0].version;
        }
        KeepNone(ms[1..], (m: Migration) => m.version == v);
      }
    }
  }

  lemma {:induction false} StoredAt(rows: seq<AppliedMigration>, r: AppliedMigration)
    requires TableOk(rows) && r in rows
    ensures r.version in Stored(rows) && Stored(rows)[r.version] == r.checksum
  {
    var last := rows[|rows| - 1];
    if r != last {
      assert rows == rows[..|rows| - 1] + [last];
      StoredAt(rows[..|rows| - 1], r);
    }
  }

  /** `t` stops no later than `u`. */
  predicate StopsWithin(t: Option<string>, u: Option<string>) {
    u.None? || (t.Some? && StrLe(t.value, u.value))
  }

  lemma UpToWithin(v: string, w: string, t: Option<string>, u: Option<string>)
    requires StopsWithin(t, u)
    ensures UpTo(v, t) ==> UpTo(v, u)
    ensures UpTo(v, t) && !UpTo(w, t) ==> StrLt(v, w)
  {
    if UpTo(v, t) && t.Some? {
      if u.Some? && v != t.value && t.value != u.value {
        StrLtTransitive(v, t.value, u.value);
      }
      if !UpTo(w, t) {
        StrLtTrichotomy(w, t.value);
        if v != t.value {
          StrLtTransitive(v, t.value, w);
        }
      }
    }
  }

  lemma VersionInPlan(pending: seq<Migration>, some: seq<Migration>, m: Migration)
    requires DistinctVersions(pending) && m in pending
    requires forall x :: x in some ==> x in pending
    ensures m.version in VersionsOf(some) <==> m in some
  {}

  /** The plan up to `u` is the plan up to `t` followed by the plan up to `u` once that is recorded. */
  lemma PlanInStages(pending: seq<Migration>, rows: seq<AppliedMigration>, order: int, t: Option<string>,
      u: Option<string>)
    requires DistinctVersions(pending) && StopsWithin(t, u)
    ensures var first := Selected(pending, Stored(rows), t);
      Selected(pending, Stored(rows), u) == first + Selected(pending, Stored(rows + RowsOf(first, order)), u)
  {
    hide *;
    var first := Selected(pending, Stored(rows), t);
    var rows' := rows + RowsOf(first, order);
    var second := Selected(pending, Stored(rows'), u);
    var whole := Selected(pending, Stored(rows), u);
    SelectedStrict(pending, rows, t);
    SelectedStrict(pending, rows, u);
    SelectedStrict(pending, rows', u);
    forall m ensures m in first ==> m in whole {
      StagesMembers(pending, rows, order, t, u, m);
    }
    forall m ensures m in second <==> m in whole && m !in first {
      StagesMembers(pending, rows, order, t, u, m);
    }
    forall x, y | x in first && y in second ensures StrLt(x.version, y.version) {
      StagesMembers(pending, rows, order, t, u, x);
      StagesMembers(pending, rows, order, t, u, y);
      UpToWithin(x.version, y.version, t, u);
    }
    ConcatSorted(first, second);
    SortedByMembers(first + second, whole);
  }

  lemma ConcatSorted(a: seq<Migration>, b: seq<Migration>)
    requires SortedBy(a, VersionLt) && SortedBy(b, VersionLt)
    requires forall x, y :: x in a && y in b ==> StrLt(x.version, y.version)
    ensures SortedBy(a + b, VersionLt)
  {}

  lemma StagesMembers(pending: seq<Migration>, rows: seq<AppliedMigration>, order: int, t: Option<string>,
      u: Option<string>, m: Migration)
    requires DistinctVersions(pending) && StopsWithin(t, u)
    ensures var first := Selected(pending, Stored(rows), t);
      var second := Selected(pending, Stored(rows + RowsOf(first, order)), u);
      var whole := Selected(pending, Stored(rows), u);
      && (m in first ==> m in whole && UpTo(m.version, t))
      && (m in second ==> !UpTo(m.version, t))
      && (m in second <==> m in whole && m !in first)
  {
    hide Selected, DistinctVersions, Stored, RowsOf, Versions, VersionsOf, UpTo, StopsWithin;
    var first := Selected(pending, Stored(rows), t);
    var rows' := rows + RowsOf(first, order);
    SelectedContents(pending, rows, t);
    SelectedContents(pending, rows, u);
    SelectedContents(pending, rows', u);
    VersionsConcat(rows, RowsOf(first, order));
    VersionsOfRows(first, order);
    UpToWithin(m.version, m.version, t, u);
    if m in pending {
      VersionInPlan(pending, first, m);
    }
  }

  lemma NeedsMetInStages(a: seq<Migration>, b: seq<Migration>, have: set<string>)
    ensures NeedsMet(a + b, have) <==> NeedsMet(a, have) && NeedsMet(b, have + VersionsOf(a))
  {
    var ms := a + b;
    if NeedsMet(ms, have) {
      forall i, d | 0 <= i < |a| && d in a[i].needs ensures d in have || PlannedBefore(a, i, d) {
        assert ms[i] == a[i];
        assert d in have || PlannedBefore(ms, i, d);
        if d !in have {
          var j :| 0 <= j < i && ms[j].version == d;
          assert a[j].version == d;
        }
      }
      forall i, d | 0 <= i < |b| && d in b[i].needs ensures d in have + VersionsOf(a) || PlannedBefore(b, i, d) {
        assert ms[|a| + i] == b[i];
        assert d in have || PlannedBefore(ms, |a| + i, d);
        if d !in have {
          var j :| 0 <= j < |a| + i && ms[j].version == d;
          if j < |a| {
            assert a[j] in a;
          } else {
            assert b[j - |a|].version == d;
          }
        }
      }
    }
    if NeedsMet(a, have) && NeedsMet(b, have + VersionsOf(a)) {
      forall i, d | 0 <= i < |ms| && d in ms[i].needs ensures d in have || PlannedBefore(ms, i, d) {
        if i < |a| {
          assert d in have || PlannedBefore(a, i, d);
          if d !in have {
            var j :| 0 <= j < i && a[j].version == d;
            assert ms[j].version == d;
          }
        } else {
          assert d in have + VersionsOf(a) || PlannedBefore(b, i - |a|, d);
          if d in VersionsOf(a) {
            var m :| m in a && m.version == d;
            var j :| 0 <= j < |a| && a[j] == m;
            assert ms[j].version == d;
          } else if d !in have {
            var j :| 0 <= j < i - |a| && b[j].version == d;
            assert ms[|a| + j].version == d;
          }
        }
      }
    }
  }

  /** The source agrees with every stored checksum. */
  ghost predicate ChecksumsAgree(pending: seq<Migration>, rows: seq<AppliedMigration>) {
    forall m :: m in pending && m.version in Stored(rows) ==> Stored(rows)[m.version] == m.checksum
  }

  lemma RecordedChecksumsAgree(db: Db, pending: seq<Migration>, first: seq<Migration>, order: int)
    requires DistinctVersions(pending) && Ready(db.rows, order) && Recordable(db.rows, first)
    requires forall m :: m in first ==> m in pending
    requires ChecksumsAgree(pending, db.rows)
    ensures ChecksumsAgree(pending, Recorded(db, first, order).rows)
  {
    hide RowsOf, Recordable, Recorded, Ready, DistinctVersions, TableOk;
    var rows := Recorded(db, first, order).rows;
    RecordedIsReady(db, first, order);
    RecordedRows(db, first, order);
    ReadyTable(rows, order + |first|);
    ReadyTable(db.rows, order);
    StoredKeys(rows);
    StoredKeys(db.rows);
    forall m | m in pending && m.version in Stored(rows) ensures Stored(rows)[m.version] == m.checksum {
      var r :| r in rows && r.version == m.version;
      StoredAt(rows, r);
      if r in db.rows {
        StoredAt(db.rows, r);
      } else {
        RowOfSource(pending, first, order, r, m);
      }
    }
  }

  lemma RowWith(rows: seq<AppliedMigration>, version: string) returns (r: AppliedMigration)
    requires version in Versions(rows)
    ensures r in rows && r.version == version
  {
    r :| r in rows && r.version == version;
  }

  lemma ReadyTable(rows: seq<AppliedMigration>, order: int)
    requires Ready(rows, order)
    ensures TableOk(rows)
  {}

  lemma RowOfSource(pending: seq<Migration>, some: seq<Migration>, order: int, r: AppliedMigration, m: Migration)
    requires DistinctVersions(pending) && m in pending && r.version == m.version
    requires r in RowsOf(some, order) && forall x :: x in some ==> x in pending
    ensures r.checksum == m.checksum
  {
    var i :| 0 <= i < |some| && RowsOf(some, order)[i] == r;
    assert some[i] in some;
    var a :| 0 <= a < |pending| && pending[a] == some[i];
    var b :| 0 <= b < |pending| && pending[b] == m;
    assert a == b;
  }

  /** What planning asks of the table, the source and the plan. */
  ghost predicate CanMigrate(rows: seq<AppliedMigration>, pending: seq<Migration>, plan: seq<Migration>, atomic: bool) {
    && AllApplied(rows)
    && ChecksumsAgree(pending, rows)
    && NeedsMet(plan, Versions(rows))
    && (atomic ==> forall m :: m in plan ==> !m.noTransaction)
  }

  /**
   When, and with what result, a migrate succeeds: planning succeeds, the plan
   is recorded, and the repeatables due after it go through.
   */
  lemma MigratedIs(db: Db, source: Source, target: Option<string>, atomic: bool)
    requires TableOk(db.rows) && DistinctVersions(source.versioned)
    ensures var plan := Selected(source.versioned, Stored(db.rows), target);
      var order := NextOrder(db.rows);
      var mid := Recorded(db, plan, order);
      && Recordable(db.rows, plan)
      && Migrated(db, source, target, atomic) ==
         if CanMigrate(db.rows, source.versioned, plan, atomic)
         then ExecAll(mid, RepeatablePhase(mid, source, order + |plan|))
         else None
  {
    hide Query, NextOrder, VersionedGroups, RepeatablePhase, Selected, ExecAll, TableOk, NeedsMet;
    var plan := Selected(source.versioned, Stored(db.rows), target);
    QueryIsRows(db);
    SelectedContents(source.versioned, db.rows, target);
    SelectedStrict(source.versioned, db.rows, target);
    forall i, j | 0 <= i < j < |plan| ensures plan[i].version != plan[j].version {
      StrLtTrichotomy(plan[i].version, plan[j].version);
    }
    BuildSucceeds(source.versioned, db.rows, target, atomic);
    var order := NextOrder(db.rows);
    var mid := Recorded(db, plan, order);
    VersionedEffect(db, plan, order, atomic);
    if BuildPlan(source.versioned, db.rows, target, atomic).Ok? {
      BuildValue(source.versioned, db.rows, target, atomic);
      ExecAllConcat(db, VersionedGroups(plan, order, atomic), RepeatablePhase(mid, source, order + |plan|));
    }
  }

  /** No repeatable of the source is new or changed. */
  predicate NothingDue(db: Db, source: Source) {
    Due(source.repeatable, Query(db)) == []
  }

  lemma NothingToRepeat(db: Db, source: Source, order: int)
    requires NothingDue(db, source)
    ensures RepeatablePhase(db, source, order) == [] && ExecAll(db, RepeatablePhase(db, source, order)) == Some(db)
  {
    hide Query, Due;
  }

  lemma BuildValue(pending: seq<Migration>, applied: seq<AppliedMigration>, target: Option<string>, atomic: bool)
    requires BuildPlan(pending, applied, target, atomic).Ok?
    ensures BuildPlan(pending, applied, target, atomic).value == Selected(pending, Stored(applied), target)
  {}

  function AndThen(db: Option<Db>, source: Source, target: Option<string>, atomic: bool): Option<Db> {
    if db.None? then None else Migrated(db.value, source, target, atomic)
  }

  lemma NextOrderAfter(db: Db, first: seq<Migration>)
    requires Ready(db.rows, NextOrder(db.rows)) && Recordable(db.rows, first)
    ensures NextOrder(Recorded(db, first, NextOrder(db.rows)).rows) == NextOrder(db.rows) + |first|
  {
    hide Recordable, NextOrder, Ready, WithDeps, Versions;
    var order := NextOrder(db.rows);
    var rows := Recorded(db, first, order).rows;
    RecordedIsReady(db, first, order);
    if first == [] {
      assert rows == db.rows;
    } else {
      assert rows[|rows| - 1].appliedOrder == order + |first| - 1;
      ReadyNextOrder(rows, order + |first|);
    }
  }

  lemma ReadyNextOrder(rows: seq<AppliedMigration>, order: int)
    requires Ready(rows, order) && rows != [] && rows[|rows| - 1].appliedOrder == order - 1
    ensures NextOrder(rows) == order
  {
    MaxOrderIsGreatest(rows);
  }

  lemma CanMigrateInStages(db: Db, pending: seq<Migration>, first: seq<Migration>, second: seq<Migration>, order: int,
      atomic: bool)
    requires DistinctVersions(pending) && Recordable(db.rows, first) && TableOk(db.rows) && order == NextOrder(db.rows)
    requires forall m :: m in first ==> m in pending
    ensures CanMigrate(db.rows, pending, first + second, atomic) <==>
      && CanMigrate(db.rows, pending, first, atomic)
      && CanMigrate(Recorded(db, first, order).rows, pending, second, atomic)
    ensures CanMigrate(db.rows, pending, first, atomic) ==> Ready(db.rows, order)
  {
    hide NeedsMet, Recordable, Recorded, ChecksumsAgree, DistinctVersions, TableOk, NextOrder, RowsOf, AllApplied,
         Ready;
    if CanMigrate(db.rows, pending, first, atomic) {
      ReadyWhenApplied(db.rows);
      RecordedIsReady(db, first, order);
      ReadyIsApplied(Recorded(db, first, order).rows, order + |first|);
      RecordedChecksumsAgree(db, pending, first, order);
    }
    RecordedRows(db, first, order);
    VersionsConcat(db.rows, RowsOf(first, order));
    VersionsOfRows(first, order);
    NeedsMetInStages(first, second, Versions(db.rows));
    assert forall m :: m in first + second <==> m in first || m in second;
  }

  lemma ReadyWhenApplied(rows: seq<AppliedMigration>)
    requires TableOk(rows) && AllApplied(rows)
    ensures Ready(rows, NextOrder(rows))
  {
    FirstPartialNone(rows);
    ReadyForNextOrder(rows);
  }

  lemma ReadyIsApplied(rows: seq<AppliedMigration>, order: int)
    requires Ready(rows, order)
    ensures TableOk(rows) && AllApplied(rows)
  {}

  /**
   Once the first `k` migrations of a plan are recorded, a migrate does the rest:
   it ends in the database that one migrate ends in.
   */
  lemma MigrateRest(db: Db, source: Source, target: Option<string>, k: nat, atomic: bool)
    requires TableOk(db.rows) && DistinctVersions(source.versioned)
    requires var plan := Selected(source.versioned, Stored(db.rows), target);
      k <= |plan| && CanMigrate(db.rows, source.versioned, plan, atomic)
    ensures var first := Selected(source.versioned, Stored(db.rows), target)[..k];
      && Recordable(db.rows, first)
      && Ready(Recorded(db, first, NextOrder(db.rows)).rows, NextOrder(db.rows) + k)
      && Migrated(Recorded(db, first, NextOrder(db.rows)), source, target, atomic) ==
        Migrated(db, source, target, atomic)
  {
    hide Migrated, CanMigrate, Recorded, Selected, Stored, Recordable, DistinctVersions, TableOk, NextOrder, RowsOf,
         Ready, Versions, RepeatablePhase, ExecAll;
    var order := NextOrder(db.rows);
    var plan := Selected(source.versioned, Stored(db.rows), target);
    var first, second := plan[..k], plan[k..];
    assert plan == first + second;
    MigratedIs(db, source, target, atomic);
    RecordablePrefix(db.rows, plan, k);
    RestIsPlanned(source.versioned, db.rows, order, target, k);
    SelectedContents(source.versioned, db.rows, target);
    CanMigrateInStages(db, source.versioned, first, second, order, atomic);
    var mid := Recorded(db, first, order);
    RecordedRows(db, first, order);
    RecordedIsReady(db, first, order);
    ReadyIsApplied(mid.rows, order + k);
    NextOrderAfter(db, first);
    MigratedIs(mid, source, target, atomic);
    RecordedConcat(db, first, second, order);
  }

  /** With the first `k` migrations of a plan recorded, the plan is the rest. */
  lemma RestIsPlanned(pending: seq<Migration>, rows: seq<AppliedMigration>, order: int, target: Option<string>, k: nat)
    requires DistinctVersions(pending) && k <= |Selected(pending, Stored(rows), target)|
    ensures var plan := Selected(pending, Stored(rows), target);
      Selected(pending, Stored(rows + RowsOf(plan[..k], order)), target) == plan[k..]
  {
    hide *;
    var plan := Selected(pending, Stored(rows), target);
    var first, second := plan[..k], plan[k..];
    var rows' := rows + RowsOf(first, order);
    var rest := Selected(pending, Stored(rows'), target);
    SelectedStrict(pending, rows, target);
    SelectedStrict(pending, rows', target);
    StrictSplit(plan, k);
    forall m ensures m in rest <==> m in second {
      SelectedContents(pending, rows, target);
      SelectedContents(pending, rows', target);
      VersionsConcat(rows, RowsOf(first, order));
      VersionsOfRows(first, order);
      if m in pending {
        VersionInPlan(pending, first, m);
      }
    }
    SortedByMembers(rest, second);
  }

  /** A strictly sorted list falls apart into strictly sorted lists without common members. */
  lemma StrictSplit(ms: seq<Migration>, k: nat)
    requires SortedBy(ms, VersionLt) && k <= |ms|
    ensures SortedBy(ms[k..], VersionLt)
    ensures forall m :: m in ms[..k] ==> m in ms
    ensures forall m :: m in ms[k..] <==> m in ms && m !in ms[..k]
  {
    forall m | m in ms[k..] ensures m in ms && m !in ms[..k] {
      var j :| k <= j < |ms| && ms[j] == m;
      forall i | 0 <= i < k ensures ms[i] != m {
        StrLtTrichotomy(ms[i].version, ms[j].version);
      }
    }
    assert ms == ms[..k] + ms[k..];
  }

  /**
   Migrating to `t` and then to `u` is the same as migrating to `u` at once, if
   no repeatable is due in between: one succeeds when the other does, with the
   same rows, order numbers and SQL.
   */
  lemma MigrateInStages(db: Db, source: Source, t: Option<string>, u: Option<string>, atomic: bool)
    requires TableOk(db.rows) && DistinctVersions(source.versioned) && StopsWithin(t, u)
    requires NothingDue(Recorded(db, Selected(source.versioned, Stored(db.rows), t), NextOrder(db.rows)), source)
    ensures Migrated(db, source, u, atomic) == AndThen(Migrated(db, source, t, atomic), source, u, atomic)
  {
    hide Migrated, CanMigrate, Recorded, Selected, Stored, Recordable, DistinctVersions, TableOk, NextOrder, RowsOf,
         Ready, Versions, RepeatablePhase, ExecAll, NothingDue;
    var order := NextOrder(db.rows);
    var first := Selected(source.versioned, Stored(db.rows), t);
    MigratedIs(db, source, t, atomic);
    NothingToRepeat(Recorded(db, first, order), source, order + |first|);
    MigratedIs(db, source, u, atomic);
    PlanInStages(source.versioned, db.rows, order, t, u);
    var mid := Recorded(db, first, order);
    RecordedRows(db, first, order);
    var second := Selected(source.versioned, Stored(mid.rows), u);
    SelectedContents(source.versioned, db.rows, t);
    CanMigrateInStages(db, source.versioned, first, second, order, atomic);
    if Migrated(db, source, t, atomic).Some? {
      RecordedIsReady(db, first, order);
      ReadyIsApplied(mid.rows, order + |first|);
      NextOrderAfter(db, first);
      MigratedIs(mid, source, u, atomic);
      RecordedConcat(db, first, second, order);
    }
  }

  // ----- Baseline, then migrate -----

  /** A migrate looks at the rows only: alike tables get alike rows and the same SQL. */
  lemma MigratedAlike(a: Db, b: Db, source: Source, target: Option<string>, atomic: bool)
    requires a.rows == b.rows
    ensures var x, y := Migrated(a, source, target, atomic), Migrated(b, source, target, atomic);
      && (x.Some? <==> y.Some?)
      && (x.Some? ==> x.value.rows == y.value.rows && (a.deps == b.deps ==> x.value.deps == y.value.deps))
      && (x.Some? ==> exists sql :: x.value.log == a.log + sql && y.value.log == b.log + sql)
  {
    hide BuildPlan, NextOrder, VersionedGroups, RepeatablePhase, ExecAll, Effects;
    var built := BuildPlan(source.versioned, Query(a), target, atomic);
    assert Query(a) == Query(b);
    if built.Ok? {
      var plan := built.value;
      var order := NextOrder(Query(a));
      var versioned := VersionedGroups(plan, order, atomic);
      ExecAllAlike(a, b, versioned);
      if ExecAll(a, versioned).Some? {
        var x, y := ExecAll(a, versioned).value, ExecAll(b, versioned).value;
        SamePhase(x, y, source, order + |plan|);
        ExecAllConcat(a, versioned, RepeatablePhase(x, source, order + |plan|));
        ExecAllConcat(b, versioned, RepeatablePhase(x, source, order + |plan|));
        ExecAllAlike(a, b, versioned + RepeatablePhase(x, source, order + |plan|));
      }
    }
  }

  lemma SamePhase(a: Db, b: Db, source: Source, order: int)
    requires a.rows == b.rows
    ensures RepeatablePhase(a, source, order) == RepeatablePhase(b, source, order)
  {
    assert Query(a) == Query(b);
  }

  lemma {:induction false} UpToVersionSorted(ms: seq<Migration>, v: string)
    requires SortedBy(ms, VersionLt)
    ensures forall m :: m in UpToVersion(ms, v) <==> m in ms && StrLe(m.version, v)
    ensures SortedBy(UpToVersion(ms, v), VersionLt)
  {
    UpToVersionShorter(ms, v);
    if ms == [] {
    } else {
      StrLtTrichotomy(ms[0].version, v);
      if StrLt(v, ms[0].version) {
        forall m | m in ms ensures !StrLe(m.version, v) {
          var i :| 0 <= i < |ms| && ms[i] == m;
          if i > 0 {
            StrLtTransitive(v, ms[0].version, ms[i].version);
          }
          StrLtTrichotomy(v, m.version);
        }
      } else {
        UpToVersionSorted(ms[1..], v);
        assert ms == [ms[0]] + ms[1..];
      }
    }
  }

  /** On an empty table a baseline at `v` writes the rows a migrate to `v` would write. */
  lemma BaselineIsPlan(source: Source, v: string)
    requires SortedBy(source.versioned, VersionLt)
    ensures UpToVersion(source.versioned, v) == Selected(source.versioned, Stored([]), Some(v))
  {
    StrictIsDistinct(source.versioned);
    SelectedContents(source.versioned, [], Some(v));
    SelectedStrict(source.versioned, [], Some(v));
    UpToVersionSorted(source.versioned, v);
    hide Selected, UpToVersion;
    SortedByMembers(UpToVersion(source.versioned, v), Selected(source.versioned, Stored([]), Some(v)));
  }

  lemma StrictIsDistinct(ms: seq<Migration>)
    requires SortedBy(ms, VersionLt)
    ensures DistinctVersions(ms)
  {
    forall i, j | 0 <= i < j < |ms| ensures ms[i].version != ms[j].version {
      StrLtTrichotomy(ms[i].version, ms[j].version);
    }
  }

  lemma {:induction false} BaselineEffect(db: Db, ms: seq<Migration>, order: int)
    requires Recordable(db.rows, ms)
    ensures ExecAll(db, BaselineGroups(ms, order)) == Some(Baselined(db, ms, order))
    decreases |ms|
  {
    if ms == [] {
      assert db.rows + RowsOf([], order) == db.rows;
    } else {
      var row := RowOf(ms[0], order, Applied);
      var db1 := db.(rows := db.rows + [row]);
      assert ms[0].version !in Versions(db.rows);
      ExecAllFirst(db, [InsertRow(row, None)], BaselineGroups(ms[1..], order + 1));
      ExecSingle(db, InsertRow(row, None));
      assert RowsOf([ms[0]], order) == [row];
      RecordableFirst(db.rows, ms, order);
      BaselineEffect(db1, ms[1..], order + 1);
      assert RowsOf(ms, order) == [row] + RowsOf(ms[1..], order + 1);
      assert db.rows + RowsOf(ms, order) == db.rows + [row] + RowsOf(ms[1..], order + 1);
    }
  }

  /** The database a baseline that succeeds leaves. */
  function Based(db: Db, source: Source, v: string): Option<Db> {
    ExecAll(db, BaselineProgram(db, source, v))
  }

  lemma BasedIs(db: Db, source: Source, v: string)
    requires db.rows == [] && SortedBy(source.versioned, VersionLt)
    ensures Based(db, source, v) == Some(Baselined(db, UpToVersion(source.versioned, v), 1))
    ensures Baselined(db, UpToVersion(source.versioned, v), 1).rows == RowsOf(UpToVersion(source.versioned, v), 1)
    ensures TableOk(RowsOf(UpToVersion(source.versioned, v), 1))
  {
    var first := UpToVersion(source.versioned, v);
    UpToVersionSorted(source.versioned, v);
    StrictIsDistinct(first);
    QueryIsRows(db);
    BaselineEffect(db, first, 1);
    RowsOfTable(first, 1);
  }

  /**
   On an empty table, when migrating everything would succeed, a baseline at
   `v` followed by a migrate gives the same rows, and runs only the SQL of the
   migrations after `v`.
   */
  lemma BaselineThenMigrate(db: Db, source: Source, v: string, atomic: bool)
    returns (one: Db, two: Db, sql: seq<Effect>)
    requires db.rows == [] && SortedBy(source.versioned, VersionLt)
    requires Migrated(db, source, None, atomic).Some?
    ensures Migrated(db, source, None, atomic) == Some(one)
    ensures AndThen(Based(db, source, v), source, None, atomic) == Some(two)
    ensures one.rows == two.rows
    ensures two.log == db.log + sql && one.log == db.log + Ups(UpToVersion(source.versioned, v)) + sql
  {
    hide Migrated, Selected, UpToVersion, Based, Stored, CanMigrate, Recordable, RowsOf, Ups, WithDeps, SortedBy,
         DistinctVersions, RepeatablePhase, ExecAll;
    var first := UpToVersion(source.versioned, v);
    StrictIsDistinct(source.versioned);
    BaselineIsPlan(source, v);
    PlanInStages(source.versioned, [], 1, Some(v), None);
    MigratedIs(db, source, None, atomic);
    var plan := Selected(source.versioned, Stored(db.rows), None);
    assert plan[..|first|] == first;
    MigrateRest(db, source, None, |first|, atomic);
    BasedIs(db, source, v);
    var based := Baselined(db, first, 1);
    var staged := Recorded(db, first, 1);
    assert staged.rows == RowsOf(first, 1);
    MigratedAlike(based, staged, source, None, atomic);
    one := Migrated(db, source, None, atomic).value;
    two := Migrated(based, source, None, atomic).value;
    sql :| two.log == based.log + sql && one.log == staged.log + sql;
  }

  // ----- Undoing a migrate -----

  /** The down SQL of `ms`, latest first. */
  function Downs(ms: seq<Migration>): seq<Effect>
    requires forall m :: m in ms ==> m.downSql.Some?
  {
    if ms == [] then []
    else [Ran(ms[|ms| - 1].downSql.value)] + Downs(ms[..|ms| - 1])
  }

  lemma {:induction false} WithDepsLast(deps: map<string, seq<string>>, ms: seq<Migration>)
    requires ms != []
    ensures var m := ms[|ms| - 1]; WithDeps(deps, ms) == WithDeps(deps, ms[..|ms| - 1])[m.version := m.needs]
    decreases |ms|
  {
    if |ms| > 1 {
      WithDepsLast(deps[ms[0].version := ms[0].needs], ms[1..]);
      assert ms[1..][..|ms[1..]| - 1] == ms[..|ms| - 1][1..];
    } else {
      assert ms[..0] == [] && ms[1..] == [];
    }
  }

  lemma {:induction false} WithDepsKeys(deps: map<string, seq<string>>, ms: seq<Migration>)
    ensures WithDeps(deps, ms).Keys == deps.Keys + VersionsOf(ms)
    decreases |ms|
  {
    if ms == [] {
    } else {
      var m := ms[|ms| - 1];
      var less := ms[..|ms| - 1];
      WithDepsLast(deps, ms);
      WithDepsKeys(deps, less);
      assert ms == less + [m];
      assert forall x :: x in ms <==> x in less || x == m;
    }
  }

  /** Rolling back the last row of a recorded plan. */
  lemma UnrecordLast(db: Db, ms: seq<Migration>, order: int)
    requires ms != [] && Recordable(db.rows, ms) && db.deps.Keys <= Versions(db.rows)
    ensures var m := ms[|ms| - 1]; var less := ms[..|ms| - 1]; var all := Recorded(db, ms, order);
      && all.rows[..|all.rows| - 1] == Recorded(db, less, order).rows
      && all.rows[|all.rows| - 1] == RowOf(m, order + |less|, Applied)
      && all.deps - {m.version} == Recorded(db, less, order).deps
  {
    hide Ups, WithDeps;
    var m := ms[|ms| - 1];
    var less := ms[..|ms| - 1];
    var all := Recorded(db, ms, order);
    assert all.rows[..|all.rows| - 1] == db.rows + RowsOf(less, order);
    WithDepsLast(db.deps, ms);
    WithDepsKeys(db.deps, less);
    forall i | 0 <= i < |less| ensures less[i].version != m.version {
      assert less[i] == ms[i];
    }
  }

  /** After a rollback `left` is still recorded, and the down SQL of the rest has run. */
  ghost predicate LeftRecorded(db: Db, ms: seq<Migration>, order: int, left: seq<Migration>, d: Db)
    requires forall m :: m in ms ==> m.downSql.Some?
    requires forall m :: m in left ==> m.downSql.Some?
  {
    var rest := Recorded(db, left, order);
    && d.rows == rest.rows
    && d.deps == rest.deps
    && d.log + Downs(left) == db.log + Ups(ms) + Downs(ms)
  }

  lemma DownsLast(ms: seq<Migration>)
    requires ms != [] && forall m :: m in ms ==> m.downSql.Some?
    ensures Downs(ms) == [Ran(ms[|ms| - 1].downSql.value)] + Downs(ms[..|ms| - 1])
  {}

  lemma DropLastRecorded(db: Db, ms: seq<Migration>, order: int, left: seq<Migration>, d: Db, e: Db)
    requires forall m :: m in ms ==> m.downSql.Some?
    requires left != [] && forall m :: m in left ==> m.downSql.Some?
    requires Recordable(db.rows, left) && db.deps.Keys <= Versions(db.rows)
    requires LeftRecorded(db, ms, order, left, d)
    requires var row := d.rows[|d.rows| - 1];
      e.rows == d.rows[..|d.rows| - 1] && e.deps == d.deps - {row.version}
      && e.log == d.log + (if row.downSql.Some? then [Ran(row.downSql.value)] else [])
    ensures LeftRecorded(db, ms, order, left[..|left| - 1], e)
  {
    hide Recorded, Recordable, RowsOf, Ups, Downs, Versions;
    UnrecordLast(db, left, order);
    var m := left[|left| - 1];
    assert m in left;
    DownsLast(left);
    assert d.log + [Ran(m.downSql.value)] + Downs(left[..|left| - 1]) ==
      d.log + ([Ran(m.downSql.value)] + Downs(left[..|left| - 1]));
  }

  /** Rolling back `j` of the recorded rows leaves the rest recorded. */
  lemma {:induction false} RolledBackRecorded(db: Db, ms: seq<Migration>, order: int, j: nat)
    requires Recordable(db.rows, ms) && db.deps.Keys <= Versions(db.rows) && j <= |ms|
    requires forall m :: m in ms ==> m.downSql.Some?
    ensures LeftRecorded(db, ms, order, ms[..|ms| - j], RolledBack(Recorded(db, ms, order), j))
  {
    hide LeftRecorded, Recordable;
    var all := Recorded(db, ms, order);
    if j == 0 {
      assert ms[..|ms|] == ms;
      NothingRolledBack(db, ms, order);
    } else {
      RolledBackRecorded(db, ms, order, j - 1);
      var left := ms[..|ms| - j + 1];
      assert left[..|left| - 1] == ms[..|ms| - j];
      RecordablePrefix(db.rows, ms, |left|);
      RolledBackLast(all, j);
      RecordedRows(db, left, order);
      LeftRows(db, ms, order, left, RolledBack(all, j - 1));
      DropLastRecorded(db, ms, order, left, RolledBack(all, j - 1), RolledBack(all, j));
    }
  }

  lemma LeftRows(db: Db, ms: seq<Migration>, order: int, left: seq<Migration>, d: Db)
    requires forall m :: m in ms ==> m.downSql.Some?
    requires forall m :: m in left ==> m.downSql.Some?
    requires LeftRecorded(db, ms, order, left, d)
    ensures |d.rows| == |db.rows| + |left|
  {}

  lemma NothingRolledBack(db: Db, ms: seq<Migration>, order: int)
    requires forall m :: m in ms ==> m.downSql.Some?
    ensures LeftRecorded(db, ms, order, ms, Recorded(db, ms, order))
  {}

  /** Each step of a rollback drops the last row that is left. */
  lemma RolledBackLast(db: Db, j: nat)
    requires 0 < j <= |db.rows|
    ensures var d := RolledBack(db, j - 1); var e := RolledBack(db, j); var n := |db.rows| - j;
      && d.rows == db.rows[..n + 1]
      && e.rows == d.rows[..n]
      && e.deps == d.deps - {d.rows[n].version}
      && e.log == d.log + (if d.rows[n].downSql.Some? then [Ran(d.rows[n].downSql.value)] else [])
  {
    RolledBackLog(db, j - 1);
  }

  lemma RecordablePrefix(rows: seq<AppliedMigration>, ms: seq<Migration>, k: nat)
    requires Recordable(rows, ms) && k <= |ms|
    ensures Recordable(rows, ms[..k])
  {}

  lemma {:induction false} RollbackEffect(db: Db, i: nat, n: nat)
    requires TableOk(db.rows) && i <= n <= |db.rows|
    requires forall k :: |db.rows| - n <= k < |db.rows| - i ==> db.rows[k].downSql.Some?
    ensures ExecAll(RolledBack(db, i), RollbackGroups(Reversed(db.rows)[i..n])) == Some(RolledBack(db, n))
    decreases n - i
  {
    hide ExecAll, ExecGroup, RolledBack;
    var rows := Reversed(db.rows)[i..n];
    if i == n {
      ExecAllNothing(RolledBack(db, i));
    } else {
      assert rows[0] == db.rows[|db.rows| - 1 - i];
      assert rows[1..] == Reversed(db.rows)[i + 1..n];
      RollbackOne(db, i);
      ExecAllFirst(RolledBack(db, i), [MigrationSql(rows[0].downSql.value), DeleteRow(rows[0].version)],
                   RollbackGroups(rows[1..]));
      RollbackEffect(db, i + 1, n);
    }
  }

  /** Undoing the last `|ms|` rows of a table that ends with the recorded `ms`. */
  lemma RollbackOfRecorded(db: Db, ms: seq<Migration>, order: int)
    requires Ready(db.rows, order) && Recordable(db.rows, ms) && db.deps.Keys <= Versions(db.rows)
    requires forall m :: m in ms ==> m.downSql.Some?
    ensures var d := Recorded(db, ms, order);
      ExecAll(d, RollbackProgram(d, Steps(|ms|))) == Some(db.(log := db.log + Ups(ms) + Downs(ms)))
  {
    hide Recordable, ExecAll, RollbackGroups, Query, FirstPartial, TableOk, AllApplied, Ups, WithDeps, Downs,
         ToRollback, RolledBack, LeftRecorded, RowsOf, Versions;
    var d := Recorded(db, ms, order);
    RecordedIsReady(db, ms, order);
    QueryIsRows(d);
    FirstPartialNone(d.rows);
    ReadyIsApplied(d.rows, order + |ms|);
    AppliedMeans(d.rows);
    ToRollbackIsSuffix(d.rows, Steps(|ms|));
    RecordedDowns(db, ms, order);
    assert Reversed(d.rows)[0..|ms|] == Reversed(d.rows)[..|ms|];
    RollbackEffect(d, 0, |ms|);
    RolledBackLog(d, 0);
    RolledBackRecorded(db, ms, order, |ms|);
    assert ms[..0] == [];
    AllUndone(db, ms, order, RolledBack(d, |ms|));
    RolledBackNone(d);
  }

  lemma RecordedDowns(db: Db, ms: seq<Migration>, order: int)
    requires forall m :: m in ms ==> m.downSql.Some?
    ensures var rows := Recorded(db, ms, order).rows;
      |rows| == |db.rows| + |ms| && forall k :: |rows| - |ms| <= k < |rows| ==> rows[k].downSql.Some?
  {
    forall k | 0 <= k < |ms| ensures ms[k].downSql.Some? {
      assert ms[k] in ms;
    }
  }

  lemma RolledBackNone(db: Db)
    ensures RolledBack(db, 0) == db
  {}

  lemma AppliedMeans(rows: seq<AppliedMigration>)
    requires AllApplied(rows)
    ensures forall r :: r in rows ==> r.status == Applied
  {}

  lemma AllUndone(db: Db, ms: seq<Migration>, order: int, d: Db)
    requires forall m :: m in ms ==> m.downSql.Some?
    requires LeftRecorded(db, ms, order, [], d)
    ensures d == db.(log := db.log + Ups(ms) + Downs(ms))
  {
    RecordedNothing(db, order);
    assert d.log + Downs([]) == d.log;
  }

  /**
   A successful migrate of `k` migrations that all store down SQL, with no
   repeatable due after them, followed by a rollback of `k` steps, restores the table exactly; the SQL that ran is
   up 1 .. up k, then down k .. down 1.
   */
  lemma RollbackUndoesMigrate(db: Db, source: Source, target: Option<string>, atomic: bool) returns (d: Db)
    requires TableOk(db.rows) && DepsOk(db) && DistinctVersions(source.versioned)
    requires Migrated(db, source, target, atomic).Some?
    requires NothingDue(Recorded(db, Selected(source.versioned, Stored(db.rows), target), NextOrder(db.rows)), source)
    requires forall m :: m in Selected(source.versioned, Stored(db.rows), target) ==> m.downSql.Some?
    ensures var plan := Selected(source.versioned, Stored(db.rows), target);
      && Migrated(db, source, target, atomic) == Some(d)
      && ExecAll(d, RollbackProgram(d, Steps(|plan|))) == Some(db.(log := db.log + Ups(plan) + Downs(plan)))
  {
    hide Migrated, Selected, NeedsMet, ExecAll, RollbackProgram, Recordable, Recorded, Ups, Downs, TableOk, AllApplied,
         NextOrder, RepeatablePhase, NothingDue;
    var plan := Selected(source.versioned, Stored(db.rows), target);
    MigratedIs(db, source, target, atomic);
    d := Recorded(db, plan, NextOrder(db.rows));
    NothingToRepeat(d, source, NextOrder(db.rows) + |plan|);
    ReadyWhenApplied(db.rows);
    RollbackOfRecorded(db, plan, NextOrder(db.rows));
  }

  /** The state of the rest of the database after `log`, cut-off SQL aside. */
  function Replay<S>(s: S, log: seq<Effect>, run: (S, string) -> S): S
    decreases |log|
  {
    if log == [] then s
    else Replay(if log[0].Ran? then run(s, log[0].sql) else s, log[1..], run)
  }

  lemma {:induction false} ReplayConcat<S>(s: S, a: seq<Effect>, b: seq<Effect>, run: (S, string) -> S)
    ensures Replay(s, a + b, run) == Replay(Replay(s, a, run), b, run)
    decreases |a|
  {
    if a == [] {
      assert a + b == b;
    } else {
      assert (a + b)[1..] == a[1..] + b;
      ReplayConcat(if a[0].Ran? then run(s, a[0].sql) else s, a[1..], b, run);
    }
  }

  /** If each down SQL undoes its up SQL, the ups followed by the downs restore the database. */
  lemma {:induction false} UpsThenDowns<S(!new)>(s: S, ms: seq<Migration>, run: (S, string) -> S)
    requires forall m :: m in ms ==> m.downSql.Some?
    requires forall m, x :: m in ms ==> run(run(x, m.upSql), m.downSql.value) == x
    ensures Replay(s, Ups(ms) + Downs(ms), run) == s
    decreases |ms|
  {
    if ms == [] {
      assert Ups(ms) + Downs(ms) == [];
    } else {
      var m := ms[|ms| - 1];
      var less := ms[..|ms| - 1];
      assert m in ms;
      var up, down := [Ran(m.upSql)], [Ran(m.downSql.value)];
      assert Ups(ms) + Downs(ms) == Ups(less) + (up + (down + Downs(less)));
      var s1 := Replay(s, Ups(less), run);
      var s2 := run(s1, m.upSql);
      ReplayConcat(s, Ups(less), up + (down + Downs(less)), run);
      ReplayConcat(s1, up, down + Downs(less), run);
      ReplayConcat(s2, down, Downs(less), run);
      assert up[1..] == [] && down[1..] == [];
      assert Replay(s1, up, run) == s2;
      assert Replay(s2, down, run) == s1;
      UpsThenDowns(s, less, run);
      ReplayConcat(s, Ups(less), Downs(less), run);
    }
  }
}
