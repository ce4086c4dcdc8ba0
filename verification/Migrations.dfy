/**
 The data of the migration tool: migration files, rows of the tracking table,
 errors, and what a database contains.
 */
module Migrations {
  import opened Integers
  import opened Wrappers
  import opened Ordering

  /** A parsed migration file. `needs` holds the `@requires` versions. */
  datatype Migration = Migration(
    version: string,
    name: string,
    upSql: string,
    downSql: Option<string>,
    downSkipReason: Option<string>,
    checksum: string,
    noTransaction: bool,
    needs: seq<string>,
    repeatable: bool)

  datatype MigrationStatus = Applied | Partial

  /** A row of the tracking table; its time stamp is not modelled. */
  datatype AppliedMigration = AppliedMigration(
    version: string,
    name: string,
    checksum: string,
    upSql: string,
    downSql: Option<string>,
    appliedOrder: int,
    status: MigrationStatus)

  datatype MigrateError =
    | PartialBlocking(version: string)
    | ChecksumMismatch(version: string, expected: string, found: string)
    | DependencyNotMet(version: string, dependency: string)
    | NoTransactionInAtomic(version: string)
    | MigrationNotFound(version: string)
    | RollbackSkipped(version: string)
    | Config
    | Sql

  predicate ByVersion(a: Migration, b: Migration) {
    StrLe(a.version, b.version)
  }

  predicate VersionLt(a: Migration, b: Migration) {
    StrLt(a.version, b.version)
  }

  predicate ByOrder(a: AppliedMigration, b: AppliedMigration) {
    a.appliedOrder <= b.appliedOrder
  }

  lemma ByVersionTotalOrder()
    ensures TotalOrder(ByVersion)
  {
    forall x: Migration, y: Migration ensures ByVersion(x, y) || ByVersion(y, x) {
      StrLtTrichotomy(x.version, y.version);
    }
    forall x: Migration, y: Migration, z: Migration | ByVersion(x, y) && ByVersion(y, z) ensures ByVersion(x, z) {
      if x.version != y.version && y.version != z.version {
        StrLtTransitive(x.version, y.version, z.version);
      }
    }
  }

  function RowOf(m: Migration, order: int, status: MigrationStatus): AppliedMigration {
    AppliedMigration(m.version, m.name, m.checksum, m.upSql, m.downSql, order, status)
  }

  function Versions(rows: seq<AppliedMigration>): set<string> {
    set r | r in rows :: r.version
  }

  lemma VersionsAppend(a: seq<AppliedMigration>, r: AppliedMigration)
    ensures Versions(a + [r]) == Versions(a) + {r.version}
  {}

  /** The greatest order number, 0 for an empty table. */
  function MaxOrder(rows: seq<AppliedMigration>): int {
    if rows == [] then 0
    else if |rows| == 1 then rows[0].appliedOrder
    else Max(MaxOrder(rows[..|rows| - 1]), rows[|rows| - 1].appliedOrder)
  }

  // ----- A database: the tracking table and what migration SQL did to the rest -----

  /** One piece of migration SQL that took effect: to its end, or cut off somewhere. */
  datatype Effect = Ran(sql: string) | Cut(sql: string)

  /**
   `rows` is the tracking table in insertion order, `log` the migration SQL
   that took effect, and `deps` remembers, for each row the versioned path
   recorded, the `@requires` list it was recorded with (no column holds it).
   */
  datatype Db = Db(rows: seq<AppliedMigration>, log: seq<Effect>, deps: map<string, seq<string>>)

  datatype Statement =
    | MigrationSql(sql: string)
    | InsertRow(row: AppliedMigration, needs: Option<seq<string>>)
    | SetStatus(version: string, status: MigrationStatus)
    | SetChecksum(version: string, checksum: string)
    | DeleteRow(version: string)

  function WithStatus(rows: seq<AppliedMigration>, version: string, status: MigrationStatus): (r: seq<AppliedMigration>)
    ensures |r| == |rows|
    ensures forall i :: 0 <= i < |rows| ==>
      r[i] == if rows[i].version == version then rows[i].(status := status) else rows[i]
  {
    seq(|rows|, i requires 0 <= i < |rows| =>
      if rows[i].version == version then rows[i].(status := status) else rows[i])
  }

  function WithChecksum(rows: seq<AppliedMigration>, version: string, checksum: string): (r: seq<AppliedMigration>)
    ensures |r| == |rows|
    ensures forall i :: 0 <= i < |rows| ==>
      r[i] == if rows[i].version == version then rows[i].(checksum := checksum) else rows[i]
  {
    seq(|rows|, i requires 0 <= i < |rows| =>
      if rows[i].version == version then rows[i].(checksum := checksum) else rows[i])
  }

  function Without(rows: seq<AppliedMigration>, version: string): seq<AppliedMigration> {
    Keep(rows, (r: AppliedMigration) => r.version != version)
  }

  function WithEffect(db: Db, e: Effect): Db {
    db.(log := db.log + [e])
  }

  /**
   The effect of one statement, or `None` when the database refuses it: the
   version column is the primary key.
   */
  function Exec(db: Db, s: Statement): Option<Db> {
    match s
    case MigrationSql(sql) => Some(WithEffect(db, Ran(sql)))
    case InsertRow(row, needs) =>
      if row.version in Versions(db.rows) then None
      else Some(db.(
        rows := db.rows + [row],
        deps := if needs.Some? then db.deps[row.version := needs.value] else db.deps))
    case SetStatus(v, status) => Some(db.(rows := WithStatus(db.rows, v, status)))
    case SetChecksum(v, checksum) => Some(db.(rows := WithChecksum(db.rows, v, checksum)))
    case DeleteRow(v) => Some(db.(rows := Without(db.rows, v), deps := db.deps - {v}))
  }

  /** `SELECT ... ORDER BY applied_order`. */
  function Query(db: Db): seq<AppliedMigration> {
    Sort(db.rows, ByOrder)
  }

  // ----- Programs: what an operation does to the database, transaction by transaction -----

  /** Statements that take effect together or not at all. */
  type Group = seq<Statement>

  function ExecGroup(db: Db, g: Group): Option<Db>
    decreases |g|
  {
    if g == [] then Some(db)
    else match Exec(db, g[0])
      case None => None
      case Some(db1) => ExecGroup(db1, g[1..])
  }

  /** Every group in turn, all of them succeeding. */
  function ExecAll(db: Db, gs: seq<Group>): Option<Db>
    decreases |gs|
  {
    if gs == [] then Some(db)
    else match ExecGroup(db, gs[0])
      case None => None
      case Some(db1) => ExecAll(db1, gs[1..])
  }

  /** A single piece of migration SQL outside a transaction took effect in part. */
  predicate CutInside(db: Db, g: Group, d: Db) {
    |g| == 1 && g[0].MigrationSql? && d == WithEffect(db, Cut(g[0].sql))
  }

  /**
   `d` is a database that a run of the program `gs` from `db` can leave behind
   when it is cut short anywhere: between two groups, or inside a group that is
   a single piece of migration SQL outside a transaction, which then may have
   taken effect in part.
   */
  ghost predicate Reached(db: Db, gs: seq<Group>, d: Db)
    decreases |gs|
  {
    || d == db
    || (gs != [] && CutInside(db, gs[0], d))
    || (gs != [] && ExecGroup(db, gs[0]).Some? && Reached(ExecGroup(db, gs[0]).value, gs[1..], d))
  }

  lemma ExecSingle(db: Db, s: Statement)
    ensures ExecAll(db, [[s]]) == ExecGroup(db, [s]) == Exec(db, s)
  {
    assert [s][1..] == [] && [[s]][1..] == [];
  }

  lemma ExecPair(db: Db, a: Statement, b: Statement)
    ensures ExecGroup(db, [a, b]) == if Exec(db, a).Some? then Exec(Exec(db, a).value, b) else None
  {
    assert [a, b][1..] == [b] && [b][1..] == [];
    if Exec(db, a).Some? {
      assert ExecGroup(Exec(db, a).value, [b]) == Exec(Exec(db, a).value, b);
    }
  }

  lemma ExecAllFirst(db: Db, g: Group, rest: seq<Group>)
    ensures ExecAll(db, [g] + rest) == if ExecGroup(db, g).Some? then ExecAll(ExecGroup(db, g).value, rest) else None
  {
    assert ([g] + rest)[1..] == rest;
  }

  /** A program cut short stops before, inside or after its first group. */
  lemma ReachedFirst(db: Db, g: Group, rest: seq<Group>, d: Db)
    requires Reached(db, [g] + rest, d)
    ensures d == db || CutInside(db, g, d) || (ExecGroup(db, g).Some? && Reached(ExecGroup(db, g).value, rest, d))
  {
    assert ([g] + rest)[1..] == rest;
  }

  lemma ReachedOnly(db: Db, g: Group, d: Db)
    requires Reached(db, [g], d)
    ensures d == db || CutInside(db, g, d) || ExecGroup(db, g) == Some(d)
  {
    assert [g] + [] == [g];
    ReachedFirst(db, g, [], d);
  }

  lemma ReachedNothing(db: Db, d: Db)
    requires Reached(db, [], d)
    ensures d == db
  {}

  lemma {:induction false} ExecAllConcat(db: Db, a: seq<Group>, b: seq<Group>)
    requires ExecAll(db, a).Some?
    ensures ExecAll(db, a + b) == ExecAll(ExecAll(db, a).value, b)
    decreases |a|
  {
    if a == [] {
      assert a + b == b;
    } else {
      assert (a + b)[1..] == a[1..] + b;
      ExecAllConcat(ExecGroup(db, a[0]).value, a[1..], b);
    }
  }

  /** Whatever the rest of a program can leave behind, the whole program can. */
  lemma {:induction false} ReachedConcat(db: Db, a: seq<Group>, b: seq<Group>, d: Db)
    requires ExecAll(db, a).Some? && Reached(ExecAll(db, a).value, b, d)
    ensures Reached(db, a + b, d)
    decreases |a|
  {
    if a == [] {
      assert a + b == b;
    } else {
      assert (a + b)[1..] == a[1..] + b;
      ReachedConcat(ExecGroup(db, a[0]).value, a[1..], b, d);
    }
  }

  /** A program cut short stops inside its first part or, that part done, inside its second. */
  lemma {:induction false} ReachedSplit(db: Db, a: seq<Group>, b: seq<Group>, d: Db)
    requires Reached(db, a + b, d)
    ensures Reached(db, a, d) || (ExecAll(db, a).Some? && Reached(ExecAll(db, a).value, b, d))
    decreases |a|
  {
    if a == [] {
      assert a + b == b;
    } else {
      assert (a + b)[1..] == a[1..] + b;
      if ExecGroup(db, a[0]).Some? && Reached(ExecGroup(db, a[0]).value, (a + b)[1..], d) {
        ReachedSplit(ExecGroup(db, a[0]).value, a[1..], b, d);
      }
    }
  }

  /** A program that ran to its end left a database it can leave behind. */
  lemma {:induction false} ExecAllReached(db: Db, gs: seq<Group>)
    requires ExecAll(db, gs).Some?
    ensures Reached(db, gs, ExecAll(db, gs).value)
    decreases |gs|
  {
    if gs == [] {
    } else {
      ExecAllReached(ExecGroup(db, gs[0]).value, gs[1..]);
    }
  }

  lemma {:induction false} ExecAllFails(db: Db, a: seq<Group>, b: seq<Group>)
    requires ExecAll(db, a).None?
    ensures ExecAll(db, a + b).None?
    decreases |a|
  {
    assert (a + b)[1..] == a[1..] + b;
    if ExecGroup(db, a[0]).Some? {
      ExecAllFails(ExecGroup(db, a[0]).value, a[1..], b);
    }
  }

  lemma {:induction false} ExecGroupFails(db: Db, a: Group, b: Group)
    requires ExecGroup(db, a).None?
    ensures ExecGroup(db, a + b).None?
    decreases |a|
  {
    assert (a + b)[1..] == a[1..] + b;
    if Exec(db, a[0]).Some? {
      ExecGroupFails(Exec(db, a[0]).value, a[1..], b);
    }
  }

  // ----- Programs look at the rows only -----

  /** The migration SQL of a group, as it takes effect when the group succeeds. */
  function GroupEffects(g: Group): seq<Effect> {
    if g == [] then []
    else (if g[0].MigrationSql? then [Ran(g[0].sql)] else []) + GroupEffects(g[1..])
  }

  function Effects(gs: seq<Group>): seq<Effect> {
    if gs == [] then [] else GroupEffects(gs[0]) + Effects(gs[1..])
  }

  lemma {:induction false} ExecGroupAlike(a: Db, b: Db, g: Group)
    requires a.rows == b.rows
    ensures ExecGroup(a, g).Some? <==> ExecGroup(b, g).Some?
    ensures ExecGroup(a, g).Some? ==>
      var x, y := ExecGroup(a, g).value, ExecGroup(b, g).value;
      && x.rows == y.rows && (a.deps == b.deps ==> x.deps == y.deps)
      && x.log == a.log + GroupEffects(g) && y.log == b.log + GroupEffects(g)
    decreases |g|
  {
    if g == [] {
      assert a.log + [] == a.log && b.log + [] == b.log;
    } else if Exec(a, g[0]).Some? {
      var effect := if g[0].MigrationSql? then [Ran(g[0].sql)] else [];
      assert a.log + effect + GroupEffects(g[1..]) == a.log + (effect + GroupEffects(g[1..]));
      assert b.log + effect + GroupEffects(g[1..]) == b.log + (effect + GroupEffects(g[1..]));
      assert Exec(a, g[0]).value.log == a.log + effect && Exec(b, g[0]).value.log == b.log + effect;
      ExecGroupAlike(Exec(a, g[0]).value, Exec(b, g[0]).value, g[1..]);
    }
  }

  /** Tables alike before a program are alike after it, and the same SQL has been executed. */
  lemma {:induction false} ExecAllAlike(a: Db, b: Db, gs: seq<Group>)
    requires a.rows == b.rows
    ensures ExecAll(a, gs).Some? <==> ExecAll(b, gs).Some?
    ensures ExecAll(a, gs).Some? ==>
      var x, y := ExecAll(a, gs).value, ExecAll(b, gs).value;
      && x.rows == y.rows && (a.deps == b.deps ==> x.deps == y.deps)
      && x.log == a.log + Effects(gs) && y.log == b.log + Effects(gs)
    decreases |gs|
  {
    hide ExecGroup, GroupEffects;
    if gs == [] {
      assert a.log + [] == a.log && b.log + [] == b.log;
    } else {
      ExecGroupAlike(a, b, gs[0]);
      if ExecGroup(a, gs[0]).Some? {
        var effects := GroupEffects(gs[0]);
        assert a.log + effects + Effects(gs[1..]) == a.log + (effects + Effects(gs[1..]));
        assert b.log + effects + Effects(gs[1..]) == b.log + (effects + Effects(gs[1..]));
        ExecAllAlike(ExecGroup(a, gs[0]).value, ExecGroup(b, gs[0]).value, gs[1..]);
      }
    }
  }
}
