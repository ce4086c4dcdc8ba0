/**
 What each engine operation does to the database, as the list of the
 transactions (or single statements) it issues, computed from the database it
 starts in. `Reached` then says what is left behind when it is cut short.
 */
module Programs {
  import opened Wrappers
  import opened Ordering
  import opened Migrations
  import opened Plan

  datatype Source = Source(versioned: seq<Migration>, repeatable: seq<Migration>)

  datatype RollbackStrategy = Last | Steps(n: nat) | ToVersion(version: string)

  datatype RepairStrategy = Retry | Undo | Skip | UpdateChecksum(version: string)

  datatype Operation =
    | Migrate(source: Source, target: Option<string>, atomic: bool, dryRun: bool)
    | Rollback(rollback: RollbackStrategy)
    | Repair(repairSource: Source, repair: RepairStrategy)
    | Baseline(baselineSource: Source, version: string)

  // ----- migrate -----

  function NextOrder(applied: seq<AppliedMigration>): int {
    MaxOrder(applied) + 1
  }

  /** A migration inside a transaction: its SQL and its row together. */
  function TransactionGroup(m: Migration, order: int): Group {
    [MigrationSql(m.upSql), InsertRow(RowOf(m, order, Applied), Some(m.needs))]
  }

  /** A `@no-transaction` migration: a PARTIAL row, the SQL, then the final status. */
  function NoTransactionGroups(m: Migration, order: int): seq<Group> {
    [[InsertRow(RowOf(m, order, Partial), Some(m.needs))],
     [MigrationSql(m.upSql)],
     [SetStatus(m.version, Applied)]]
  }

  function MigrationGroups(m: Migration, order: int): seq<Group> {
    if m.noTransaction then NoTransactionGroups(m, order) else [TransactionGroup(m, order)]
  }

  function SequentialGroups(plan: seq<Migration>, order: int): seq<Group> {
    if plan == [] then []
    else MigrationGroups(plan[0], order) + SequentialGroups(plan[1..], order + 1)
  }

  function AtomicGroup(plan: seq<Migration>, order: int): Group {
    if plan == [] then []
    else TransactionGroup(plan[0], order) + AtomicGroup(plan[1..], order + 1)
  }

  function VersionedGroups(plan: seq<Migration>, order: int, atomic: bool): seq<Group> {
    if atomic then [AtomicGroup(plan, order)] else SequentialGroups(plan, order)
  }

  function FindRow(rows: seq<AppliedMigration>, version: string): Option<AppliedMigration> {
    if rows == [] then None
    else if rows[0].version == version then Some(rows[0])
    else FindRow(rows[1..], version)
  }

  predicate IsDue(m: Migration, applied: seq<AppliedMigration>) {
    var existing := FindRow(applied, m.version);
    existing.None? || existing.value.checksum != m.checksum
  }

  function Due(repeatables: seq<Migration>, applied: seq<AppliedMigration>): seq<Migration> {
    Keep(repeatables, (m: Migration) => IsDue(m, applied))
  }

  /** The statement that records a repeatable after its SQL: its new checksum, or its row. */
  function RecordRepeatable(m: Migration, known: set<string>, order: int): Statement {
    if m.version in known then SetChecksum(m.version, m.checksum) else InsertRow(RowOf(m, order, Applied), None)
  }

  /** A repeatable: its SQL first, then its record. */
  function RepeatableGroups(due: seq<Migration>, known: set<string>, order: int): seq<Group> {
    if due == [] then []
    else
      [[MigrationSql(due[0].upSql)], [RecordRepeatable(due[0], known, order)]]
      + RepeatableGroups(due[1..], known, if due[0].version in known then order else order + 1)
  }

  /** The repeatable phase of a migrate that left `mid` after its versioned phase. */
  function RepeatablePhase(mid: Db, source: Source, order: int): seq<Group> {
    RepeatableGroups(Due(source.repeatable, Query(mid)), Versions(mid.rows), order)
  }

  function MigrateProgram(db: Db, source: Source, plan: seq<Migration>, atomic: bool): seq<Group> {
    var order := NextOrder(Query(db));
    var versioned := VersionedGroups(plan, order, atomic);
    match ExecAll(db, versioned)
    case None => versioned
    case Some(mid) => versioned + RepeatablePhase(mid, source, order + |plan|)
  }

  // ----- rollback -----

  function Reversed<T>(s: seq<T>): (r: seq<T>)
    ensures |r| == |s|
    ensures forall i :: 0 <= i < |s| ==> r[i] == s[|s| - 1 - i]
  {
    seq(|s|, i requires 0 <= i < |s| => s[|s| - 1 - i])
  }

  function WhileAbove(rows: seq<AppliedMigration>, version: string): seq<AppliedMigration> {
    if rows == [] || !StrLt(version, rows[0].version) then []
    else [rows[0]] + WhileAbove(rows[1..], version)
  }

  /** The rows to roll back, latest first. */
  function ToRollback(applied: seq<AppliedMigration>, strategy: RollbackStrategy): seq<AppliedMigration> {
    match strategy
    case Last => if applied == [] then [] else [applied[|applied| - 1]]
    case Steps(n) => if n < |applied| then Reversed(applied)[..n] else Reversed(applied)
    case ToVersion(v) => WhileAbove(Reversed(applied), v)
  }

  /** One transaction per row, stopping at a row without stored down SQL. */
  function RollbackGroups(rows: seq<AppliedMigration>): seq<Group> {
    if rows == [] || rows[0].downSql.None? then []
    else [[MigrationSql(rows[0].downSql.value), DeleteRow(rows[0].version)]] + RollbackGroups(rows[1..])
  }

  function RollbackProgram(db: Db, strategy: RollbackStrategy): seq<Group> {
    if FirstPartial(Query(db)).Some? then [] else RollbackGroups(ToRollback(Query(db), strategy))
  }

  // ----- repair -----

  function FindMigration(ms: seq<Migration>, version: string): Option<Migration> {
    if ms == [] then None
    else if ms[0].version == version then Some(ms[0])
    else FindMigration(ms[1..], version)
  }

  function FindPartial(rows: seq<AppliedMigration>): Option<AppliedMigration> {
    if rows == [] then None
    else if rows[0].status == Partial then Some(rows[0])
    else FindPartial(rows[1..])
  }

  function RepairProgram(db: Db, source: Source, strategy: RepairStrategy): seq<Group> {
    if strategy.UpdateChecksum? then
      match FindMigration(source.versioned, strategy.version)
      case None => []
      case Some(m) => [[SetChecksum(strategy.version, m.checksum)]]
    else
      match FindPartial(Query(db))
      case None => []
      case Some(row) =>
        if strategy == Retry then [[MigrationSql(row.upSql)], [SetStatus(row.version, Applied)]]
        else if strategy == Skip then [[SetStatus(row.version, Applied)]]
        else if row.downSql.None? then []
        else [[MigrationSql(row.downSql.value)], [DeleteRow(row.version)]]
  }

  // ----- baseline -----

  function UpToVersion(ms: seq<Migration>, version: string): seq<Migration> {
    if ms == [] || StrLt(version, ms[0].version) then []
    else [ms[0]] + UpToVersion(ms[1..], version)
  }

  function BaselineGroups(ms: seq<Migration>, order: int): seq<Group> {
    if ms == [] then []
    else [[InsertRow(RowOf(ms[0], order, Applied), None)]] + BaselineGroups(ms[1..], order + 1)
  }

  function BaselineProgram(db: Db, source: Source, version: string): seq<Group> {
    if Query(db) != [] then [] else BaselineGroups(UpToVersion(source.versioned, version), 1)
  }

  function Program(op: Operation, db: Db): seq<Group> {
    match op
    case Migrate(source, target, atomic, dryRun) =>
      (match BuildPlan(source.versioned, Query(db), target, atomic)
       case Err(_) => []
       case Ok(plan) => if dryRun then [] else MigrateProgram(db, source, plan, atomic))
    case Rollback(strategy) => RollbackProgram(db, strategy)
    case Repair(source, strategy) => RepairProgram(db, source, strategy)
    case Baseline(source, version) => BaselineProgram(db, source, version)
  }

  // ----- Splitting programs at an element -----

  lemma {:induction false} SequentialGroupsSplit(plan: seq<Migration>, i: nat, order: int)
    requires i <= |plan|
    ensures SequentialGroups(plan, order) == SequentialGroups(plan[..i], order) + SequentialGroups(plan[i..], order + i)
  {
    hide MigrationGroups;
    if i == 0 {
      assert plan[..0] == [] && plan[0..] == plan;
    } else {
      SequentialGroupsSplit(plan[1..], i - 1, order + 1);
      assert plan[1..][..i - 1] == plan[..i][1..] && plan[1..][i - 1..] == plan[i..];
    }
  }

  lemma AtomicGroupNone(order: int)
    ensures AtomicGroup([], order) == []
  {}

  lemma AtomicGroupFirst(m: Migration, rest: seq<Migration>, order: int)
    ensures AtomicGroup([m] + rest, order) == TransactionGroup(m, order) + AtomicGroup(rest, order + 1)
  {
    assert ([m] + rest)[1..] == rest;
  }

  lemma {:induction false} AtomicGroupSplit(plan: seq<Migration>, i: nat, order: int)
    requires i <= |plan|
    ensures AtomicGroup(plan, order) == AtomicGroup(plan[..i], order) + AtomicGroup(plan[i..], order + i)
  {
    hide *;
    if i == 0 {
      assert plan[..0] == [] && plan[0..] == plan;
      AtomicGroupNone(order);
    } else {
      AtomicGroupSplit(plan[1..], i - 1, order + 1);
      assert plan[..i] == [plan[0]] + plan[1..][..i - 1] && plan[1..][i - 1..] == plan[i..];
      AtomicGroupFirst(plan[0], plan[1..][..i - 1], order);
      AtomicGroupFirst(plan[0], plan[1..], order);
      assert plan == [plan[0]] + plan[1..];
      var x, y, z := TransactionGroup(plan[0], order), AtomicGroup(plan[1..][..i - 1], order + 1),
        AtomicGroup(plan[i..], order + i);
      assert x + (y + z) == x + y + z;
    }
  }

  lemma {:induction false} BaselineGroupsSplit(ms: seq<Migration>, i: nat, order: int)
    requires i <= |ms|
    ensures BaselineGroups(ms, order) == BaselineGroups(ms[..i], order) + BaselineGroups(ms[i..], order + i)
  {
    if i == 0 {
      assert ms[..0] == [] && ms[0..] == ms;
    } else {
      BaselineGroupsSplit(ms[1..], i - 1, order + 1);
      assert ms[1..][..i - 1] == ms[..i][1..] && ms[1..][i - 1..] == ms[i..];
    }
  }

  /** How many of these repeatables get a new row. */
  function NewCount(due: seq<Migration>, known: set<string>): nat {
    if due == [] then 0
    else (if due[0].version in known then 0 else 1) + NewCount(due[1..], known)
  }

  lemma {:induction false} RepeatableGroupsSplit(due: seq<Migration>, i: nat, known: set<string>, order: int)
    requires i <= |due|
    ensures RepeatableGroups(due, known, order)
         == RepeatableGroups(due[..i], known, order)
          + RepeatableGroups(due[i..], known, order + NewCount(due[..i], known))
  {
    if i == 0 {
      assert due[..0] == [] && due[0..] == due;
    } else {
      var order' := if due[0].version in known then order else order + 1;
      RepeatableGroupsSplit(due[1..], i - 1, known, order');
      assert due[1..][..i - 1] == due[..i][1..] && due[1..][i - 1..] == due[i..];
    }
  }

  lemma {:induction false} NewCountAppend(due: seq<Migration>, i: nat, known: set<string>)
    requires i < |due|
    ensures NewCount(due[..i + 1], known) == NewCount(due[..i], known) + (if due[i].version in known then 0 else 1)
  {
    if i == 0 {
    } else {
      NewCountAppend(due[1..], i - 1, known);
      assert due[1..][..i] == due[..i + 1][1..] && due[1..][..i - 1] == due[..i][1..];
    }
  }

  lemma {:induction false} ExecGroupConcat(db: Db, a: Group, b: Group)
    requires ExecGroup(db, a).Some?
    ensures ExecGroup(db, a + b) == ExecGroup(ExecGroup(db, a).value, b)
    decreases |a|
  {
    if a == [] {
      assert a + b == b;
    } else {
      assert (a + b)[1..] == a[1..] + b;
      ExecGroupConcat(Exec(db, a[0]).value, a[1..], b);
    }
  }
}
