/** Which migrations a `migrate` runs, in which order, and when it refuses to. */
module Plan {
  import opened Wrappers
  import opened Ordering
  import opened Migrations

  function FirstPartial(applied: seq<AppliedMigration>): Option<MigrateError> {
    if applied == [] then None
    else if applied[0].status == Partial then Some(PartialBlocking(applied[0].version))
    else FirstPartial(applied[1..])
  }

  /** Checksum by version; of two rows with one version the later wins. */
  function Stored(applied: seq<AppliedMigration>): map<string, string> {
    if applied == [] then map[]
    else
      var last := applied[|applied| - 1];
      Stored(applied[..|applied| - 1])[last.version := last.checksum]
  }

  function FirstMismatch(pending: seq<Migration>, stored: map<string, string>): Option<MigrateError> {
    if pending == [] then None
    else
      var m := pending[0];
      if m.version in stored && stored[m.version] != m.checksum
      then Some(ChecksumMismatch(m.version, stored[m.version], m.checksum))
      else FirstMismatch(pending[1..], stored)
  }

  predicate UpTo(version: string, target: Option<string>) {
    target.None? || StrLe(version, target.value)
  }

  /** The migrations to run: not yet recorded, not beyond the target, by version. */
  function Selected(pending: seq<Migration>, stored: map<string, string>, target: Option<string>): seq<Migration> {
    Keep(Sort(Keep(pending, (m: Migration) => m.version !in stored), ByVersion),
         (m: Migration) => UpTo(m.version, target))
  }

  function FirstMissing(needs: seq<string>, have: set<string>): Option<string> {
    if needs == [] then None
    else if needs[0] !in have then Some(needs[0])
    else FirstMissing(needs[1..], have)
  }

  function FirstUnmet(plan: seq<Migration>, have: set<string>): Option<MigrateError> {
    if plan == [] then None
    else match FirstMissing(plan[0].needs, have)
      case Some(dep) => Some(DependencyNotMet(plan[0].version, dep))
      case None => FirstUnmet(plan[1..], have + {plan[0].version})
  }

  function FirstNoTransaction(plan: seq<Migration>): Option<MigrateError> {
    if plan == [] then None
    else if plan[0].noTransaction then Some(NoTransactionInAtomic(plan[0].version))
    else FirstNoTransaction(plan[1..])
  }

  function BuildPlan(pending: seq<Migration>, applied: seq<AppliedMigration>, target: Option<string>, atomic: bool)
    : Result<seq<Migration>, MigrateError>
  {
    var plan := Selected(pending, Stored(applied), target);
    match FirstPartial(applied)
    case Some(e) => Err(e)
    case None =>
      match FirstMismatch(pending, Stored(applied))
      case Some(e) => Err(e)
      case None =>
        match FirstUnmet(plan, Versions(applied))
        case Some(e) => Err(e)
        case None =>
          if atomic && FirstNoTransaction(plan).Some? then Err(FirstNoTransaction(plan).value)
          else Ok(plan)
  }

  method CheckNeeds(m: Migration, have: set<string>) returns (missing: Option<string>)
    ensures missing == FirstMissing(m.needs, have)
  {
    for i := 0 to |m.needs|
      invariant FirstMissing(m.needs, have) == FirstMissing(m.needs[i..], have)
    {
      if m.needs[i] !in have {
        return Some(m.needs[i]);
      }
    }
    return None;
  }

  method Build(pending: seq<Migration>, applied: seq<AppliedMigration>, target: Option<string>, atomic: bool)
    returns (r: Result<seq<Migration>, MigrateError>)
    ensures r == BuildPlan(pending, applied, target, atomic)
  {
    hide Keep, Sort, UpTo, FirstMissing;
    for i := 0 to |applied|
      invariant FirstPartial(applied) == FirstPartial(applied[i..])
    {
      if applied[i].status == Partial {
        return Err(PartialBlocking(applied[i].version));
      }
    }

    var stored: map<string, string> := map[];
    for i := 0 to |applied|
      invariant stored == Stored(applied[..i])
    {
      assert applied[..i + 1][..i] == applied[..i];
      stored := stored[applied[i].version := applied[i].checksum];
    }
    assert applied[..|applied|] == applied;

    for i := 0 to |pending|
      invariant FirstMismatch(pending, stored) == FirstMismatch(pending[i..], stored)
    {
      var m := pending[i];
      if m.version in stored && stored[m.version] != m.checksum {
        return Err(ChecksumMismatch(m.version, stored[m.version], m.checksum));
      }
    }

    var toApply := Keep(pending, (m: Migration) => m.version !in stored);
    toApply := Sort(toApply, ByVersion);
    toApply := Keep(toApply, (m: Migration) => UpTo(m.version, target));

    var willBeApplied := Versions(applied);
    for i := 0 to |toApply|
      invariant FirstUnmet(toApply, Versions(applied)) == FirstUnmet(toApply[i..], willBeApplied)
    {
      var missing := CheckNeeds(toApply[i], willBeApplied);
      if missing.Some? {
        return Err(DependencyNotMet(toApply[i].version, missing.value));
      }
      willBeApplied := willBeApplied + {toApply[i].version};
    }

    if atomic {
      for i := 0 to |toApply|
        invariant FirstNoTransaction(toApply) == FirstNoTransaction(toApply[i..])
      {
        if toApply[i].noTransaction {
          return Err(NoTransactionInAtomic(toApply[i].version));
        }
      }
    }
    return Ok(toApply);
  }

  // ----- What a plan means -----

  lemma {:induction false} StoredKeys(applied: seq<AppliedMigration>)
    ensures Stored(applied).Keys == Versions(applied)
  {
    if applied == [] {
    } else {
      StoredKeys(applied[..|applied| - 1]);
      VersionsAppend(applied[..|applied| - 1], applied[|applied| - 1]);
      assert applied == applied[..|applied| - 1] + [applied[|applied| - 1]];
    }
  }

  /** `Keep` of a sorted list is sorted. */
  lemma {:induction false} KeepSorted<T(!new)>(s: seq<T>, le: (T, T) -> bool, p: T -> bool)
    requires SortedBy(s, le)
    ensures SortedBy(Keep(s, p), le)
  {
    if s == [] {
    } else {
      KeepSorted(s[1..], le, p);
      forall y | y in Keep(s[1..], p) ensures le(s[0], y) {
        var i :| 0 <= i < |s[1..]| && s[1..][i] == y;
        assert s[i + 1] == y;
      }
    }
  }

  /**
   A plan holds exactly the source's migrations that are not recorded and not
   beyond the target, in version order; migrations of one version keep the
   order the source gave them in.
   */
  lemma SelectedContents(pending: seq<Migration>, applied: seq<AppliedMigration>, target: Option<string>)
    ensures var plan := Selected(pending, Stored(applied), target);
      && (forall m :: m in plan <==>
            && m in pending && (forall r :: r in applied ==> r.version != m.version)
            && (target.None? || m.version == target.value || StrLt(m.version, target.value)))
      && (forall m :: m in plan <==> m in pending && m.version !in Versions(applied) && UpTo(m.version, target))
      && SortedBy(plan, ByVersion)
      && (forall i, j :: 0 <= i < j < |plan| ==>
            plan[i].version == plan[j].version || StrLt(plan[i].version, plan[j].version))
      && (forall v :: v !in Versions(applied) && UpTo(v, target) ==>
            Keep(plan, (m: Migration) => m.version == v) == Keep(pending, (m: Migration) => m.version == v))
  {
    StoredKeys(applied);
    ByVersionTotalOrder();
    var stored := Stored(applied);
    var unrecorded := Keep(pending, (m: Migration) => m.version !in stored);
    var sorted := Sort(unrecorded, ByVersion);
    MultisetMembers(sorted, unrecorded);
    SortSorted(unrecorded, ByVersion);
    KeepSorted(sorted, ByVersion, (m: Migration) => UpTo(m.version, target));
    forall v | v !in Versions(applied) && UpTo(v, target)
      ensures Keep(Selected(pending, stored, target), (m: Migration) => m.version == v)
           == Keep(pending, (m: Migration) => m.version == v)
    {
      var p := (m: Migration) => m.version == v;
      KeepImplied(sorted, (m: Migration) => UpTo(m.version, target), p);
      SortStable(unrecorded, ByVersion, p);
      KeepImplied(pending, (m: Migration) => m.version !in stored, p);
    }
  }

  lemma {:induction false} KeepImplied<T(!new)>(s: seq<T>, q: T -> bool, p: T -> bool)
    requires forall x :: x in s && p(x) ==> q(x)
    ensures Keep(Keep(s, q), p) == Keep(s, p)
  {
    if s == [] {
    } else {
      KeepImplied(s[1..], q, p);
      if q(s[0]) {
        assert Keep(s, q)[1..] == Keep(s[1..], q);
      } else {
        assert Keep(s, q) == Keep(s[1..], q);
      }
    }
  }

  /** Every `@requires` of the plan is recorded already or comes earlier in it. */
  ghost predicate NeedsMet(plan: seq<Migration>, have: set<string>) {
    forall i, d :: 0 <= i < |plan| && d in plan[i].needs ==> d in have || PlannedBefore(plan, i, d)
  }

  ghost predicate PlannedBefore(plan: seq<Migration>, i: nat, version: string) {
    exists j :: 0 <= j < i && j < |plan| && plan[j].version == version
  }

  lemma {:induction false} FirstMissingNone(needs: seq<string>, have: set<string>)
    ensures FirstMissing(needs, have).None? <==> forall d :: d in needs ==> d in have
  {
    if needs == [] {
    } else {
      FirstMissingNone(needs[1..], have);
      assert needs == [needs[0]] + needs[1..];
    }
  }

  lemma {:induction false} FirstUnmetNone(plan: seq<Migration>, have: set<string>)
    ensures FirstUnmet(plan, have).None? <==> NeedsMet(plan, have)
  {
    if plan == [] {
    } else {
      var have' := have + {plan[0].version};
      FirstMissingNone(plan[0].needs, have);
      FirstUnmetNone(plan[1..], have');
      if NeedsMet(plan, have) {
        forall i, d | 0 <= i < |plan[1..]| && d in plan[1..][i].needs
          ensures d in have' || PlannedBefore(plan[1..], i, d)
        {
          assert plan[1..][i] == plan[i + 1];
          if d !in have {
            assert PlannedBefore(plan, i + 1, d);
            var j :| 0 <= j < i + 1 && plan[j].version == d;
            assert j == 0 || plan[1..][j - 1] == plan[j];
          }
        }
        forall d | d in plan[0].needs ensures d in have {
          assert d in have || PlannedBefore(plan, 0, d);
        }
      }
      if NeedsMet(plan[1..], have') && FirstMissing(plan[0].needs, have).None? {
        forall i, d | 0 <= i < |plan| && d in plan[i].needs
          ensures d in have || PlannedBefore(plan, i, d)
        {
          if i > 0 {
            assert plan[1..][i - 1] == plan[i];
            assert d in have' || PlannedBefore(plan[1..], i - 1, d);
            if d !in have' {
              var j :| 0 <= j < i - 1 && plan[1..][j].version == d;
              assert plan[j + 1].version == d;
            } else if d !in have {
              assert plan[0].version == d;
            }
          }
        }
      }
    }
  }

  lemma {:induction false} FirstPartialNone(applied: seq<AppliedMigration>)
    ensures FirstPartial(applied).None? <==> forall r :: r in applied ==> r.status == Applied
  {
    if applied == [] {
    } else {
      FirstPartialNone(applied[1..]);
      assert applied == [applied[0]] + applied[1..];
    }
  }

  lemma {:induction false} FirstMismatchNone(pending: seq<Migration>, stored: map<string, string>)
    ensures FirstMismatch(pending, stored).None? <==>
      forall m :: m in pending && m.version in stored ==> stored[m.version] == m.checksum
  {
    if pending == [] {
    } else {
      FirstMismatchNone(pending[1..], stored);
      assert pending == [pending[0]] + pending[1..];
    }
  }

  lemma {:induction false} FirstNoTransactionNone(plan: seq<Migration>)
    ensures FirstNoTransaction(plan).None? <==> forall m :: m in plan ==> !m.noTransaction
  {
    if plan == [] {
    } else {
      FirstNoTransactionNone(plan[1..]);
      assert plan == [plan[0]] + plan[1..];
    }
  }

  /** Exactly when planning succeeds. */
  lemma BuildSucceeds(pending: seq<Migration>, applied: seq<AppliedMigration>, target: Option<string>, atomic: bool)
    ensures var plan := Selected(pending, Stored(applied), target);
      BuildPlan(pending, applied, target, atomic) == Ok(plan) <==>
        && (forall r :: r in applied ==> r.status == Applied)
        && (forall m :: m in pending && m.version in Stored(applied) ==> Stored(applied)[m.version] == m.checksum)
        && NeedsMet(plan, Versions(applied))
        && (atomic ==> forall m :: m in plan ==> !m.noTransaction)
  {
    var plan := Selected(pending, Stored(applied), target);
    FirstPartialNone(applied);
    FirstMismatchNone(pending, Stored(applied));
    FirstUnmetNone(plan, Versions(applied));
    FirstNoTransactionNone(plan);
  }

  // ----- What a refusal means -----

  /** The checksum of the last row of that version. */
  ghost predicate LastStored(applied: seq<AppliedMigration>, version: string, checksum: string) {
    exists k ::
      && 0 <= k < |applied| && applied[k].version == version && applied[k].checksum == checksum
      && forall j :: k < j < |applied| ==> applied[j].version != version
  }

  lemma {:induction false} StoredIsLast(applied: seq<AppliedMigration>, version: string)
    requires version in Stored(applied)
    ensures LastStored(applied, version, Stored(applied)[version])
  {
    var k := |applied| - 1;
    if applied[k].version == version {
      assert LastStored(applied, version, applied[k].checksum);
    } else {
      var before := applied[..k];
      StoredIsLast(before, version);
      var i :|
        && 0 <= i < |before| && before[i].version == version && before[i].checksum == Stored(before)[version]
        && forall j :: i < j < |before| ==> before[j].version != version;
      assert applied[i] == before[i];
    }
  }

  /** The first PARTIAL row. */
  ghost predicate BlamesPartial(applied: seq<AppliedMigration>, version: string) {
    exists i ::
      && 0 <= i < |applied| && applied[i].status == Partial && applied[i].version == version
      && forall j :: 0 <= j < i ==> applied[j].status == Applied
  }

  /** The first migration whose recorded checksum, `expected`, is not its own, `found`. */
  ghost predicate BlamesChecksum(
      pending: seq<Migration>, applied: seq<AppliedMigration>, version: string, expected: string, found: string)
  {
    && expected != found && LastStored(applied, version, expected)
    && exists i ::
         && 0 <= i < |pending| && pending[i].version == version && pending[i].checksum == found
         && forall j :: 0 <= j < i && pending[j].version in Stored(applied) ==>
              Stored(applied)[pending[j].version] == pending[j].checksum
  }

  /** The first dependency of the first migration of the plan that is neither recorded nor planned before. */
  ghost predicate BlamesNeed(plan: seq<Migration>, have: set<string>, version: string, dependency: string) {
    exists i, k ::
      && 0 <= i < |plan| && plan[i].version == version && 0 <= k < |plan[i].needs|
      && plan[i].needs[k] == dependency && dependency !in have && !PlannedBefore(plan, i, dependency)
      && NeedsMet(plan[..i], have)
      && forall d :: d in plan[i].needs[..k] ==> d in have || PlannedBefore(plan, i, d)
  }

  /** The first `@no-transaction` migration of the plan. */
  ghost predicate BlamesNoTransaction(plan: seq<Migration>, version: string) {
    exists i ::
      && 0 <= i < |plan| && plan[i].noTransaction && plan[i].version == version
      && forall j :: 0 <= j < i ==> !plan[j].noTransaction
  }

  lemma {:induction false} FirstPartialBlames(applied: seq<AppliedMigration>)
    requires FirstPartial(applied).Some?
    ensures FirstPartial(applied).value.PartialBlocking? && BlamesPartial(applied, FirstPartial(applied).value.version)
  {
    if applied[0].status == Partial {
      assert BlamesPartial(applied, applied[0].version);
    } else {
      FirstPartialBlames(applied[1..]);
      var rest := applied[1..];
      var i :|
        && 0 <= i < |rest| && rest[i].status == Partial && rest[i].version == FirstPartial(applied).value.version
        && forall j :: 0 <= j < i ==> rest[j].status == Applied;
      assert applied[i + 1] == rest[i] && forall j :: 0 < j < i + 1 ==> applied[j] == rest[j - 1];
    }
  }

  lemma {:induction false} FirstMismatchBlames(pending: seq<Migration>, stored: map<string, string>) returns (i: nat)
    requires FirstMismatch(pending, stored).Some?
    ensures i < |pending| && pending[i].version in stored && stored[pending[i].version] != pending[i].checksum
    ensures FirstMismatch(pending, stored) ==
      Some(ChecksumMismatch(pending[i].version, stored[pending[i].version], pending[i].checksum))
    ensures forall j :: 0 <= j < i && pending[j].version in stored ==> stored[pending[j].version] == pending[j].checksum
  {
    var m := pending[0];
    if m.version in stored && stored[m.version] != m.checksum {
      i := 0;
    } else {
      var n := FirstMismatchBlames(pending[1..], stored);
      i := n + 1;
      assert forall j :: 0 < j <= i ==> pending[j] == pending[1..][j - 1];
    }
  }

  lemma {:induction false} FirstMissingBlames(needs: seq<string>, have: set<string>) returns (k: nat)
    requires FirstMissing(needs, have).Some?
    ensures k < |needs| && FirstMissing(needs, have) == Some(needs[k]) && needs[k] !in have
    ensures forall d :: d in needs[..k] ==> d in have
  {
    if needs[0] !in have {
      k := 0;
    } else {
      var n := FirstMissingBlames(needs[1..], have);
      k := n + 1;
      assert needs[..k] == [needs[0]] + needs[1..][..n];
    }
  }

  /** The versions recorded, or planned before the `i`-th migration. */
  function Before(plan: seq<Migration>, have: set<string>, i: nat): set<string>
    requires i <= |plan|
  {
    have + set j | 0 <= j < i :: plan[j].version
  }

  lemma {:induction false} FirstUnmetBlames(plan: seq<Migration>, have: set<string>, i: nat) returns (n: nat, k: nat)
    requires i <= |plan| && FirstUnmet(plan[i..], Before(plan, have, i)).Some?
    ensures i <= n < |plan| && k < |plan[n].needs| && plan[n].needs[k] !in Before(plan, have, n)
    ensures FirstUnmet(plan[i..], Before(plan, have, i)) == Some(DependencyNotMet(plan[n].version, plan[n].needs[k]))
    ensures forall d :: d in plan[n].needs[..k] ==> d in Before(plan, have, n)
    ensures FirstUnmet(plan[i..n], Before(plan, have, i)).None?
    decreases |plan| - i
  {
    var m := plan[i];
    assert plan[i..][0] == m && plan[i..][1..] == plan[i + 1..];
    assert Before(plan, have, i + 1) == Before(plan, have, i) + {m.version};
    if FirstMissing(m.needs, Before(plan, have, i)).Some? {
      n := i;
      k := FirstMissingBlames(m.needs, Before(plan, have, i));
    } else {
      n, k := FirstUnmetBlames(plan, have, i + 1);
      assert plan[i..n][0] == m && plan[i..n][1..] == plan[i + 1..n];
    }
  }

  lemma {:induction false} FirstNoTransactionBlames(plan: seq<Migration>) returns (i: nat)
    requires FirstNoTransaction(plan).Some?
    ensures i < |plan| && plan[i].noTransaction
    ensures FirstNoTransaction(plan) == Some(NoTransactionInAtomic(plan[i].version))
    ensures forall j :: 0 <= j < i ==> !plan[j].noTransaction
  {
    if plan[0].noTransaction {
      i := 0;
    } else {
      var n := FirstNoTransactionBlames(plan[1..]);
      i := n + 1;
      assert forall j :: 0 < j <= i ==> plan[j] == plan[1..][j - 1];
    }
  }

  ghost predicate AllFinal(applied: seq<AppliedMigration>) {
    forall r :: r in applied ==> r.status == Applied
  }

  ghost predicate ChecksumsFit(pending: seq<Migration>, applied: seq<AppliedMigration>) {
    forall m :: m in pending && m.version in Stored(applied) ==> Stored(applied)[m.version] == m.checksum
  }

  /** The first check that fails, in the order of the source, and the first place where it fails. */
  ghost predicate Blames(pending: seq<Migration>, applied: seq<AppliedMigration>, plan: seq<Migration>, atomic: bool,
      e: MigrateError)
  {
    match e
    case PartialBlocking(v) => BlamesPartial(applied, v)
    case ChecksumMismatch(v, expected, found) =>
      AllFinal(applied) && BlamesChecksum(pending, applied, v, expected, found)
    case DependencyNotMet(v, d) =>
      AllFinal(applied) && ChecksumsFit(pending, applied) && BlamesNeed(plan, Versions(applied), v, d)
    case NoTransactionInAtomic(v) =>
      && AllFinal(applied) && ChecksumsFit(pending, applied) && NeedsMet(plan, Versions(applied))
      && atomic && BlamesNoTransaction(plan, v)
    case _ => false
  }

  /** A refused plan reports the first failing check, and the first row or migration that fails it. */
  lemma BuildBlames(pending: seq<Migration>, applied: seq<AppliedMigration>, target: Option<string>, atomic: bool)
    requires BuildPlan(pending, applied, target, atomic).Err?
    ensures Blames(pending, applied, Selected(pending, Stored(applied), target), atomic,
      BuildPlan(pending, applied, target, atomic).error)
  {
    hide Selected, Stored;
    var plan := Selected(pending, Stored(applied), target);
    FirstPartialNone(applied);
    FirstMismatchNone(pending, Stored(applied));
    FirstUnmetNone(plan, Versions(applied));
    if FirstPartial(applied).Some? {
      FirstPartialBlames(applied);
    } else if FirstMismatch(pending, Stored(applied)).Some? {
      var i := FirstMismatchBlames(pending, Stored(applied));
      StoredIsLast(applied, pending[i].version);
    } else if FirstUnmet(plan, Versions(applied)).Some? {
      UnmetIsBlamed(plan, Versions(applied));
    } else {
      var i := FirstNoTransactionBlames(plan);
    }
  }

  lemma UnmetIsBlamed(plan: seq<Migration>, have: set<string>)
    requires FirstUnmet(plan, have).Some?
    ensures FirstUnmet(plan, have).value.DependencyNotMet?
    ensures var e := FirstUnmet(plan, have).value; BlamesNeed(plan, have, e.version, e.dependency)
  {
    assert plan[0..] == plan && Before(plan, have, 0) == have;
    var n, k := FirstUnmetBlames(plan, have, 0);
    assert plan[0..n] == plan[..n];
    FirstUnmetNone(plan[..n], have);
    var d := plan[n].needs[k];
    assert !PlannedBefore(plan, n, d);
    forall other | other in plan[n].needs[..k] ensures other in have || PlannedBefore(plan, n, other) {
      assert other in Before(plan, have, n);
    }
  }
}
