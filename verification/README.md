# ladoo: a verified model

This project models the parts of the ladoo web framework and its companion
crates where a mistake is hard to see, and proves what they promise.

- **Migrations** (`Migrations`, `Plan`, `Programs`, `Engine`, `Tracking`,
  `Histories`, `MigrateLaws`, `Rerunning`, `Recovery`, `Reports`,
  `RollbackToVersion`). A database is a value: the rows of the tracking table in
  applied order, a log of the SQL that took effect, and, for each row of the
  versioned path, the versions it requires. A *program* is what an operation does
  to a database, as a sequence of groups of statements that take effect together;
  `Reached` says which databases a program can leave behind
  when any driver call fails or is the last one before a crash. SQL outside a
  transaction may also be cut off part-way. The engine itself is a class over a
  driver whose calls fail at will; each of its methods is proved to do what its
  program says. The laws are then about programs: what every operation keeps in
  every history, what a failure leaves behind, how migrate, rollback and baseline fit
  together, what migrating again does after a success or a repaired stop, and what
  the reports say about the SQL.
- **Migration files** (`Texts`, `MigrationParser`, `FileSections`,
  `MigrationFormat`, `MigrationRoundTrip`). The line-by-line parser, what it makes
  of any file, a printer of the documented format, and exactly which migrations
  survive printing and parsing.
- **Recorded SQL text** (`SqlText`). The text of the INSERT, UPDATE and DELETE
  statements against a scanner of SQL literals.
- **Job queue** (`JobQueue`, `JobStores`, `Workers`, `Dispatch`, `Backoff`,
  `WorkerId`). Each SQL statement is one atomic step, and steps of any callers
  interleave. `JobQueue` holds the table, its statements and their invariant for arbitrary
  callers; `JobStores` the store calls as sequences of statements with
  interference in between; `Workers` several workers over one table, with their
  claim loops, permits and tasks; `Dispatch` what becomes of each claimed job.
- **Router** (`Paths`, `Patterns`, `Matching`, `Routing`, `Prefixes`, `Mounts`).
  Pattern parsing, matching with captures, the search for the best route, the
  Allow list, and mounting a router under a prefix.
- **Rate limiter** (`RateLimit`) and **pagination** (`Pagination`).

`Ordering`, `Integers`, `Sets` and `Wrappers` hold what these share.

Assumptions, as the source states or needs them: operations of the migration
engine do not overlap (the advisory lock); drivers are transactional; the SQL of
a migration leaves the tracking table alone; a job table starts without running
rows; processes that share a job table have different process ids; clocks do
not go back. Clock readings, failures of the driver or the database, and the
choices of concurrent callers are parameters or free choices.

Where the code and its documentation disagree, the model follows the code:

- A rollback to a version is documented as undoing all migrations applied after
  that version (`engine.rs:98-99`). The code undoes rows while their version is
  greater, so it stops early at a row that was applied late. `ToVersionSelects`
  and `ToVersionSelectsGreater` give the exact conditions,
  `ToVersionMissesLateRow` a history of two migrates after which it happens.
- Text before the first up marker is documented as ignored (`parser.rs:97`). The
  code obeys a skip line there, and text after a down marker. `PrologueIsIgnored`
  gives the exact condition on what parsing returns, `PrologueOfFile` states it
  for file contents, and `PrologueIsObeyed` gives a file.

Two more results a user may not expect. A worker with `concurrency` zero claims
a batch and is then stuck for good, with the rows locked (`NeverStuck`). And
`MigrateAgain` shows that a second migrate changes nothing exactly if no
repeatable shares its version with a migration of another checksum. Otherwise migrating never settles: a repeatable is executed
each time, or the next migrate fails. By `Recovers`, the same condition decides
whether repair and one more migrate make up for every stop of a migrate.

## Model

| member | source | states |
|---|---|---|
| Plan.Build | crates/ladoo-migrate/src/plan.rs:28-104 | The planning loops return the plan, or the first error in the order of the checks: PARTIAL row, checksum, dependency, atomic mode |
| Plan.SelectedContents | crates/ladoo-migrate/src/plan.rs:55-72 | A plan holds exactly the unrecorded migrations up to the target, the target included, in version order, equal versions in source order |
| Plan.BuildSucceeds | crates/ladoo-migrate/src/plan.rs:28-104 | Planning succeeds if and only if nothing is PARTIAL, recorded checksums agree, every dependency is recorded or planned before, and atomic mode has no `@no-transaction` |
| Plan.BuildBlames | crates/ladoo-migrate/src/plan.rs:28-104 | A refused plan reports the first check that fails, in the order PARTIAL row, checksum, dependency, atomic mode, and the first row, migration or dependency that fails it; a mismatch names the stored checksum as expected and the file's as found |
| Ordering.StrLtIs | crates/ladoo-migrate/src/plan.rs:69-73 | One version is smaller than another if and only if it is a proper prefix or has the smaller character where they first differ |
| Engine.Driver.Execute | crates/ladoo-migrate/src/driver/mod.rs:61-62 | One statement takes effect or the database is as before; SQL that fails outside a transaction may be cut off part-way |
| Engine.Transaction.Commit | crates/ladoo-migrate/src/driver/mod.rs:98-108 | A transaction's statements take effect at commit, all or none |
| Engine.MigrationEngine.RunAndRecord | crates/ladoo-migrate/src/engine.rs:339-355 | The migration's SQL and its row go into the open transaction together |
| Engine.MigrationEngine.RunNoTransaction | crates/ladoo-migrate/src/engine.rs:357-367 | PARTIAL row, SQL, final status, each on its own; an error leaves one of the states in between |
| Engine.MigrationEngine.ExecuteAtomic | crates/ladoo-migrate/src/engine.rs:276-303 | The whole plan in one transaction, with the next free order number on success |
| Engine.MigrationEngine.ExecuteSequential | crates/ladoo-migrate/src/engine.rs:305-337 | Migration by migration, until one fails |
| Engine.MigrationEngine.ApplyRepeatables | crates/ladoo-migrate/src/engine.rs:369-412 | Each new or changed repeatable is executed and then recorded, and the report lists exactly those |
| Engine.MigrationEngine.MigrateInner | crates/ladoo-migrate/src/engine.rs:224-274 | A migrate does what its program says and reports the plan and then the due repeatables; a dry run or a failed plan changes nothing; there is no other error unless a call failed or the table refused a version |
| Engine.MigrationEngine.RollbackInner | crates/ladoo-migrate/src/engine.rs:478-527 | A rollback does what its program says; unless a call failed, it reports the removed versions, latest first, the PARTIAL row that blocks it, or the first row without down SQL |
| Engine.MigrationEngine.RepairInner | crates/ladoo-migrate/src/engine.rs:555-646 | Each repair strategy does what its program says; unless a call failed, it reports the repaired version or which of the three refusals applies |
| Engine.MigrationEngine.BaselineInner | crates/ladoo-migrate/src/engine.rs:667-693 | A baseline records the versions up to the given one without their SQL, and refuses a table with rows; there is no other error unless a call failed or the table refused a version |
| Tracking.TransactionGroupEffect | crates/ladoo-migrate/src/engine.rs:339-355 | A transactional migration, if it goes through, writes its SQL and its row with all its columns together; it is refused if its version is recorded |
| Tracking.MigrationGroupsReached | crates/ladoo-migrate/src/engine.rs:339-367 | At every crash point of one migration its SQL and row are both there or both absent, or it is a `@no-transaction` one that stands half-way behind its PARTIAL row |
| Tracking.WriteAhead | crates/ladoo-migrate/src/engine.rs:276-367 | Wherever a versioned phase stops, no migration SQL has taken effect without its row, and no row is APPLIED without its SQL |
| Tracking.AtomicReached | crates/ladoo-migrate/src/engine.rs:276-303 | Whatever fails, an atomic phase leaves nothing of the plan or all of it |
| Tracking.SequentialReached | crates/ladoo-migrate/src/engine.rs:305-367 | Whatever fails, a sequential phase leaves a prefix of the plan and at most one half-way migration |
| Tracking.RepeatablesReached | crates/ladoo-migrate/src/engine.rs:369-412 | Cut short anywhere, the repeatable phase touches due versions only and leaves nothing PARTIAL |
| Tracking.MigrateReached | crates/ladoo-migrate/src/engine.rs:224-412 | A migrate stops inside its versioned phase or, with the whole plan recorded, inside its repeatable phase |
| Tracking.DryRunChangesNothing | crates/ladoo-migrate/src/engine.rs:238-251 | Wherever a dry run stops, the database is as before |
| Tracking.ToRollbackIsSuffix | crates/ladoo-migrate/src/engine.rs:494-503 | Every strategy selects the latest rows, latest first |
| Tracking.RollbackSelects | crates/ladoo-migrate/src/engine.rs:494-503 | The last row, the last n, or the rows before the first, seen from the latest, whose version is not greater |
| Tracking.RollbackReached | crates/ladoo-migrate/src/engine.rs:505-527 | A rollback cut short has removed the latest rows and executed exactly their down SQL |
| Tracking.RollbackRemovesSuffix | crates/ladoo-migrate/src/engine.rs:478-527 | Every rollback removes a suffix in applied order, even when it stops midway with an error |
| Tracking.RepairReached | crates/ladoo-migrate/src/engine.rs:555-646 | For each strategy, all databases a repair cut short anywhere can leave behind, with the SQL that took effect |
| Tracking.RepairDone | crates/ladoo-migrate/src/engine.rs:592-646 | With a PARTIAL row, a retry executes its up SQL and completes it, a skip only completes it, and an undo executes its down SQL and removes it, or does nothing if there is none |
| Tracking.OperationKeepsTable | crates/ladoo-migrate/src/engine.rs:224-693 | Every operation cut short anywhere keeps versions and order numbers distinct and ascending, with at most one PARTIAL row, the last |
| Histories.OperationKeepsDeps | crates/ladoo-migrate/src/engine.rs:224-693 | Every operation cut short anywhere keeps each versioned row behind the rows of all its `@requires` |
| Histories.HistoryKeepsTable | crates/ladoo-migrate/src/engine.rs:224-693 | Both hold at every point of every history of operations, each cut short at will |
| Histories.OperationKeepsChecksums | crates/ladoo-migrate/src/engine.rs:369-412 | The checksum stored for a repeatable is, after any operation cut short anywhere, that of SQL that has been executed |
| Histories.HistoryKeepsChecksums | crates/ladoo-migrate/src/engine.rs:369-412 | The same at every point of every history |
| MigrateLaws.MigrateOutcome | crates/ladoo-migrate/src/engine.rs:276-366 | An atomic migrate leaves the versioned rows as they were or extended by the whole plan; a sequential one by a prefix of it, its last row alone perhaps PARTIAL; success means the whole plan and no PARTIAL row |
| MigrateLaws.MigratedIs | crates/ladoo-migrate/src/engine.rs:224-412 | Exactly when a migrate succeeds: planning does, and the due repeatables go through on the recorded plan; with the database it leaves |
| MigrateLaws.MigratedAlike | crates/ladoo-migrate/src/engine.rs:224-412 | A migrate looks at the tracking rows only: equal rows give equal success, equal rows and the same SQL |
| MigrateLaws.MigrateRest | crates/ladoo-migrate/src/plan.rs:28-104 | With any first part of a plan recorded, a migrate ends in the database one whole migrate ends in |
| MigrateLaws.MigrateInStages | crates/ladoo-migrate/src/plan.rs:28-104 | Migrating to a target and then further equals migrating there at once, success included, if no repeatable is due in between |
| Rerunning.MigrateAgain | crates/ladoo-migrate/src/engine.rs:224-412 | After a successful migrate, one more changes nothing if and only if no repeatable shares its version with a migration of another checksum |
| Recovery.RepairHalfway | crates/ladoo-migrate/src/engine.rs:592-646 | A retry or skip turns the PARTIAL row into the one a whole migration leaves; a retry executes its SQL again |
| Recovery.RepairThenMigrate | crates/ladoo-migrate/src/engine.rs:276-367 | Wherever the versioned phase stops, a retry or skip of a half-way migration and then the same migrate end with the rows and order numbers of one unstopped migrate, succeed exactly when it does, and execute its SQL, but for what the half-way migration did before and what a skip leaves out |
| Recovery.MigrateAfterRepeatables | crates/ladoo-migrate/src/engine.rs:369-412 | Stopped anywhere among the repeatables, the same migrate goes on to the rows, order numbers and dependencies of one unstopped migrate |
| Recovery.Recovers | crates/ladoo-migrate/src/engine.rs:224-412 | For a migrate that would succeed, a retry or skip and the same migrate make up for every stop if and only if no repeatable shares its version with a migration of another checksum |
| Recovery.UndoHalfway | crates/ladoo-migrate/src/engine.rs:604-622 | An undo of a half-way migration gives back the rows and dependencies from before it, having executed its down SQL |
| Recovery.UndoThenMigrate | crates/ladoo-migrate/src/engine.rs:604-622 | Wherever the versioned phase stops, an undo and then the same migrate end like one unstopped migrate, unless the half-way migration stores no down SQL, and then the undo does nothing |
| Reports.ReportNamesTheSql | crates/ladoo-migrate/src/engine.rs:224-412 | A successful migrate reports the migrations whose SQL it executed, in that order: the plan, which a dry run reports too, and then the due repeatables |
| Reports.DueIs | crates/ladoo-migrate/src/engine.rs:379-387 | Due are exactly the repeatables without a row or with another checksum, in source order |
| Reports.RollbackOutcome | crates/ladoo-migrate/src/engine.rs:478-527 | Unless a call fails, a rollback removes the selected rows, latest first, up to the first without down SQL, executes exactly their down SQL in that order, and reports their versions or the row it stopped at |
| Reports.RepairReportIs | crates/ladoo-migrate/src/engine.rs:555-646 | Unless a call fails, a repair reports the PARTIAL or updated version, or which of the three refusals applies |
| MigrateLaws.BaselineThenMigrate | crates/ladoo-migrate/src/engine.rs:667-693 | On an empty table, baseline at a version and then migrate gives the rows of one migrate, repeatables included, executing only the later SQL |
| MigrateLaws.RollbackUndoesMigrate | crates/ladoo-migrate/src/engine.rs:478-527 | With no repeatable due, rolling back as many steps as were migrated restores the table exactly, with up 1 to up k and then down k to down 1 executed |
| MigrateLaws.UpsThenDowns | crates/ladoo-migrate/src/engine.rs:505-527 | If each down SQL undoes its up SQL, that log restores the rest of the database |
| RollbackToVersion.ToVersionSelects | crates/ladoo-migrate/src/engine.rs:494-503 | A rollback to a row's version selects all rows applied after it if and only if all of those have greater versions |
| RollbackToVersion.ToVersionSelectsGreater | crates/ladoo-migrate/src/engine.rs:494-503 | A rollback to any version, recorded or not, selects exactly the rows of greater versions if and only if those are the latest rows |
| RollbackToVersion.ToVersionMissesLateRow | crates/ladoo-migrate/src/engine.rs:494-503 | A history of two migrates from an empty table after which a rollback leaves a row applied later, though it has down SQL |
| MigrationParser.FilenameReadsBack | crates/ladoo-migrate/src/source/parser.rs:46-90 | The file name parser accepts exactly the names built from a version and a non-empty name, and returns these |
| MigrationParser.ParseMigrationFile | crates/ladoo-migrate/src/source/parser.rs:106-205 | The loop over lines, with its flags and early continues, computes the specified scan, and the checksum is that of the up SQL alone |
| FileSections.ScanFinds | crates/ladoo-migrate/src/source/parser.rs:106-177 | For any lines, to which block a line belongs depends on the last marker before it alone, and a line is a directive only before the first statement after an up marker |
| FileSections.ParsedParts | crates/ladoo-migrate/src/source/parser.rs:106-205 | Any file parses if and only if its name is valid and it has an up marker, and each part of the migration is made of the lines in its place, repeated blocks and directives included |
| MigrationFormat.ScanPrinted | crates/ladoo-migrate/src/source/parser.rs:106-205 | The parser finds every part of a printed migration in its place |
| MigrationFormat.BlockReadsBack | crates/ladoo-migrate/src/source/parser.rs:179-192 | A SQL block, cut into lines, joined and trimmed, is unchanged if and only if it is trimmed and has no CR LF |
| MigrationRoundTrip.ParsedIsSeparable | crates/ladoo-migrate/src/source/parser.rs:106-205 | Whatever the file, parsed blocks hold no marker line and no early directive line, and parsed dependencies and reasons are trimmed single lines |
| MigrationRoundTrip.RoundTrip | crates/ladoo-migrate/src/source/parser.rs:106-205 | Printing a migration in the documented format and parsing it gives it back if and only if it is printable |
| MigrationRoundTrip.ReprintIsStable | crates/ladoo-migrate/src/source/parser.rs:106-205 | A parsed migration survives if and only if its blocks hold no CR LF |
| MigrationRoundTrip.PrologueIsIgnored | crates/ladoo-migrate/src/source/parser.rs:93-150 | For all lines after the first up marker, the lines before it leave the parse result as it is if and only if they hold no skip line and only down markers and blank lines after a down marker |
| MigrationRoundTrip.PrologueOfFile | crates/ladoo-migrate/src/source/parser.rs:93-205 | The same for the text of a file before its up marker, under any valid file name |
| MigrationRoundTrip.PrologueIsObeyed | crates/ladoo-migrate/src/source/parser.rs:93-150 | A file whose text before the up marker becomes down SQL |
| SqlText.EscapedReadsBack | crates/ladoo-migrate/src/table.rs:81-95 | A text with doubled quotes reads back as itself |
| SqlText.RawReadsBack | crates/ladoo-migrate/src/table.rs:86-97 | A text put between quotes unchanged reads back as itself if and only if it has no quote |
| SqlText.InsertReadsBack | crates/ladoo-migrate/src/engine.rs:142-161 | The INSERT text stores exactly its row, for all names and SQL texts, if and only if version and checksum are quote-free |
| SqlText.NullIsNotText | crates/ladoo-migrate/src/table.rs:82-85 | An absent down SQL is kept apart from the text NULL |
| SqlText.ConditionReadsBack | crates/ladoo-migrate/src/table.rs:103-124 | The status UPDATE and the DELETE select the row of their version if and only if it is quote-free |
| SqlText.UpdateChecksumReadsBack | crates/ladoo-migrate/src/table.rs:138-146 | The checksum UPDATE stores its checksum in the row of its version if and only if both are quote-free |
| WorkerId.TextInjective | crates/ladoo-jobs/src/lib.rs:107-110 | Different claims, in one process or in several, have different lock tokens |
| Backoff.BackendsAgree | crates/ladoo-jobs/src/postgres/mod.rs:135-137 | Both backends compute min(2^(k-1), 60) without overflow for every attempt count |
| Backoff.DelayIs | crates/ladoo-jobs/src/postgres/mod.rs:135-137 | The delays are 1, 2, 4, 8, 16 and 32 seconds, and 60 from the seventh failure on |
| Backoff.TotalDelayIs | crates/ladoo-jobs/src/postgres/mod.rs:135-137 | The first n delays add up to 2^n - 1 for n up to 6, and to 63 + 60(n - 6) beyond |
| JobQueue.StepKeepsInv | crates/ladoo-jobs/src/sqlite/mod.rs:30-199 | Every statement of every caller keeps the invariant of the table: locks, counts, delays and unissued tokens |
| JobQueue.EveryRun | crates/ladoo-jobs/src/sqlite/mod.rs:58-199 | In every run of any callers a row runs exactly while it is locked, is claimed at most maxRetries + 1 times, counts at most one failure per claim, and is executed after n failures no earlier than all n delays |
| JobQueue.CompletedForever | crates/ladoo-jobs/src/sqlite/mod.rs:119-135 | A completed job stays completed |
| JobQueue.SameLockUntouched | crates/ladoo-jobs/src/lib.rs:103-110 | A row locked by one token at two times was not touched in between, so there is no ABA |
| JobQueue.FailUpdateIsExact | crates/ladoo-jobs/src/sqlite/mod.rs:137-199 | The guarded UPDATE of `fail` takes effect exactly when the row is still as it was read |
| JobQueue.SelectIsOwn | crates/ladoo-jobs/src/sqlite/mod.rs:80-88 | Whoever interferes, a claim's SELECT returns only rows its own UPDATE marked |
| JobStores.JobStore.Push | crates/ladoo-jobs/src/sqlite/mod.rs:30-56 | A new job waits, pending or scheduled by its time, and no other row changes |
| JobStores.JobStore.WorkerId | crates/ladoo-jobs/src/lib.rs:107-110 | A token nobody ever held |
| JobStores.JobStore.MarkEarliest | crates/ladoo-jobs/src/sqlite/mod.rs:58-78 | Whatever others do after the token was taken and the clock read, the UPDATE locks the earliest pending or scheduled rows whose time has come, as the table then is, up to the limit, and changes nothing else |
| JobStores.JobStore.ClaimByTwoStatements | crates/ladoo-jobs/src/sqlite/mod.rs:58-117 | The UPDATE takes the earliest due rows up to the limit; the SELECT returns, in order, those still held by the same token |
| JobStores.JobStore.ClaimByOneStatement | crates/ladoo-jobs/src/postgres/mod.rs:62-103 | One statement takes the earliest due rows that are not locked when it is executed, and returns exactly these |
| JobStores.JobStore.Complete | crates/ladoo-jobs/src/sqlite/mod.rs:119-135 | Completes and unlocks the row whatever its state, and changes nothing else; only a missing row is not found, and there is no other error unless the database failed |
| JobStores.JobStore.Fail | crates/ladoo-jobs/src/sqlite/mod.rs:137-199 | Success means nobody touched the row between read and write, and the n-th failure was recorded: pending again min(2^(n-1), 60) seconds later if n is at most maxRetries, else failed for good; a stolen lock means somebody touched it, and nothing is written |
| Workers.FleetStepKeepsInv | crates/ladoo-jobs/src/worker.rs:66-130 | Every step of every worker and task keeps what links claims, batches, tasks, permits and rows |
| Workers.OneTaskPerJob | crates/ladoo-jobs/src/worker.rs:72-113 | In every run no job has two tasks at once and no worker more than `concurrency` tasks |
| Workers.SelectReturnsMarked | crates/ladoo-jobs/src/sqlite/mod.rs:58-88 | Among workers, a claim's SELECT returns exactly the rows its UPDATE marked, whatever lies between |
| Workers.ReportsMeetTheirClaim | crates/ladoo-jobs/src/worker.rs:83-112 | A task's `complete` or `fail` finds its row running under its own token, and its guarded UPDATE always takes effect |
| Workers.StartsAreBounded | crates/ladoo-jobs/src/worker.rs:72-113 | A handler is started at most maxRetries + 1 times per job, and at most once per claim |
| Workers.SuccessIsFinal | crates/ladoo-jobs/src/worker.rs:86-95 | After a reported success the job stays completed and its handler is never started again |
| Workers.StatementsOf | crates/ladoo-jobs/src/worker.rs:66-130 | Every run of workers is a run of job table statements |
| Dispatch.EveryJobIsSpawned | crates/ladoo-jobs/src/worker.rs:66-107 | In every run, when a worker polls again, each row its claim marked has been handed to exactly one task, by this worker under this token, and no other job has |
| Dispatch.StartsAreSpawns | crates/ladoo-jobs/src/worker.rs:72-107 | The starts counted for a job are the tasks spawned for it |
| Dispatch.ClaimIsRecorded | crates/ladoo-jobs/src/sqlite/mod.rs:58-78 | In every run a claim takes at most batchSize rows, all waiting and due, locks them, and touches no other |
| Dispatch.ReportIsRecorded | crates/ladoo-jobs/src/worker.rs:83-107 | In every run a reported success completes the job, a reported failure counts once and sets the next delay, and no other row changes |
| Dispatch.NeverStuck | crates/ladoo-jobs/src/worker.rs:66-130 | A worker with a batch in hand can get back to polling, by tasks reporting and releasing permits, if and only if it has nothing to hand out or concurrency is not zero |
| Texts.SplitOfJoin | crates/ladoo/src/router.rs:611-613 | Splitting joined pieces gives the pieces |
| Paths.SplitOfJoined | crates/ladoo/src/router.rs:611-613 | Joining segments with slashes and splitting again gives the segments |
| Patterns.ParsePath | crates/ladoo/src/router.rs:587-608 | The parsing loop returns the pattern or its first panic |
| Patterns.ParseIsInverseOfPrint | crates/ladoo/src/router.rs:587-608 | The parser accepts exactly the printed forms of patterns with a named wildcard last or none, and returns these |
| Matching.MatchSegments | crates/ladoo/src/router.rs:622-660 | The matching loop with its length check computes the specified match, its captures and its rank |
| Matching.MatchIsSound | crates/ladoo/src/router.rs:622-660 | The captures, put back into the pattern, joined and split, give the request path's segments |
| Matching.MatchIsComplete | crates/ladoo/src/router.rs:622-660 | Any values put into the pattern are matched and captured back, empty and multi-segment wildcards included |
| Matching.MatchReadsText | crates/ladoo/src/router.rs:587-660 | Read off the pattern text: it matches exactly the paths that agree on its plain segments, one segment for each name, any rest for a wildcard, and each name captures its place |
| Routing.Router.Find | crates/ladoo/src/router.rs:510-541 | The pass over all routes returns the specified best match |
| Routing.FindPicksFirstOfBest | crates/ladoo/src/router.rs:510-541 | A route is found if and only if it is the first of the greatest score; nothing is found only if no route matches |
| Routing.Precedence | crates/ladoo/src/router.rs:504-541 | The route found has at least as many static segments as any other that matches; if as many, no wildcard unless the other has one; if that is equal too, it was registered first |
| Routing.AllStaticWins | crates/ladoo/src/router.rs:510-541 | A path that an all-static route matches gets such a route and no captures, whatever the registration order |
| Routing.Router.AllowedMethods | crates/ladoo/src/router.rs:568-579 | The Allow list of section 15.5.6 of RFC 9110: strictly sorted, and a method is in it if and only if `find` succeeds for it |
| Routing.Router.FindMiddlewareForPath | crates/ladoo/src/router.rs:555-561 | The middleware of the first route of any method that matches; none if and only if the Allow list is empty |
| Routing.Router.Add | crates/ladoo/src/router.rs:494-502 | Registers the parsed pattern last, or panics and registers nothing |
| Routing.Router.MergeFrom | crates/ladoo/src/router.rs:757-770 | Appends the mounted routes in order, group middleware last, up to the first panic |
| Routing.MountStopsAtPanic | crates/ladoo/src/router.rs:757-789 | Mounting registers the routes before the first panic, each under the prefix with the group middleware last, and raises that panic |
| Prefixes.MountReparses | crates/ladoo/src/router.rs:774-789 | A mounted pattern parses as the prefix pattern followed by its own, exactly if the prefix parses and has no wildcard before further segments; otherwise it is this panic |
| Mounts.MatchOfMounted | crates/ladoo/src/router.rs:622-660 | A mounted pattern matches exactly the paths whose front the prefix matches and whose rest the pattern matches, captures in that order |
| Mounts.FindOfMounted | crates/ladoo/src/router.rs:757-789 | On a router with only the merged routes, `find` picks what the sub-router picks for the remaining path, prefix captures in front |
| Mounts.FindOfMountedText | crates/ladoo/src/router.rs:757-789 | The same for request texts |
| Mounts.MountTwice | crates/ladoo/src/router.rs:757-770 | Mounting twice equals mounting once under both prefixes |
| RateLimit.MemoryStore.CheckAndIncrement | crates/ladoo/src/rate_limit.rs:171-206 | A request counts in the open window of its key or starts a new one; the answer holds that count against the limit, the rest of the limit, and the end of that window |
| RateLimit.MemoryStore.Reap | crates/ladoo/src/rate_limit.rs:149-155 | A sweep removes exactly the expired entries of the shards it visits |
| RateLimit.ReaperIsInvisible | crates/ladoo/src/rate_limit.rs:139-206 | Sweeps anywhere in a run, whole or in part, change no answer |
| RateLimit.WindowAnswers | crates/ladoo/src/rate_limit.rs:171-206 | In an open window the n-th request is allowed if and only if n is at most the limit, and is told the rest of the limit and the end of the window, whatever comes in between |
| RateLimit.WindowOpens | crates/ladoo/src/rate_limit.rs:171-206 | The same for the window a request opens |
| RateLimit.AtMostTwiceTheLimit | crates/ladoo/src/rate_limit.rs:171-206 | With one limit and window for a key, at most twice the limit is allowed in any closed interval of the window's length |
| RateLimit.TwiceTheLimitHappens | crates/ladoo/src/rate_limit.rs:171-206 | For every limit and window, a run that reaches the bound |
| Pagination.FromRequest | crates/ladoo/src/pagination.rs:166-195 | An absent or zero page is page 1; an absent page size is the configured or built-in default; the page size is clamped between 1 and the maximum, and kept within |
| Pagination.ItemIsOnOnePage | crates/ladoo/src/pagination.rs:95-102 | A page shows an item if and only if it is the item's page, for every page number, capped product or not |
| Pagination.PagesUpToTotal | crates/ladoo/src/pagination.rs:105-120 | The pages up to the reported total are exactly those that show anything |
| Pagination.PagesAddUp | crates/ladoo/src/pagination.rs:95-120 | The first pages together show the first items, as far as there are any |

## Left out

- SQL drivers, connection pools, the command line, configuration and the file system source: input and output.
- Creating the empty tracking table first, which every operation does, a dry run too: the model's table is always there.
- The advisory lock calls around each operation, and the reports' elapsed times; the lock is the assumption that operations do not overlap.
- Drivers that commit schema statements on their own: the model's transactions are all or nothing.
- Time stamps as text (`applied_at`, RFC 3339 comparison in the SQLite job table): instants are integers; in `SqlText` the stamp is any quote-free text.
- SHA-256: the checksum is any function of the up SQL.
- Overflow of order numbers, attempt columns and request counts: these are unbounded integers.
- The name, payload, creation and update columns of a job, and the notification channel: no statement decides by them.
- Worker.run: its endless loop is the state machine of `Workers`, not a method, since it does not end; waiting, shutdown and cancellation are steps that can happen at any time.
- Recovery of jobs left running by a crash: the source has none; `NeverStuck` says only that a live worker can go on.
- The `status` report, the HTTP server, handlers and middleware chains (known by number here), the cron scheduler, cache, CORS and secure headers: plumbing, or easy members.
- JobStores.JobStore.Complete: does not tell which of the two happened when the database reports an error, because the reply can be lost after the statement took effect.
- MigrationParser.FilenameReadsBack: a file name is a sequence of bytes, so a name with multi-byte characters appears as its bytes.
- Engine.Driver.Execute: what part of a cut-off SQL text took effect is not modelled, only that it may have.
