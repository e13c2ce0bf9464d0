# Verified model of the cache cleaner

The daemon deletes cache files under a write-ahead protocol. A scan lists the candidates of a target, a
planner turns the permitted ones into an ordered list of operations with dependencies, an authorization
step issues a grant for exactly that plan, and an executor carries it out: for each operation it stores a
durable intent, marks it, mutates the disk through a directory handle, verifies the outcome and resolves
the intent. After a crash a recovery pass settles the attempts that were left running by looking at the
disk. Around this core sit a store with leases, a worker that claims attempts, a token bucket, permits
and locks, a deadline scheduler and an idle policy.

This project models those parts in Dafny and proves what they keep. `dafny verify dfyconfig.toml` checks
everything.

## How it is modelled

- **Disk** (`Filesystem`): a graph of directory entries. A directory is known by its identity (device and
  inode), as an open descriptor knows it, so a remembered handle is a real thing that could go stale. A
  system call may fail with any error number at any time, except that a fault never fakes "no such entry".
  The stat and the unlink of a deletion are one step, and nobody else writes to the disk meanwhile.
- **Store** (`Durability`): the tables as maps and a sequence of intent rows, the statements as functions,
  and the object whose methods run them. Rows that are read back go through their text columns.
- **Executor** (`Execution`, `Executor`): a machine of atomic steps in which a crash may strike between any
  two, under an arbitrary environment (cancellation, lock contention, faults of every call), and the
  imperative loop, proved to end exactly in the machine's resting state.
- **Crash safety** (`CrashSafety`, `Ordering`, `Admission`, `Bookkeeping`, `Acyclic`, `Accounting`,
  `CrashRecovery`, `JobCredit`, `Completeness`): statements about every step of every run of that machine, for any
  plan, disk, tables and faults: what may leave the disk, which operations are admitted, what the store says.
- **Planner** (`Paths`, `Planning`, `Authorization`, `Pipeline`, `BottomUp`): sorting, the path index and its prefix test, validation,
  and what the executor makes of a built plan.
- **Recovery** (`Verification`, `Recovery`, `Reconciliation`, `DiskVerdicts`, `Interruption`, `Retry`, `LostUpdates`):
  the verifier and the nested loops over intents and attempts in any order, with the store errors that they ignore or stop
  at; recovery as a sequence of statements with a crash between any two, and what the next recovery makes of it.
- **Scanner** (`Scanner`, `ScanResults`, `ScannedPaths`, `ScanCompleteness`, `LongPaths`): both recursive walks over one preorder trace.
- **Timed and shared state** (`RateLimiter`, `EventLoop`, `Idle`, `Resources`, `Workers`): the objects with
  their methods, and statements about all sequences of calls. Time, tokens and temperatures are reals.

Clocks, randomness and everything the operating system, SQLite or another thread decides are parameters;
every statement of the store can fail. Where a property fails for some inputs, the model keeps the code's
behaviour, a lemma shows an input, and another lemma gives the exact condition:

- The validator promises an acyclic plan but accepts an operation that waits for itself
  (`Acyclic.SelfDependencyIsAccepted`). A valid plan is acyclic exactly when there is no such operation
  (`Acyclic.AcyclicExactly`), and such an operation never runs (`Acyclic.SelfDependentNeverRuns`).
- A second running attempt of a job can overwrite the credit of the first during recovery
  (`JobCredit.CreditCanBeOverwritten`): the attempt of the job that is settled last wins
  (`JobCredit.LastOfJobWins`). The credit is kept in every order exactly when every running attempt of the
  job is worth as much (`JobCredit.CreditIsKeptExactly`), as with only one (`JobCredit.CreditSurvivesCrash`).
- A failed query at start-up seeds the attempt counter with 1, so that an old attempt is revived
  (`Workers.FailedQueryReusesAttempt`, `Workers.RevivedClaim`). The next claim is new exactly when the query
  worked or nothing was stored (`Workers.FirstClaimIsNewExactly`).
- A recovery that a crash or a store error interrupted is not always completed by the next one: a job row, the
  state of an intent and an outcome can be lost for good (`LostUpdates.JobRowIsLost`, `LostUpdates.IntentIsLost`,
  `LostUpdates.OutcomeIsLost`). Attempts are always settled; the job rows end right exactly unless the
  interruption fell between closing an attempt and crediting its job, which no other running attempt credits
  and whose row is not right already; the intents end right exactly if no failed update, of an intent whose
  attempt got closed, would have changed its state; the outcomes exactly if every lost record is covered by
  another one under its key (`Retry.RetryAfterCrash`, `Retry.RetryAfterError`).
- The planner's text test misses or invents children of paths with empty or "." pieces
  (`Paths.TrailingSlashMissesChild`, `Paths.TrailingSlashLooksBelow`). It is right exactly as
  `Paths.PrefixTestExact` and `Paths.PrefixTestExactForParsed` say.
- The plan depends on the order of two different permits for one path
  (`Planning.ConflictBreaksIndependence`), and on no other order (`Planning.OrderIndependenceIsExact`).
- Joining can build a path that no longer parses (`LongPaths.SeventeenLongNames`), so that its intent reads
  back with an empty path. Joined names parse exactly within the bounds (`ScannedPaths.JoinedPathParsesExactly`),
  and a row reads back unchanged exactly when its path parses (`Durability.ReloadIsIdentity`).
- The hysteresis of a hot reading is lost across a critical one (`Idle.CriticalForgetsHot`,
  `Idle.ThermalRemembers`).

## Model

| member | source | states |
|---|---|---|
| `CrashSafety.CrashSafe` | src/executor/mod.rs:73-543 | At every step of every run, for any plan, disk, tables and faults: each entry missing since the start is named by a granted operation that passed the safety gate, with that entry's path, identity and kind, and has a durable intent at least marked as mutating; every other entry is unchanged and nothing was added |
| `CrashSafety.UnplannedEntrySurvives` | src/executor/mod.rs:73-543 | If no two paths below the target roots lead to one directory, an entry that no operation names is still there at every step |
| `CrashSafety.AncestorsSurvive` | src/fs/mod.rs:313-326 | If no directory was removed above a surviving entry, every path to a directory that still holds something is still intact |
| `CrashSafety.UnplannedPathSurvives` | src/executor/mod.rs:73-543 | An entry that no operation plans is reachable at the same path, as the same entry, at every step of every run |
| `CrashSafety.DiskInvAlways` | src/executor/mod.rs:563-599 | At every step the disk has only lost entries, no directory went before its content, and the remembered handle is where a fresh walk would lead |
| `CrashSafety.JournalInvAlways` | src/executor/mod.rs:206-244 | At every step the journal is ahead of the disk: the operation in flight is permitted and has its intent row, and every removal is explained by a marked intent |
| `Ordering.SuccessInvAlways` | src/executor/mod.rs:253-309 | At every step every booked success is real: nothing is reachable at its path and its intent says verified success |
| `Ordering.DependenciesFirst` | src/executor/mod.rs:86-100 | At every step each removed entry has an explaining operation all of whose dependencies are verified absent, on disk and in the journal, at that same point |
| `Ordering.CachedHandleIsTransparent` | src/executor/mod.rs:563-599 | On a disk whose opens do not fault, running with the remembered parent handle and re-walking from the target root for every operation go through the same disks, tables, results and counters, step by step |
| `BottomUp.DirectoriesLast` | src/planner/mod.rs:107-141 | For every built plan and every disk, at every crash point: a removed directory was removed by its planned operation after everything planned strictly below it had been verified absent |
| `BottomUp.PermitlessPathSurvives` | src/planner/mod.rs:84-141 | An entry without a permit survives every run of the built plan, together with all its ancestors |
| `Completeness.EverythingPlannedIsDeleted` | src/executor/mod.rs:73-556 | Where nothing interferes, every operation of a feasible plan succeeds with its full credit and the disk has lost exactly the planned entries |
| `Completeness.BuiltPlanIsFeasible` | src/planner/mod.rs:84-141 | The planner orders any selection that contains the content of its directories so that it can be executed to the end |
| `Completeness.SelectionIsDeleted` | src/executor/mod.rs:40-557 | Plan and execute without interference: the whole selection is gone, nothing else is, and the reclaimed bytes equal the plan's estimate |
| `Completeness.SuccessesAreCounted` | src/executor/mod.rs:62-68 | At every step the success counter is the number of successful results |
| `Accounting.FiguresAddUp` | src/executor/mod.rs:545-556 | On normal return success, failed and skipped add up to the plan's length, and the reclaimed bytes are the sum of the single credits up to the 64-bit ceiling, none above its operation's estimate |
| `Accounting.NoClamp` | src/domain/types.rs:168-197 | Within the plan budget and the 10 GiB bound no saturating addition ever clamps |
| `Accounting.ReclaimedWithinEstimate` | src/executor/mod.rs:253-267 | For a built plan over measured files the reclaimed bytes are the exact sum of the credits and never above the plan's estimate |
| `Accounting.CancellationIsPrefix` | src/executor/mod.rs:74-84 | Wherever cancellation strikes, disk, tables and figures are those of a run of only the operations before it, the rest being counted as skipped |
| `Admission.OnlyAdmittedRun` | src/executor/mod.rs:74-193 | At every step of every run an operation under way is neither cancelled nor locked out, has all dependencies among the earlier successes, is granted, catalogued and inside the safety boundary |
| `Admission.RefusalsExactly` | src/executor/mod.rs:74-193 | At every step, the result of every operation: preempted with nothing reclaimed if cancelled; else skipped if a dependency has not succeeded or it is of a kind left to others; else failed if ungranted, uncatalogued, locked by another attempt or outside the boundary; an admitted one ends in success, failure or failed verification |
| `Admission.OnlyAdmittedDelete` | src/executor/mod.rs:73-543 | At every step every entry missing since the start is explained by an operation that was admitted, so never by one whose target another attempt has locked |
| `Admission.ResolutionExactly` | src/executor/mod.rs:243-308 | The end of a mutation, by what the last look at the disk says: success exactly if the entry is seen gone, failed verification or failure otherwise by the return of the mutation, the promised bytes only after a removal of its own; the intent verified, failed or unknown exactly if the entry is seen gone, seen there or not seen |
| `Admission.GateExactly` | src/executor/mod.rs:74-193 | Every way out of the gates, by what is wrong with the operation |
| `Admission.OpenExactly` | src/executor/mod.rs:220-241 | The parent directory is the remembered one of the same target and path, or the one that a walk from the root finds; without it, or without a last name to look up, the operation fails |
| `Admission.BoundaryExactly` | src/safety/mod.rs:98-138 | The last gate asks exactly for a tier that may be changed, a safe root, a non-empty path, the device of the target and the current generation |
| `Admission.SafeRootExactly` | src/safety/mod.rs:150-175 | A root is safe exactly if it is not the root of the file system and lies in none of the system directories, which are spelled out |
| `Admission.NothingProtectedIsRemoved` | src/safety/mod.rs:98-175 | At every step, whatever was removed lay in a catalogued target of a tier that may be changed, of the current generation, outside every system directory and on the device of its root |
| `Bookkeeping.BookedExactly` | src/executor/mod.rs:194-330 | At every step, for an operation with an identifier of its own: an intent is stored exactly once it was admitted and the statement worked, it describes the operation field by field, and its state is the one that the result calls for; an outcome is recorded only for an admitted operation, always after a verified one unless the statement fails, with the operation's own fields and its result |
| `Bookkeeping.RefusedLeavesNoIntent` | src/executor/mod.rs:161-219 | A cancelled, locked, ungranted or out-of-bounds operation has no intent at any step |
| `Bookkeeping.UnknownJobDoesNothing` | src/store/schema.rs:36-54 | Under a job that the store does not know nothing ever happens, on the disk or in the store |
| `Bookkeeping.StoredExactly` | src/executor/mod.rs:194-219 | The gates store an intent exactly for an admitted operation whose statement works, and otherwise book a result and leave the store alone |
| `Execution.FinalIsReached` | src/executor/mod.rs:73-557 | Every run comes to rest, in one of its own states |
| `Executor.ExecutePlan` | src/executor/mod.rs:40-557 | Unless plan and grant are both of the current catalog and configuration and the grant has not run out, nothing is touched; otherwise disk, tables and figures end exactly in the machine's resting state, and an error is returned exactly when a store update failed on the way |
| `Executor.PlanRun.constructor` | src/executor/mod.rs:62-71 | A run starts in the machine's initial state |
| `Executor.PlanRun.Book` | src/executor/mod.rs:254-307 | One result moves exactly the counters, the byte total and the set of successes that it should |
| `Executor.PlanRun.Gate` | src/executor/mod.rs:74-193 | The gates in order, as the machine's decision, whose outcomes `Admission.GateExactly` fixes by their causes: cancellation, dependencies, capability, kind of operation, target, lock, safety boundary |
| `Executor.PlanRun.GetOrOpenParent` | src/executor/mod.rs:563-599 | The remembered handle on a hit, otherwise a walk from the root that is then remembered; a failed walk leaves the memory as it was |
| `Executor.PlanRun.RunOperation` | src/executor/mod.rs:73-543 | One turn of the loop takes the machine from one operation to the next, or to the abort that the store error causes |
| `Executor.PlanRun.OpenAndMutate` | src/executor/mod.rs:221-244 | From a marked intent on, the same |
| `Executor.PlanRun.MutateAndVerify` | src/executor/mod.rs:438-448 | From an open parent on, the same |
| `Executor.PlanRun.VerifyAndResolve` | src/executor/mod.rs:450-499 | From a finished mutation on, the same: the table of return value and verdict, and the handle dropped after a directory |
| `Executor.PlanRun.RecordOutcome` | src/executor/mod.rs:501-514 | The recorded outcome, whose failure is only logged |
| `Reconciliation.ReconcileStartupCrashes` | src/recovery/mod.rs:20-125 | The disk is not touched; the tables are those of settling the running attempts one by one in some order, up to the first fatal store error; without one exactly the running attempts, their intents and their jobs are settled by their own verdicts, and, if its job is stored, an outcome is recorded for every intent with a catalogued target unless that statement failed, and for no other; no attempt stays running and the count is that of the fully deleted attempts; with one, an error is returned, the attempts before it are settled and the one at the error as far as it came |
| `Reconciliation.RecoverTwice` | src/recovery/mod.rs:20-125 | After a recovery that met no fatal store error a second one returns 0 and changes nothing |
| `Reconciliation.InOrderSettles` | src/recovery/mod.rs:34-122 | Running attempts settled one by one in any order: attempt rows and intents are fixed by their own verdicts, job rows and outcomes are those of one of the attempts that write them; or a fatal error stopped at some attempt |
| `Interruption.StatementsSettle` | src/recovery/mod.rs:37-121 | Settling an attempt is carrying out its statements (resolve and record each intent, close the attempt, credit the job), or those before the failing one |
| `Interruption.CrashIsInterruption` | src/recovery/mod.rs:34-122 | Between any two statements of a recovery in any order: the attempts before are settled completely, of the current one exactly a set of intents, its outcomes are within its own, and its row is closed only after all its intents and before its job is credited |
| `Interruption.ErrorIsACrashPoint` | src/recovery/mod.rs:37-121 | A fatal store error leaves the tables as a crash right before the failing statement does |
| `Retry.RetryExactly` | src/recovery/mod.rs:20-125 | After any such interruption, the next recovery with a working store leaves nothing running and settles every attempt as if undisturbed; the intents if and only if no lost update of an intent of a closed attempt would have changed its state; the job rows if and only if the interruption was not between closing an attempt and crediting its job, or the job is not stored, has another running attempt or already has that row; the outcomes if and only if each record lost for a closed attempt is made good under its key by another statement or by what stood there |
| `Retry.RetryAfterCrash` | src/recovery/mod.rs:34-122 | That, for a crash between any two statements of a recovery in any order, retried in any order |
| `Retry.RetryAfterError` | src/recovery/mod.rs:111-121 | That, for a recovery cut short by a store error: the job rows are right if and only if the error was at the load or at the attempt row, or there was nothing to credit |
| `Retry.RecoverAgain` | src/recovery/mod.rs:20-125 | Startup recovery that failed on a store error, called again with a working store, ends exactly so |
| `LostUpdates.JobRowIsLost` | src/recovery/mod.rs:111-113 | A store in which a failed update of the job row leaves the attempt closed, nothing for the next recovery to do, and the job without its five bytes |
| `LostUpdates.IntentIsLost` | src/recovery/mod.rs:60-65 | A store in which a failed update of an intent leaves the attempt reconciled and the intent committed for good |
| `LostUpdates.OutcomeIsLost` | src/recovery/mod.rs:99-108 | A store in which a failed record leaves the attempt reconciled and its outcome missing for good |
| `LostUpdates.NothingIsLost` | src/recovery/mod.rs:42-113 | The same store recovered without an error, all tables: intent verified, outcome a success of five bytes, attempt reconciled, job recovered |
| `LostUpdates.FileStillThere` | src/recovery/mod.rs:66-120 | The same store with the file still there, all tables: intent failed, outcome failed, attempt and job failed, nothing credited |
| `LostUpdates.FileReplaced` | src/recovery/mod.rs:66-120 | The same with another file under the name |
| `LostUpdates.RootOutOfReach` | src/recovery/mod.rs:76-117 | The same store with the cache root out of reach, all tables: intent unknown, outcome skipped, attempt unresolved, job partially reconciled |
| `DiskVerdicts.SettledExactly` | src/recovery/mod.rs:42-109 | Without faults an intent is verified exactly if its path is gone, failed exactly if the walk to its parent reaches an entry under the last name, unknown exactly if neither; the outcome has success, failed or skipped accordingly and the intent's own fields; with faults a firm verdict is still right |
| `DiskVerdicts.AttemptVerdictsExactly` | src/recovery/mod.rs:111-121 | Without faults an attempt and its job end reconciled exactly if all paths are gone, unresolved exactly if some path is neither gone nor present, failed exactly if some path is present and every other gone or present |
| `DiskVerdicts.RecoveredByDisk` | src/recovery/mod.rs:20-125 | After a finished recovery without verification faults, every running attempt, every intent, the state and the credit of every job and every new outcome are what the disk calls for |
| `Retry.VerdictsIgnoreStates` | src/recovery/mod.rs:42-90 | The verdicts and the credit of an attempt do not depend on the states that its intents already have |
| `Recovery.ReconciledExactly` | src/recovery/mod.rs:54-121 | An attempt is marked reconciled only if every intent has a catalogued target and an absent path, and without verification faults exactly then |
| `Recovery.SettleIntentsShape` | src/recovery/mod.rs:42-109 | Settling the intents of an attempt changes its own rows, each by its own verdict unless that update fails, and recorded outcomes, and nothing else |
| `Recovery.SettleRunningAttempt` | src/recovery/mod.rs:37-121 | One attempt with its store errors: a failed load, a failed attempt update and a failed job update each end recovery at their own point |
| `Recovery.SettleLoaded` | src/recovery/mod.rs:38-109 | The loop over the intents with its flags and its byte total |
| `Recovery.SettleIntent` | src/recovery/mod.rs:43-108 | One intent: look, resolve, record; store errors are ignored, and an uncatalogued target is resolved as unknown and not recorded |
| `CrashRecovery.CrashThenRecover` | src/recovery/mod.rs:20-125 | Crash anywhere, then recover without faults, with any other running attempts and in any order: every removed entry is named by a permitted operation whose intent becomes a verified success, and every booked success is confirmed |
| `JobCredit.CreditSurvivesCrash` | src/recovery/mod.rs:60-121 | With no other running attempt of the job, the job is credited with at least the bytes booked before the crash and at most the committed estimates |
| `JobCredit.CreditIsKeptExactly` | src/recovery/mod.rs:34-121 | Recovery in every order of the running attempts ends with at least a given credit on the job if and only if each of the job's running attempts has absent intents worth that much |
| `JobCredit.LastOfJobWins` | src/store/mod.rs:206-220 | In whatever order the attempts are settled, the job's row carries the credit of the last one of its attempts in that order |
| `JobCredit.AnyAttemptCanBeLast` | src/recovery/mod.rs:34-121 | For each running attempt of a job there is an order in which recovery goes through and that attempt's credit stays |
| `JobCredit.CreditCanBeOverwritten` | src/recovery/mod.rs:111-121 | A run that had booked five bytes and a crash with two attempts running: settled in one order the job keeps the bytes, in the other it ends with none |
| `JobCredit.OwnCredit` | src/recovery/mod.rs:60-65 | At every crash point the attempt itself is worth at least what the run had booked and at most its committed estimates |
| `JobCredit.OthersHaveNoIntents` | src/executor/mod.rs:194-206 | A run stores intents of its own attempt only |
| `CrashRecovery.CreditInvAlways` | src/executor/mod.rs:253-267 | At every step the credits booked so far, plus the one about to be booked, are covered by intents whose paths are absent |
| `CrashRecovery.ReclaimedIsBytesGone` | src/recovery/mod.rs:60-65 | Without faults recovery credits exactly the estimates of the intents whose paths are absent |
| `CrashRecovery.RecoveredWithinEstimates` | src/recovery/mod.rs:38-65 | Even with faults recovery never credits more than the committed estimates |
| `Verification.VerifyOperation` | src/verifier/mod.rs:40-82 | The loop over the path components is the recursive verdict of the path; without faults each verdict is given exactly for its situation on the disk |
| `Verification.VerdictsExactly` | src/verifier/mod.rs:40-106 | Without faults: still present exactly if the walk to the parent succeeds and the entry under the last name has the expected identity, mismatch exactly if it has another; already gone exactly if a name on the way has no entry; target unavailable exactly if the root does not open; parent unavailable exactly if the way is blocked by a symlink, a file, another device or an improper name; unknown exactly for an empty path or an improper last name |
| `Verification.VerdictsUnderFaults` | src/verifier/mod.rs:46-106 | Under any faults: which error numbers of the root, of the opens on the way and of the last look give which verdict |
| `Verification.HandleVerdictsExactly` | src/verifier/mod.rs:85-106 | The verdict below an open parent handle, by the entry and the fault |
| `Verification.VerifierIsSoundAndComplete` | src/verifier/mod.rs:40-106 | The verifier reports a deletion only for a path at which nothing is reachable, and always does so when no fault interferes |
| `Filesystem.Disk.UnlinkChildFile` | src/fs/mod.rs:297-310 | Removes one matching entry that is no directory, or fails and changes nothing |
| `Filesystem.Disk.RmdirChildDir` | src/fs/mod.rs:313-326 | Removes one matching empty directory, or fails and changes nothing |
| `Filesystem.Disk.OpenPath` | src/executor/mod.rs:582-590 | The component-by-component walk from a target root |
| `Filesystem.WalkSurvivesUnlink` | src/executor/mod.rs:563-599 | Removing something that is no directory leaves every path to a directory as it was |
| `Paths.Parse` | src/domain/types.rs:306-339 | Accepts exactly the empty path and the bounded relative paths without control characters, "." at the start, or ".."; the string is kept as given |
| `Paths.JoinChild` | src/domain/types.rs:353-358 | Fails exactly when the name itself does not parse |
| `Paths.ComponentsAreValid` | src/fs/mod.rs:52-63 | Every component of a parsed path passes the single-component check |
| `Paths.PrefixTestExact` | src/planner/mod.rs:113-121 | For a canonical path the text test decides "strictly below" exactly when the directory's own string is canonical |
| `Paths.PrefixTestExactForParsed` | src/planner/mod.rs:113-121 | For any parsed path the text test is right about all canonical directories if and only if the path is canonical or has exactly one component after its first empty or "." piece |
| `Paths.TrailingSlashLooksBelow` | src/planner/mod.rs:113-121 | A path spelled with a trailing slash is taken for its own child |
| `Paths.TrailingSlashMissesChild` | src/planner/mod.rs:113-121 | A directory spelled with a trailing slash parses, but the text test misses its child |
| `Planning.BuildPlan` | src/planner/mod.rs:20-155 | Fails exactly above the budget; otherwise the plan carries the given job and generations, has one operation per permit with its target, path, identity, kind and size, numbered in plan order, and estimates the sum of all sizes; the final validation never rejects it |
| `Planning.Partition` | src/planner/mod.rs:40-50 | Files and directories, each in input order |
| `Planning.LayOut` | src/planner/mod.rs:80-141 | The loop with its growing path index yields the declared operations and the byte total |
| `Planning.CollectDependencies` | src/planner/mod.rs:115-126 | Whatever order the hash map is visited in, the sorted and deduplicated dependencies are the same |
| `Planning.ValidatePlan` | src/planner/mod.rs:158-185 | Accepts exactly the plans within the budget with distinct identifiers whose dependencies are all defined no later than themselves |
| `Acyclic.AcyclicExactly` | src/planner/mod.rs:157-185 | A plan that the validator accepts has a cycle if and only if some operation waits for itself; otherwise every dependency comes strictly earlier |
| `Acyclic.SelfDependencyIsAccepted` | src/planner/mod.rs:166-182 | A one-operation plan with such a cycle is accepted |
| `Acyclic.SelfDependentNeverRuns` | src/executor/mod.rs:86-100 | At every step of every run an operation that waits for itself has no intent and is booked, if at all, as skipped or preempted |
| `Planning.BuiltPlanIsValid` | src/planner/mod.rs:158-185 | Every built plan within the budget is valid |
| `Planning.ArrangedIsPermutation` | src/planner/mod.rs:40-78 | One operation per permit: arranging is a permutation |
| `Planning.DescendantsComeFirst` | src/planner/mod.rs:66-78 | Everything planned strictly below a directory comes before it |
| `Planning.DependenciesAreDescendants` | src/planner/mod.rs:113-126 | The dependencies of a planned directory are exactly the operations on its planned strict descendants in the same target, all earlier in the list |
| `Planning.PlanIgnoresPermitOrder` | src/planner/mod.rs:52-78 | Any permutation of the same permits yields the identical plan |
| `Planning.OrderIndependenceIsExact` | src/planner/mod.rs:52-78 | The plan is independent of the order of its permits if and only if no two different permits of one kind share target and path |
| `Planning.ConflictBreaksIndependence` | src/planner/mod.rs:52-78 | Two such permits give two orders of the same permits with different plans |
| `Planning.OrderedIsUnique` | src/planner/mod.rs:52-78 | Two canonically ordered lists of the same permits are equal |
| `Planning.StringLEExactly` | src/planner/mod.rs:40-78 | The order of targets and paths: a prefix comes first, otherwise the first difference decides |
| `Planning.SortIsStable` | src/planner/mod.rs:52-78 | Permits with the same key keep their input order |
| `Authorization.AuthorizePlan` | src/auth/mod.rs:32-101 | A grant is issued exactly when both generations are current; it covers exactly what the plan contains, and execution is authorized exactly under these generations and for the grant's lifetime |
| `Pipeline.PlanAndAuthorize` | src/pipeline/mod.rs:232-246 | From permits to an authorized plan: there is one exactly within the budget, it holds what the permits ask for, its grant allows exactly what was permitted, and the executor accepts it exactly under the same generations for 300 seconds |
| `Durability.ReloadIsIdentity` | src/store/mod.rs:586-606 | A stored intent reads back unchanged exactly when its path is empty or parses; mutation type and state never change |
| `LongPaths.SeventeenLongNames` | src/domain/types.rs:353-358 | Seventeen names of 255 bytes: every join succeeds, the whole does not parse, and its intent reads back with the empty path |
| `LongPaths.UnparsablePathIsUnknown` | src/store/mod.rs:606-606 | Recovery can only resolve an intent with such a path as unknown |
| `LongPaths.UnparsablePathBlocksAttempt` | src/recovery/mod.rs:111-121 | An attempt with such an intent ends unresolved, whatever the disk looks like |
| `ScannedPaths.JoinedPathParsesExactly` | src/domain/types.rs:306-358 | Joined names parse back if and only if the whole is within 4096 bytes and 255 components |
| `Durability.SqliteStore.RegisterJob` | src/store/mod.rs:186-203 | Inserts a job once, or fails and changes nothing |
| `Durability.SqliteStore.CommitOperationIntent` | src/store/mod.rs:266-293 | Appends the intent, or stores nothing: on a missing job, a taken key or a database fault |
| `Durability.SqliteStore.UpdateIntentState` | src/store/mod.rs:365-376 | Changes the state of the rows with that key and of no other |
| `Durability.SqliteStore.RecordOperationResult` | src/store/mod.rs:378-423 | Replaces the outcome under job and operation |
| `Durability.SqliteStore.UpdateAttemptState` | src/store/mod.rs:253-263 | Changes one attempt's state, or fails and changes nothing |
| `Durability.SqliteStore.UpdateJobState` | src/store/mod.rs:206-220 | Overwrites one job's state and bytes, or fails and changes nothing |
| `Durability.SqliteStore.GetRunningAttempts` | src/store/mod.rs:535-554 | Exactly the attempts in state RUNNING, or an error |
| `Durability.SqliteStore.GetOperationIntents` | src/store/mod.rs:557-627 | The attempt's rows in insertion order, as they read back, or an error |
| `Durability.SqliteStore.GetMaxAttemptId` | src/store/mod.rs:223-230 | The largest stored attempt identifier; 0 when there is none and when the query fails |
| `Durability.SqliteStore.AcquireResourceLease` | src/store/mod.rs:427-467 | Refuses exactly when an unexpired lease of another worker stands; otherwise the lease is the caller's until the new expiry; an error rolls everything back |
| `Durability.SqliteStore.ReleaseResourceLease` | src/store/mod.rs:470-478 | Removes the lease only for its holder, or fails and changes nothing |
| `Durability.SqliteStore.CreateRunningAttempt` | src/store/mod.rs:232-250 | Inserts a running attempt or revives the row; fails on a missing job or any other error and then changes nothing |
| `Workers.LeaseExcludesOthers` | src/store/mod.rs:427-478 | After a worker's latest grant at t for ttl, whatever others try in between, an acquisition before t + ttl succeeds exactly for the holder |
| `Workers.ExpiredLeaseIsFree` | src/store/mod.rs:427-468 | Once a lease has run out, anybody can take it |
| `Workers.ReleaseExactly` | src/store/mod.rs:470-478 | After a release another worker can take the lease before its end exactly if the holder released it |
| `Workers.JobsHaveTheirOwnLeases` | src/worker/mod.rs:30-48 | The lease of one job never stands in the way of another |
| `Workers.ClaimExactly` | src/worker/mod.rs:30-48 | A claim succeeds exactly if no statement fails, nobody else holds an unexpired lease of the job and the attempt can be stored; what it leaves in the leases and in the attempt row, new or revived |
| `Workers.ClaimsAreNew` | src/worker/mod.rs:19-48 | Across any restarts, crashes, runs and recoveries in which no start-up query failed with attempts in the store, a claimed identifier exceeds every stored one, has no intents and its attempt row is running |
| `Workers.FirstClaimIsNewExactly` | src/worker/mod.rs:19-27 | The first claim after a restart is new if and only if the query worked or nothing was stored |
| `Workers.RestartIsAheadExactly` | src/worker/mod.rs:19-27 | Right after a restart the counter is above all stored attempts under exactly that condition |
| `Workers.FailedQueryReusesAttempt` | src/store/mod.rs:223-230 | A life in which the claim after a failed query gets an identifier that already has intents |
| `Workers.RevivedClaim` | src/store/mod.rs:232-250 | Such a claim revives the old row, and the unique key rejects the intents that the old attempt already has |
| `Workers.CounterStaysAhead` | src/worker/mod.rs:19-27 | In every such life the counter stays above all stored attempts |
| `Workers.LifeStaysTidy` | src/worker/mod.rs:19-48 | In every life, even with failed queries, every intent belongs to a stored attempt and identifiers are positive |
| `Workers.RunIsOrderly` | src/executor/mod.rs:206-219 | An execution cut off anywhere adds no attempt and only intents of its own attempt |
| `Workers.RecoveryIsOrderly` | src/recovery/mod.rs:20-125 | Recovery, finished or cut short by a store error, adds neither attempts nor intents |
| `Workers.CrashedRecoveryIsOrderly` | src/recovery/mod.rs:34-122 | Nor does a recovery that crashes between any two of its statements |
| `Workers.IntentIsNeverRejected` | src/store/schema.rs:36-54 | For a valid plan under a claimed attempt the unique key never rejects an intent, at any step of any run |
| `Workers.WorkerPool.constructor` | src/worker/mod.rs:19-27 | Seeds the counter one above the largest stored attempt, or with 1 when the query fails |
| `Workers.WorkerPool.ClaimAttempt` | src/worker/mod.rs:30-48 | Draws an identifier even when refused; a claim takes the lease and stores a running attempt; an error after the lease leaves the lease taken |
| `Workers.WorkerPool.FinishAttempt` | src/worker/mod.rs:51-57 | Finishes the attempt and gives the lease back; if the update fails, attempt, lease and flag stay as they were |
| `Scanner.CandidateScanner.ScanRecursive` | src/scanner/mod.rs:169-255 | The collecting walk is the fold of the preorder trace under the candidate limit; permits are all returned, at most one more per level is out |
| `Scanner.CandidateScanner.ScanEntries` | src/scanner/mod.rs:197-252 | The loop over the entries, with its break at the limit |
| `Scanner.CandidateScanner.ScanEntry` | src/scanner/mod.rs:203-251 | One round of it |
| `Scanner.CandidateScanner.ScanStreaming` | src/scanner/mod.rs:258-346 | The streaming walk is the fold of the same trace through the chunk buffer, for any answers of the consumer |
| `Scanner.CandidateScanner.StreamEntry` | src/scanner/mod.rs:283-342 | One round of it |
| `Scanner.CandidateScanner.BufferEntry` | src/scanner/mod.rs:288-321 | One candidate into the buffer, and a full buffer to the consumer |
| `ScanResults.ScanTarget` | src/scanner/mod.rs:84-128 | The first 50,000 items of the trace under consecutive identifiers; Complete exactly when nothing was unreadable or cut off, Failed exactly with errors and no candidates; the errors name the unreadable directories; at most 17 permits are out and all come back |
| `ScanResults.ScanTargetStreaming` | src/scanner/mod.rs:131-166 | The chunks are consecutive pieces of the whole list from its start, all but the last exactly of the chunk size; the consumer is never called again after its first answer other than Continue; unless the last answer was such a one nothing is missing |
| `ScanResults.ScansAgree` | src/scanner/mod.rs:84-166 | With at most 50,000 items and a consumer that never refuses, the concatenated chunks are the collected list, for any number of permits |
| `ScanResults.CollectedItems` | src/scanner/mod.rs:184-201 | The collecting fold keeps exactly the first items up to the limit |
| `ScanResults.StreamedItems` | src/scanner/mod.rs:314-321 | The streaming fold keeps full chunks, a short buffer and nothing beyond the first refusal |
| `ScannedPaths.ScanFindsExactlyTheReachable` | src/scanner/mod.rs:181-237 | A scan finds exactly the entries reachable through readable, openable real directories within 16 levels and the free permits |
| `ScannedPaths.CandidateIsAnEntry` | src/scanner/mod.rs:197-251 | Every candidate has the next identifier and reports an entry in reach: its target, path, identity, whether it is a real directory or a symlink, and its size, zero for a directory |
| `ScannedPaths.EntryIsACandidate` | src/scanner/mod.rs:282-343 | Every entry in reach is reported by such a candidate |
| `ScanCompleteness.CompleteExactly` | src/scanner/mod.rs:181-201 | With fewer than 50,000 entries a scan is complete exactly if every directory in reach could be listed; with more it never is |
| `ScannedPaths.ScannedPathsSurviveStorage` | src/scanner/mod.rs:203-206 | Every scanned path has at most 16 components and 4095 bytes, is canonical, parses back to itself, and an intent stored for it reloads unchanged |
| `ScannedPaths.ScannedPathsAreDistinct` | src/scanner/mod.rs:197-251 | No two candidates of a scan share a path, a directory comes before what is in it, and the identifiers ascend |
| `Resources.LocksAreExclusive` | src/resource/mod.rs:224-250 | After any interleaving every live permit owns its target, and every locked target has exactly one live permit, with the stored attempt and reservation |
| `Resources.DropNeverFreesAnother` | src/resource/mod.rs:78-88 | Dropping a permit frees its own target and no other; a permit that was dropped before frees nothing |
| `Resources.ActiveCountsLivePermits` | src/resource/mod.rs:186-218 | In every interleaving the active count is the number of live descriptor permits, within the maximum |
| `Resources.FdPool.AcquireFdPermit` | src/resource/mod.rs:186-218 | A permit exactly when one is free |
| `Resources.FdPool.DropFdPermit` | src/resource/mod.rs:55-63 | One permit back |
| `Resources.LockTable.AcquireTargetLock` | src/resource/mod.rs:224-250 | Locks a free target under a new reservation, refuses a locked one |
| `Resources.LockTable.DropPermit` | src/resource/mod.rs:78-88 | Frees the target only under the permit's own reservation |
| `RateLimiter.WindowBound` | src/util/rate_limiter.rs:42-97 | After any history, any window of length d grants at most 32 + 500 d acquires however the mode changes, and at most capacity + rate d without a change |
| `RateLimiter.ModeWindowBound` | src/util/rate_limiter.rs:16-97 | A window of length d in a mode grants at most 32 + 500 d, 32 + 300 d, 32 + 150 d or 32 + 50 d, and nothing when paused |
| `RateLimiter.BurstIsExact` | src/util/rate_limiter.rs:42-97 | A new bucket grants exactly 32 at once in every mode that works, and nothing when paused |
| `RateLimiter.PaceIsSustained` | src/util/rate_limiter.rs:70-97 | A caller that leaves a 500th, 300th, 150th or 50th of a second between attempts, by mode, is always granted |
| `RateLimiter.SleepExactly` | src/util/rate_limiter.rs:76-93 | An attempt is granted exactly with a whole token after the refill; otherwise the caller sleeps for what is missing at the current rate, a millisecond at least |
| `RateLimiter.OneSleepIsEnough` | src/util/rate_limiter.rs:70-97 | After the computed sleep an uncontended attempt is granted |
| `RateLimiter.TokenBucketRateLimiter.Acquire` | src/util/rate_limiter.rs:70-97 | The uncontended loop ends after at most one sleep, however late the wake-up, and refuses only when paused |
| `RateLimiter.TokenBucketRateLimiter.Attempt` | src/util/rate_limiter.rs:72-93 | One round of the loop; a paused bucket refuses before it looks at the clock |
| `RateLimiter.TokenBucketRateLimiter.SetMode` | src/util/rate_limiter.rs:56-66 | Clamps the tokens, neither refills nor moves the clock |
| `RateLimiter.TokenBucketRateLimiter.constructor` | src/util/rate_limiter.rs:42-53 | A full bucket of the mode's capacity |
| `EventLoop.DeadlinesStayBounded` | src/system/event_loop.rs:93-251 | After any run of the driver with intervals up to I: the maintenance deadline is within 2 I, within I while a retry is pending within 60 s; the backoff is 5, 10, 20, 40 or 60; the screen-off instant is set exactly while the screen is off; after a batch in which the timer was handled outside a shutdown, and after which the loop still runs, no deadline has passed |
| `EventLoop.ActionsExactly` | src/system/event_loop.rs:123-222 | Which actions an event asks for: at most one, and each exactly in its own case; cleaning is preempted exactly when the screen goes on while it runs |
| `EventLoop.FieldsExactly` | src/system/event_loop.rs:123-222 | Which events change each field of the schedule, and to what |
| `EventLoop.SuccessDoesNotDrift` | src/system/event_loop.rs:225-233 | Any number of maintenance runs that end in time keep the deadlines on their grid |
| `EventLoop.RetriesBackOff` | src/system/event_loop.rs:236-245 | Postponed again and again, the retries come after 5, 10, 20, 40 and then always 60 seconds |
| `EventLoop.HandledExactly` | src/system/event_loop.rs:559-660 | Due maintenance runs exactly if it should, nothing is being cleaned and the daemon goes on; it is postponed exactly if it does not run although the daemon goes on; the loop ends exactly on a shutdown signal |
| `EventLoop.LoopState.EarliestDeadline` | src/system/event_loop.rs:107-120 | The minimum of the active deadlines |
| `EventLoop.LoopState.Reduce` | src/system/event_loop.rs:123-222 | The reducer's new state and actions for every event |
| `EventLoop.LoopState.OnMaintenanceSuccess` | src/system/event_loop.rs:225-233 | Advances from the old deadline unless that lies in the past |
| `EventLoop.LoopState.OnMaintenancePostponed` | src/system/event_loop.rs:236-245 | Sets the retry and doubles the backoff up to 60 |
| `EventLoop.LoopState.Process` | src/system/event_loop.rs:559-660 | One event through the reducer and its actions through the driver |
| `EventLoop.LoopState.ProcessBatch` | src/system/event_loop.rs:559-660 | A batch of events, left at once on a shutdown signal |
| `EventLoop.LoopState.constructor` | src/system/event_loop.rs:93-103 | The first deadline is one interval away |
| `Idle.ThermalRemembers` | src/system/idle/state.rs:49-63 | Starting normal, after any readings: Hot exactly when a reading in [45, 50) was followed only by readings strictly between 40 and 50, Critical and Normal exactly by the last reading |
| `Idle.CriticalForgetsHot` | src/system/idle/state.rs:54-58 | A critical reading in between turns the same cooling into Warm |
| `Idle.Evaluate` | src/system/idle/policy.rs:12-211 | Both kinds of maintenance are allowed exactly under their conditions; Hot puts both on hold; the rate is zero exactly in Hot and Critical; every blocker and every favourable sign is reported exactly under its condition; the score is what the signs earn, at most 100 |
| `Idle.Gather` | src/system/idle/policy.rs:18-121 | The blockers, the favourable signs and the score from all signals |
| `Idle.ReportExplainsState` | src/system/idle/policy.rs:126-177 | Read off the report alone: active exactly with the screen, activity or a critical temperature among the blockers; candidate exactly with only the grace period keeping it; deep idle exactly when heavy maintenance is allowed, and then no blocker but a silent sensor; ordinary maintenance allowed exactly in the two resting states without heat, empty battery or pressure among the blockers |
| `Idle.Transition` | src/system/idle/policy.rs:126-146 | Active exactly when an obstacle of screen, activity or critical heat applies; candidate exactly when none does and the grace period remains; deep idle exactly when heavy maintenance may run |
| `Idle.Gates` | src/system/idle/policy.rs:148-177 | Both kinds of eligibility, exactly under their conditions |
| `Idle.ScreenSignals` | src/system/idle/policy.rs:22-40 | Screen and grace period |
| `Idle.PowerSignals` | src/system/idle/policy.rs:41-56 | Charger and battery |
| `Idle.PressureSignals` | src/system/idle/policy.rs:58-95 | CPU and I/O pressure, with a missing sensor counted as low |
| `Idle.BodySignals` | src/system/idle/policy.rs:97-121 | Temperature, thermal state, rest and activity |
| `Idle.QuietExactly` | src/system/idle/mod.rs:45-70 | With a known off report the screen counts as quiet exactly a grace period after it; without one only by the time that the context itself reports |
| `Idle.IdleManager.Update` | src/system/idle/mod.rs:42-70 | The full assessment of the context under the thermal state of all readings and the start of the current grace period; maintenance is allowed only a grace period after that start |
| `Idle.OffSinceMeaning` | src/system/idle/mod.rs:45-56 | Over any history the remembered instant is that of the first off report since the last on report, and there is none exactly when every off report was followed by an on report |
| `Idle.IdleManager.OnScreenStateChange` | src/system/idle/mod.rs:77-93 | Keeps the start of the grace period; the screen going on makes the state active |
| `Idle.IdleManager.OnThermalUpdate` | src/system/idle/mod.rs:95-102 | The thermal state is that of all readings |
| `Idle.IdleManager.OnUserActivity` | src/system/idle/mod.rs:104-107 | Makes the state active and keeps the rest |
| `Idle.IdleManager.TrackScreen` | src/system/idle/mod.rs:45-56 | The first off report starts the grace period, an on report ends it |
| `Idle.IdleManager.GetAssessment` | src/system/idle/mod.rs:73-75 | The full assessment without tracking anything |
| `Idle.IdleManager.constructor` | src/system/idle/mod.rs:30-39 | Starts active and normal |

## Left out

- Other writers on the disk between the stat and the unlink of one deletion, and between steps: the protocol does not defend against them beyond the identity check.
- ReconcileStartupCrashes: requires stored target identifiers that the store can reload, because a target identifier with a line break makes the reload panic (src/domain/types.rs:60-73, src/store/mod.rs:605).
- CrashThenRecover: is about recovery without faults and with the run's own catalog; with verification faults the "only if" half of the verdicts and the upper bound on the credit remain.
- RegisterJob: the job type, the generations and the time of the last update are not kept.
- ScanRecursive: requires file sizes within the 10 GiB bound, because the byte counter's constructor asserts it.
- ScanTarget: takes the permits that other threads hold as constant during one scan.
- ScanTargetStreaming: takes the permits that other threads hold as constant during one scan.
- AcquireFdPermit: does not model the wait of up to 500 ms for a permit; its outcome is taken from the state at its end.
- Acquire: is about a caller with nobody else at the bucket; with others only the window bound is promised.
- Process: takes the answers of the rest of the daemon (triggers, cleaning, shutdown, screen) as inputs.
- ProcessBatch: the epoll set, the timer descriptor and the reload of the configuration are not modelled.
- Identifier counters, reservations and timestamps do not wrap at 64 bits in the model.
- The plan identifier, the grant identifier, timestamps, durations, log lines and error texts.
- Sorting in place: the planner's two sorts are the insertion function `Planning.Sort`, proved ordered, a permutation and stable; the two planning loops are one loop over the arranged list.
- Recursive pruning, trimming and database vacuuming: the executor skips them, as in the source.
- Storage and mount locks: the same code as target locks on other keys.
- Repeated pipeline runs, the job queue, IPC, configuration parsing, catalog discovery, audit and shadow modes, sysfs and procfs readers, process control and the command line.
- Rounding of floating-point arithmetic.
