# Memoid: verified models of its protocols and canonical forms

Memoid keeps a reviewed, source-backed context for software projects. Its hard logic is in plpgsql functions and triggers (leases, frontiers, idempotency, immutable history) and in pure TypeScript domain code (ranking, hashing, canonical forms). This project models that logic in Dafny and proves what holds over every input, every run and every reachable state.

Run `dafny verify dfyconfig.toml` to verify everything.

## How the model is built

Each database component has a specification module: a datatype of its rows and one function per plpgsql function, which returns the new rows or the raised error. A step is one transaction; a run is any sequence of steps, by any callers, at any clock readings. Triggers and check constraints are predicates that are proved never to reject a reachable step, or proved to reject exactly when stated. A `Store` class then runs the statements of each function on mutable fields, with the source's loops, and is proved equal to the specification function; the theorems are lemmas about that function: invariants and properties of whole runs, and in the files named `*Laws.dfy` what each operation grants, refuses and writes, stated over the columns and not through the function's own helpers. TypeScript loops are methods over JavaScript's own number semantics or over a stated world of failures.

| files | component |
|---|---|
| `Ingestion*.dfy`, `ProcessingUnits.dfy`, `Frontiers.dfy` | observe, lease, record, complete, retry; the worker loop around them |
| `Operation*.dfy` | operation leases and their attempt ledger |
| `Idempotency*.dfy`, `Context*.dfy` | claims; records, chains and endings written under them |
| `Authority*.dfy` | the two resolvers and the versioned assignment history |
| `VersionSums.dfy`, `Reconciliation*.dfy`, `WorkingStamp.dfy`, `ReconcileLoop*.dfy`, `ReconcileLaws.dfy` | the optimistic commit on version sums, and the retry loop above it |
| `CandidateFrontier.dfy`, `CandidateStore.dfy` | the trigger-maintained watermark |
| `Words.dfy`, `ByteStrings.dfy`, `Fips180.dfy`, `JsNumbers.dfy`, `StableHash.dfy`, `HashConstants.dfy`, `HexDigest.dfy` | SHA-256 over ECMAScript numbers |
| `CanonicalForms.dfy`, `CanonicalTheorems.dfy`, `CanonicalIdempotence.dfy`, `Normalization.dfy`, `NormalLaws.dfy`, `ProposalIdentity.dfy` | normal forms and proposal identities |
| `GithubLifecycle.dfy`, `GithubStore.dfy`, `LifecycleLaws.dfy`, `Session*.dfy` | provider signals and sessions |

## What the code does not do

Where a natural property turned out false of the code, the model keeps the code and states when it does hold.

- A lease holder's renewal with an earlier expiry is refused by the attempt trigger (`Operations.RenewsExactlyWhen`).
- The SQL prefix test reads an underscore in a scope key as a wildcard, so the two resolvers can part (`AuthoritySql.PrefixTestsAgreeExactlyWhen`, `AuthorityAgreement.ResolversAgreeExactlyWhen`, `AuthoritySql.UnderscoreExample`). With several connected sources they also part on default-branch assignments of another source (`AuthoritySql.OtherSourceSplitsResolvers`).
- A job that ends before its next acquisition, or a recovery signal that the queue's throttle drops, can leave due work with no lease, retry time, signal or worker. It waits for the next scan: the one every five minutes, the one at start-up, a webhook or a redelivered job. A parked row waits for a scan as well (`IngestionRuntime.EventStrandsExactlyWhen`, `IngestionRuntime.WakeupsAreNeverLost`, `IngestionRuntime.ScanDrains`; reached in `IngestionStranding`).
- A commit refused as stale counts as a transport failure: every remaining attempt is spent on it, and the ledger row of each says it succeeded (`ReconcileLoopTheorems.StaleBasisSpendsEveryAttempt`).
- The working-context stamp is the newest write time of an identity's items. While another item still carries it, it misses a rewrite at a reading not later than the stamp and, at any reading, a move of an item to another identity (`WorkingStamp.UpdateMovesWorkingStamp`, `WorkingStamp.EqualReadingHidesAWrite`, `WorkingStamp.MovedItemHidesAWrite`); under later writes that move nothing it is sound (`WorkingStamp.StampIsSoundUnderLaterWrites`).
- Keys of one object that a locale collation compares as equal keep their order of arrival, so the hash depends on it (`Normalization.OrderIsForgottenExactlyWhenKeysCollateApart`).
- A disabled account is refused by the session function but not by the domain assessment, which is not given that fact (`SessionTheorems.VerdictsAgree`).
- A delivery id used again with another payload is refused over the connections of the first one, so which condition stands depends on the order (`GithubLifecycle.RefusedExactlyWhen`, `GithubLifecycle.OrdersAgreeExactlyWhen`). Receipts and updates are kept by project, so with two connections in one project a signal for one would degrade the other; connecting never makes two (`GithubLifecycle.DeliveryShowsExactlyWhen`, `GithubLifecycle.ProjectsHaveOneSource`).
- `is_sanitized_metadata` refuses the key `SECRET`, which the evidence extractor emits as a classification, so an extraction that finds one is rejected at completion; the summary carries this as a flag.
- The documentation speaks of recomputing the highest contiguous ingested sequence; the function sets the leased target after a count. `IngestionTheorems.CompletesExactlyWhen` and the invariant show that this is the same.

## Model

| member | source | states |
|---|---|---|
| IngestionRuns.Run | packages/db/src/migrations/007-stage10f-ingestion-evidence.ts:169-509 | every run of schedule, acquire, renew, record, complete and retry, by any callers at any clock readings, keeps: observations exactly 1..observed, dispositions exactly 1..ingested, processed equal to ingested, follow-up iff something newer is desired, coalesced rows covered, evidence keys unique and at most 2000 per observation |
| IngestionRuns.StepKeepsInv | packages/db/src/migrations/007-stage10f-ingestion-evidence.ts:169-509 | each of the six transactions keeps that invariant when it commits |
| IngestionRuns.ScheduleKeepsInv | packages/db/src/migrations/007-stage10f-ingestion-evidence.ts:169-272 | scheduling an observation keeps it: the first one creates the frontier and processing rows, a repeated one changes nothing |
| IngestionRuns.AcquireKeepsInv | packages/db/src/migrations/007-stage10f-ingestion-evidence.ts:274-322 | leasing the newest target keeps it |
| IngestionRuns.RecordKeepsInv | packages/db/src/migrations/007-stage10f-ingestion-evidence.ts:324-400 | recording evidence under a lease keeps it, redelivery and the limit of references included |
| IngestionRuns.CompleteKeepsInv | packages/db/src/migrations/007-stage10f-ingestion-evidence.ts:402-492 | completing the leased target keeps it: the skipped observations become coalesced rows that name their cover |
| IngestionTheorems.OnlyTheHolderActs | packages/db/src/migrations/007-stage10f-ingestion-evidence.ts:324-509 | a step that presents a lease token commits only if that token is the current one |
| IngestionTheorems.ReacquiredTokenIsDead | packages/db/src/migrations/007-stage10f-ingestion-evidence.ts:274-322 | after the unit is leased again an older token never records, renews, completes or retries, whatever happens in between |
| IngestionTheorems.SpentTokenIsDead | packages/db/src/migrations/007-stage10f-ingestion-evidence.ts:402-509 | a token that completed or retried never commits anything again |
| IngestionTheorems.FencedForever | packages/db/src/migrations/007-stage10f-ingestion-evidence.ts:169-509 | a token that is not current stays fenced through every run |
| IngestionTheorems.RunExtends | packages/db/src/migrations/007-stage10f-ingestion-evidence.ts:113-144 | no run rewrites history: observations, dispositions and settled evidence stay, and nothing is added below the ingested frontier |
| IngestionTheorems.Cover | packages/db/src/migrations/007-stage10f-ingestion-evidence.ts:442-461 | every disposed observation has a later or equal one that was really ingested or deleted, with only coalesced ones between, and a coalesced row names it |
| IngestionTheorems.SettledEvidenceIsIngested | packages/db/src/migrations/007-stage10f-ingestion-evidence.ts:438-461 | in every reachable state evidence at or below the ingested frontier belongs to an ingested observation, never to a coalesced or deleted one |
| IngestionTheorems.GuardsNeverReject | packages/db/src/migrations/007-stage10f-ingestion-evidence.ts:113-144 | in every reachable unit the checks and update guards of the processing and frontier rows, the coverage guard and the evidence-immutability guard reject no transaction that the functions let through, and the frontier row always passes the ordering of the domain code |
| IngestionTheorems.RowGuardNeverRejects | packages/db/src/migrations/003-stage10b-actor-audit-operation.ts:446-461 | the processing-unit update guard allows every reachable update |
| IngestionTheorems.CompletesExactlyWhen | packages/db/src/migrations/007-stage10f-ingestion-evidence.ts:402-492 | completion commits exactly for the holder of an unexpired lease on the target with an accepted summary and a fitting deletion mode; it never raises the gap error; it reports follow-up iff something newer was observed |
| IngestionTheorems.IdNamesOne | packages/db/src/migrations/007-stage10f-ingestion-evidence.ts:169-272 | an observation identifier names one sequence, so a lookup by identifier is unambiguous |
| IngestionTheorems.OnePassDrains | packages/db/src/migrations/007-stage10f-ingestion-evidence.ts:274-492 | a due, undisputed unit is drained by one acquisition and one completion, whatever number of observations it skips |
| IngestionLaws.GrantsExactlyWhen | packages/db/src/migrations/003-stage10b-actor-audit-operation.ts:871-905 | a lease is granted exactly when something newer than the processed sequence is desired, no other lease is live, no retry is waiting, the duration is valid and the connection active; otherwise nothing changes |
| IngestionLaws.GrantedTarget | packages/db/src/migrations/007-stage10f-ingestion-evidence.ts:274-322 | a granted target is the newest observation with its own identifier and revision, over the revision of the last ingested one or none, under a new token, for the caller and the time asked |
| IngestionLaws.LiveLeaseSurvives | packages/db/src/migrations/003-stage10b-actor-audit-operation.ts:871-976 | before a lease runs out nothing that others do, over any run, takes it or moves its owner, target or expiry |
| IngestionLaws.ScheduleMeans | packages/db/src/migrations/007-stage10f-ingestion-evidence.ts:169-272 | an active connection's sighting is the newest observation again, or a new one at the next sequence with exactly what was seen, and the lease stays as it was |
| IngestionLaws.RecordMeans | packages/db/src/migrations/007-stage10f-ingestion-evidence.ts:324-400 | recording succeeds exactly for the holder of a live lease on the reference's own observation and revision, with the same reference again or a new one within limit and shape; then the reference is there and every other row as it was |
| IngestionLaws.CompleteMeans | packages/db/src/migrations/007-stage10f-ingestion-evidence.ts:402-492 | the exact condition of completion, and its rows: every observation up to the target settled by kind, cover, worker and token, the references of the skipped ones gone and all others kept, the lease given back |
| IngestionLaws.RetryMeans | packages/db/src/migrations/003-stage10b-actor-audit-operation.ts:958-985 | retrying succeeds exactly for the holder of a live lease with a time to come, and leaves that time, the failure code and no lease |
| IngestionLaws.RenewMeans | packages/db/src/migrations/003-stage10b-actor-audit-operation.ts:908-927 | renewing succeeds exactly for the holder of a live lease and moves nothing but its expiry |
| IngestionStore.Store.Schedule | packages/db/src/migrations/007-stage10f-ingestion-evidence.ts:169-272 | the statements of the function, on the rows, have exactly the specified outcome and effect, errors leaving the rows alone |
| IngestionStore.Store.Acquire | packages/db/src/migrations/007-stage10f-ingestion-evidence.ts:274-322 | the same for leasing the newest target |
| IngestionStore.Store.Renew | packages/db/src/migrations/003-stage10b-actor-audit-operation.ts:908-927 | the same for renewing a processing-unit lease |
| IngestionStore.Store.Record | packages/db/src/migrations/007-stage10f-ingestion-evidence.ts:324-400 | the same for recording an evidence reference |
| IngestionStore.Store.Complete | packages/db/src/migrations/007-stage10f-ingestion-evidence.ts:402-492 | the same for completion with its four coupled updates |
| IngestionStore.Store.Settle | packages/db/src/migrations/007-stage10f-ingestion-evidence.ts:433-477 | the updates of completion once its checks have passed, including the late lease check that undoes them |
| IngestionStore.Store.DeleteCoalesced | packages/db/src/migrations/007-stage10f-ingestion-evidence.ts:438-441 | exactly the references of skipped observations are deleted, none of them settled |
| IngestionStore.Store.FrontierGap | packages/db/src/migrations/007-stage10f-ingestion-evidence.ts:462-471 | the counting test before the frontier moves never finds a gap |
| IngestionStore.Store.InsertDispositions | packages/db/src/migrations/007-stage10f-ingestion-evidence.ts:442-461 | the loop inserts one coalesced row per skipped observation and then the target's own row |
| IngestionStore.Store.Retry | packages/db/src/migrations/007-stage10f-ingestion-evidence.ts:494-509 | the same for giving a lease back with a retry time |
| IngestionRuntime.WakeupsAreNeverLost | apps/worker/src/runtime.ts:38-61 | over any interleaving of loops, leases, expiries, failures, crashes and signals: due work is without a lease, a retry time, a queued signal and a worker on its way to it exactly when one of five faults stranded it and no scan has come since (or it was so from the start) |
| IngestionRuntime.FaultlessRunsCoverWork | apps/worker/src/runtime.ts:38-61 | without the events that can strand work the guarantee is unconditional |
| IngestionRuntime.EventStrandsExactlyWhen | apps/worker/src/runtime.ts:38-61 | for each single event, exactly when it strands work: a job that ends before its next acquisition, or a follow-up signal that is dropped, while the work is due and unparked and no other signal or worker outside a lease is left |
| IngestionRuntime.AcquireStrands | apps/worker/src/runtime.ts:46-57 | a worker that gets no lease leaves work uncovered exactly when the acquisition raised and nothing else covers the work; when it is told that nothing is there, nothing is due or the row is parked |
| IngestionRuntime.CompleteStrands | apps/worker/src/runtime.ts:46-61 | a completion strands work exactly when it was the tenth, work is left, its signal is dropped, and nothing else covers the work |
| IngestionStranding.CrashBeforeAcquisitionStrandsWork | apps/worker/src/runtime.ts:38-48 | a run from the empty system in which a crash between observing and the first acquisition leaves due work to the next scan |
| IngestionStranding.DroppedSignalStrandsWork | packages/jobs/src/index.ts:94-111 | a run from the empty system, without faults up to there, in which the tenth completion's dropped signal leaves due work to the next scan |
| IngestionRuntime.ScanDrains | packages/jobs/src/index.ts:113-120 | whatever happened before, the first scan after the lease and the retry time of the ref have run out drains it in one undisturbed pass, parked rows included |
| IngestionRuntime.EventIsTransaction | apps/worker/src/runtime.ts:38-61 | every event of the concurrent workers is one transaction of the ingestion protocol on the unit, or none |
| IngestionPasses.PassIsEvents | packages/application/src/source-ingestion.ts:155-201 | a pass of the worker's code over an undisturbed store is a run of the concurrent system's events by that worker, with the same rows and the same place in the loop afterwards |
| IngestionWorker.ExecuteOne | packages/db/src/migrations/007-stage10f-ingestion-evidence.ts:169-509 | one call on the store is one step of the run specification |
| IngestionWorker.Execute | packages/db/src/migrations/007-stage10f-ingestion-evidence.ts:169-509 | a sequence of calls on the store leaves exactly the specified run |
| IngestionWorker.ProcessNext | packages/application/src/source-ingestion.ts:155-201 | one pass, with other transactions committed before each of its calls, returns and leaves exactly what the pass specification says |
| IngestionWorker.DonePassMeans | packages/application/src/source-ingestion.ts:155-201 | a pass that processed reports follow-up exactly when work is left; an idle pass changed nothing and leaves nothing due or a parked row |
| IngestionWorker.ThrownPassMeans | packages/application/src/source-ingestion.ts:155-201 | a pass that throws could not acquire and changed nothing, or it leaves a parked row or a lease that someone else has taken over or finished; if nobody else commits under its lease the row is parked |
| IngestionWorker.FailedExtractionParks | packages/application/src/source-ingestion.ts:181-196 | a failed extraction whose retry commits leaves exactly the retry time a minute on; one whose retry is refused leaves the rows as they were |
| IngestionSuccess.CalmPassDrains | packages/application/src/source-ingestion.ts:155-201 | an undisturbed pass over due work, inside its lease and with an active connection, succeeds and leaves nothing to do: for a deleted ref whatever the provider would say, for another one when it answers about the target over the last ingested revision with references that can be recorded and an accepted summary; then each reference is on record |
| IngestionSuccess.CalmFailureWaits | packages/application/src/source-ingestion.ts:181-196 | an undisturbed pass whose extraction fails gives its lease back, and the ref waits for a minute under the failure's code |
| IngestionSuccess.CalmDriveDrains | apps/worker/src/runtime.ts:38-61 | driving a ref undisturbed leaves the sighting as the newest observation and everything observed ingested, in one pass at most and without a signal |
| IngestionWorker.RecordAndComplete | packages/application/src/source-ingestion.ts:197-200 | recording the references one by one and completing has exactly the specified outcome, stopping at the first rejection |
| IngestionWorker.DriveRef | apps/worker/src/runtime.ts:38-61 | observing a ref and looping has exactly the specified outcome: at most ten passes, a signal only after the tenth with work left, otherwise nothing due or a parked row; when a pass throws under a lease the row is parked or the lease was taken over |
| Frontiers.CheckSourceFrontier | packages/domain/src/frontiers.ts:10-24 | the loop accepts a frontier exactly when reconciled <= ingested <= desired <= observed with no stage skipped, and otherwise reports exactly the first fault it meets: a skipped stage or one out of order |
| Operations.RunKeepsInv | packages/db/src/migrations/003-stage10b-actor-audit-operation.ts:556-734 | in every run attempts are exactly 1..attempt_count within the maximum, and one is unfinished, with the operation's own token and expiry, exactly while the operation is running or being cancelled |
| Operations.StepKeepsInv | packages/db/src/migrations/003-stage10b-actor-audit-operation.ts:556-734 | each function keeps that |
| Operations.CreateInv | packages/db/src/migrations/003-stage10b-actor-audit-operation.ts:54-131 | a new operation satisfies it |
| Operations.GuardsNeverReject | packages/db/src/migrations/003-stage10b-actor-audit-operation.ts:342-384 | no reachable step trips the operation trigger or its constraints, and every change it makes to an attempt is one the attempt trigger allows |
| Operations.RenewsExactlyWhen | packages/db/src/migrations/003-stage10b-actor-audit-operation.ts:368-379 | a renewal by the holder commits exactly when it does not shorten the lease; otherwise the attempt trigger refuses it |
| Operations.ShortRenewalIsRefused | packages/db/src/migrations/003-stage10b-actor-audit-operation.ts:632-655 | a one-second renewal of an hour's lease, by its holder, is refused |
| Operations.RunKeepsHistory | packages/db/src/migrations/003-stage10b-actor-audit-operation.ts:368-384 | over any run attempts are never lost, closed ones never change, open ones only lengthen their lease or close |
| Operations.StepSpendsBudget | packages/db/src/migrations/003-stage10b-actor-audit-operation.ts:556-734 | every change but a renewal spends one of a bounded number |
| Operations.ChangesWithinBudget | packages/db/src/migrations/003-stage10b-actor-audit-operation.ts:556-734 | the changes of a run never exceed what the starting state allows |
| Operations.OperationsSettle | packages/db/src/migrations/003-stage10b-actor-audit-operation.ts:556-734 | an operation changes at most 2*max_attempts+1 times, renewals apart, and is terminal when it has |
| Operations.TerminalIsFinal | packages/db/src/migrations/003-stage10b-actor-audit-operation.ts:342-364 | a terminal operation is unchanged by every run |
| Operations.FencedForever | packages/db/src/migrations/003-stage10b-actor-audit-operation.ts:632-706 | a token that is no longer current never renews or finishes anything again |
| OperationLaws.GrantsExactlyWhen | packages/db/src/migrations/003-stage10b-actor-audit-operation.ts:556-629 | a lease is granted exactly when the operation has not begun, its retry is due or its lease has run out, and an attempt is left; what is granted, what closes, and that every other call changes nothing |
| OperationLaws.LiveLeaseSurvives | packages/db/src/migrations/003-stage10b-actor-audit-operation.ts:556-733 | before a lease runs out nothing that others do, over any run, takes it or starts another attempt |
| OperationLaws.WaitingRetryStays | packages/db/src/migrations/003-stage10b-actor-audit-operation.ts:556-629 | before its time nothing but a cancellation changes a waiting operation, over any run |
| OperationLaws.RenewMeans | packages/db/src/migrations/003-stage10b-actor-audit-operation.ts:632-655 | renewing succeeds exactly for the holder of a live lease who does not shorten it, and moves the two expiries |
| OperationLaws.FinishMeans | packages/db/src/migrations/003-stage10b-actor-audit-operation.ts:658-706 | finishing succeeds exactly for the holder of a live lease, who cancels if and only if that was asked for; the state, outcome, times and failure code of each resolution |
| OperationLaws.CancellationMeans | packages/db/src/migrations/003-stage10b-actor-audit-operation.ts:709-733 | a request stops an operation without a lease at once, and only asks the holder of one |
| OperationStore.Store.CloseAttempt | packages/db/src/migrations/003-stage10b-actor-audit-operation.ts:658-706 | closing the current attempt changes only it, and the attempt trigger allows it |
| OperationStore.Store.UpdateOperation | packages/db/src/migrations/003-stage10b-actor-audit-operation.ts:342-364 | the operation row changes only through its trigger and constraints |
| OperationStore.Store.Acquire | packages/db/src/migrations/003-stage10b-actor-audit-operation.ts:556-629 | the statements have exactly the specified outcome and effect, expiry of the previous attempt included |
| OperationStore.Store.Renew | packages/db/src/migrations/003-stage10b-actor-audit-operation.ts:632-655 | the same for renewal, the attempt trigger's refusal included |
| OperationStore.Store.Finish | packages/db/src/migrations/003-stage10b-actor-audit-operation.ts:658-706 | the same for success, retry, failure and confirmed cancellation |
| OperationStore.Store.RequestCancellation | packages/db/src/migrations/003-stage10b-actor-audit-operation.ts:709-733 | the same for requesting cancellation |
| Authority.EqualDepthPrefixesAreEqual | packages/domain/src/source-authority.ts:144-166 | two path prefixes of one path with equally many segments are the same prefix |
| Authority.EqualRankMeansSameScope | packages/domain/src/source-authority.ts:144-166 | two assignments that apply to one target with equal rank have the same scope |
| Authority.ResolveMeans | packages/domain/src/source-authority.ts:168-193 | resolution answers with an assignment only if it is a best applicable one, is missing exactly when none applies, and is ambiguous exactly when two different ids are best |
| Authority.NeverAmbiguous | packages/domain/src/source-authority.ts:168-193 | with unique scopes resolution is never ambiguous, the winner is the one best assignment and strictly outranks every other applicable one |
| Authority.OrderIsIrrelevant | packages/domain/src/source-authority.ts:168-193 | the answer does not depend on the order of the assignments |
| Authority.LessSpecificIsIrrelevant | packages/domain/src/source-authority.ts:168-193 | adding an assignment that does not apply or is outranked changes nothing |
| Authority.DegradingNeverFallsBack | packages/domain/src/source-authority.ts:168-193 | an assignment whose source degrades is still the answer: there is no fallback to a broader one |
| AuthorityLaws.WinnerByName | packages/domain/src/source-authority.ts:144-193 | the answer is the assignment that governs the target and precedes every other that does: a named ref before the default branch before any ref, then a path before the project, then the longer path |
| AuthoritySql.LikePrefixMeans | packages/db/src/migrations/010-audit1a-integrity-corrections.ts:108 | the LIKE test on a scope key followed by a slash and a percent sign holds exactly when the path matches the key and the slash, an underscore matching any character |
| AuthoritySql.PrefixTestsAgreeExactlyWhen | packages/db/src/migrations/010-audit1a-integrity-corrections.ts:108 | database and domain prefix tests agree on every path exactly for keys without an underscore |
| AuthoritySql.ResolversAgree | packages/db/src/migrations/010-audit1a-integrity-corrections.ts:76-131 | for evidence of a connected source the database query gives the winner or verdict of the domain resolver, when every assigned source is connected, no path key has an underscore, and a default-branch assignment of another source does not meet the default ref |
| AuthoritySql.OtherSourceSplitsResolvers | packages/db/src/migrations/010-audit1a-integrity-corrections.ts:111-113 | with two connected sources a default-branch assignment of the other source applies in the domain and not in the database |
| AuthorityAgreement.ResolversAgreeExactlyWhen | packages/db/src/migrations/010-audit1a-integrity-corrections.ts:76-131 | with one connected source the two resolvers agree on every category, path and ref exactly when each path key with an underscore belongs to a default-branch assignment that an exact-ref assignment for the default ref covers |
| AuthorityAgreement.WildSplits | packages/db/src/migrations/010-audit1a-integrity-corrections.ts:106-109 | for any other key with an underscore, a path and ref on which the database ranks its assignment first and the domain does not apply it |
| AuthoritySql.UnderscoreSplitsResolvers | packages/db/src/migrations/010-audit1a-integrity-corrections.ts:76-131 | whenever one current key matches another only through an underscore, at equal depth, the domain answers and the database reports ambiguity |
| AuthoritySql.UnderscoreExample | packages/db/src/migrations/010-audit1a-integrity-corrections.ts:106-108 | the smallest such pair, worked out: a_b and aXb below aXb/c |
| AuthorityHistory.RunKeepsInv | packages/db/src/migrations/008-stage10g-source-authority.ts:332-369 | every run of sets and revokes keeps the history well formed |
| AuthorityHistory.AssignedKeepsInv | packages/db/src/migrations/008-stage10g-source-authority.ts:332-369 | a set appends one assignment at the next version and ends the one it replaces |
| AuthorityHistory.RevokedKeepsInv | packages/db/src/migrations/008-stage10g-source-authority.ts:449-465 | a revoke ends the current assignment at the next version and leaves none |
| AuthorityHistoryTheorems.SetPassesGuards | packages/db/src/migrations/008-stage10g-source-authority.ts:179-196 | a set never trips the scope trigger or the unique and version constraints of assignments and endings |
| AuthorityHistoryTheorems.RevokePassesGuards | packages/db/src/migrations/008-stage10g-source-authority.ts:179-196 | nor does a revoke |
| AuthorityHistoryTheorems.VersionsAreTakenOnce | packages/db/src/migrations/008-stage10g-source-authority.ts:332-369 | each version of a scope from one to the present was taken by exactly one set or one revoke, and no other version was |
| AuthorityHistoryTheorems.EndedExactlyWhenNotCurrent | packages/db/src/migrations/008-stage10g-source-authority.ts:358-369 | an assignment has an ending, and only one, exactly when it is not current |
| AuthorityHistoryTheorems.SupersessionIsMutual | packages/db/src/migrations/008-stage10g-source-authority.ts:347-367 | superseding links and superseded endings are the same pairs |
| AuthorityHistoryTheorems.RunBalances | packages/db/src/migrations/008-stage10g-source-authority.ts:332-465 | over every run the assignments of a scope minus its endings are one while it has a current assignment and zero otherwise |
| AuthorityHistoryTheorems.StaleRequestsLose | packages/db/src/migrations/008-stage10g-source-authority.ts:337-346 | a version is spent by the first request that names it: no later set or revoke with that version, or an older one, succeeds |
| AuthorityLaws.SetMeans | packages/db/src/migrations/008-stage10g-source-authority.ts:332-369 | a set succeeds exactly for a well-formed scope at its present version; its source is then the current one at the next version, and no other scope has changed |
| AuthorityLaws.RevokeMeans | packages/db/src/migrations/008-stage10g-source-authority.ts:449-465 | a revoke succeeds exactly for a scope with a current assignment at its present version, and leaves it without one |
| AuthorityHistoryTheorems.ReachableHistoriesAreUnambiguous | packages/db/src/migrations/008-stage10g-source-authority.ts:22-52 | in every reachable history, in whatever condition its sources are, resolution over the current assignments has one answer or none, never a tie |
| AuthorityStore.Store.UpdateScope | packages/db/src/migrations/008-stage10g-source-authority.ts:179-196 | a scope row changes only through its trigger, which has nothing to reject |
| AuthorityStore.Store.Set | packages/db/src/migrations/008-stage10g-source-authority.ts:332-369 | the statements of a set have exactly the specified outcome and effect |
| AuthorityStore.Store.Revoke | packages/db/src/migrations/008-stage10g-source-authority.ts:449-465 | the same for a revoke |
| Idempotency.RunKeepsInv | packages/db/src/migrations/005-stage10d-workspace-project.ts:146-260 | every run of claims and finishes keeps unique keys, unique live tokens, and the row constraints on scope, claim, attempts, retry time and result |
| IdempotencyTheorems.ClaimsPassGuards | packages/db/src/migrations/005-stage10d-workspace-project.ts:101-143 | a granted claim inserts a row under a new key, with a project unless it creates one, or updates a row as the trigger allows, and the row passes the constraints on scope, claim, attempts, retry time and result; any other outcome changes nothing |
| IdempotencyTheorems.FinishesPassGuards | packages/db/src/migrations/005-stage10d-workspace-project.ts:119-143 | a finish changes one row, as the trigger and the constraints on scope, claim, attempts, retry time and result allow |
| IdempotencyTheorems.CompletedReplaysForever | packages/db/src/migrations/005-stage10d-workspace-project.ts:183-190 | after completion every claim with the same fingerprint replays the result and every other one conflicts, in every later state, changing nothing |
| IdempotencyTheorems.TokensDie | packages/db/src/migrations/005-stage10d-workspace-project.ts:203-242 | finishing a claim or claiming its record again kills its token |
| IdempotencyTheorems.DeadForever | packages/db/src/migrations/005-stage10d-workspace-project.ts:229-232 | a dead token never finishes anything again |
| IdempotencyTheorems.AttemptsCountGrants | packages/db/src/migrations/005-stage10d-workspace-project.ts:203-208 | the attempt count of a record is the number of claims granted on its key |
| IdempotencyTheorems.CompletesAtMostOnce | packages/db/src/migrations/005-stage10d-workspace-project.ts:229-242 | over any run a record is completed at most once, and exactly once iff it goes from open to completed |
| IdempotencyLaws.ClaimMeans | packages/db/src/migrations/005-stage10d-workspace-project.ts:178-211 | what a claim on a known key answers in each state: a live claim and a waiting retry are busy, and only one that ran out or fell due is granted again |
| IdempotencyLaws.FirstClaimMeans | packages/db/src/migrations/005-stage10d-workspace-project.ts:160-177 | a new key is claimed at once, and only the creation of a project without naming one |
| IdempotencyLaws.LiveClaimSurvives | packages/db/src/migrations/005-stage10d-workspace-project.ts:178-242 | before a claim runs out nothing that others do, over any run, changes its row |
| IdempotencyLaws.FinishMeans | packages/db/src/migrations/005-stage10d-workspace-project.ts:213-260 | finishing succeeds exactly for the holder of a live claim with a complete resolution, and closes that row alone as it says |
| IdempotencyStore.Store.Claim | packages/db/src/migrations/005-stage10d-workspace-project.ts:146-210 | the statements of a claim have exactly the specified outcome and effect |
| IdempotencyStore.Store.Finish | packages/db/src/migrations/005-stage10d-workspace-project.ts:213-260 | the same for a finish |
| ContextRuns.PutMeans | packages/db/src/migrations/010-audit1a-integrity-corrections.ts:241-353 | exactly what a put does: replay, conflict, the first failing check, a missed claim deadline, or one new record; nothing else happens and nobody is ever found at work on the key |
| ContextRuns.EndMeans | packages/db/src/migrations/009-stage10h-context-records-provenance.ts:437-499 | the same for ending an identity |
| ContextRuns.ClaimOutcomes | packages/db/src/migrations/010-audit1a-integrity-corrections.ts:241-256 | since claim and completion commit together, a claim is new, a replay or a conflict, never in progress |
| ContextRuns.FinishesInTime | packages/db/src/migrations/010-audit1a-integrity-corrections.ts:241-352 | a fresh claim completes exactly when its sixty seconds have not run out at the second reading of the clock |
| ContextLaws.PlaceMeans | packages/db/src/migrations/010-audit1a-integrity-corrections.ts:257-282 | a put is placed exactly when its caller knows the present version and current record of the identity, or that there is none; the first difference names the error |
| ContextLaws.PutWrites | packages/db/src/migrations/010-audit1a-integrity-corrections.ts:276-353 | a put that wrote leaves its record at the next version over the expected current one, the identity and its pointer there, its claim completed with it, and everything else as it was |
| ContextRuns.RunKeepsInv | packages/db/src/migrations/010-audit1a-integrity-corrections.ts:206-354 | every run of puts and endings keeps chains, versions, current pointers, endings and claims consistent |
| ContextTheorems.PutPassesConstraints | packages/db/src/migrations/009-stage10h-context-records-provenance.ts:19-52 | a put never trips the version, successor or first-record constraints, the identity trigger, or the key of the current pointer |
| ContextTheorems.EndPassesConstraints | packages/db/src/migrations/009-stage10h-context-records-provenance.ts:148-163 | an ending never trips its unique key, its version check or the identity trigger |
| ContextTheorems.RecordsMatchPuts | packages/db/src/migrations/010-audit1a-integrity-corrections.ts:310-352 | in every reachable state records and completed put claims correspond one to one |
| ContextTheorems.EndingsMatchEnds | packages/db/src/migrations/009-stage10h-context-records-provenance.ts:482-497 | endings and completed end claims correspond one to one, and so do endings and ended identities |
| ContextTheorems.RunBalances | packages/db/src/migrations/010-audit1a-integrity-corrections.ts:206-354 | over any run the new claims are exactly as many as the new records and endings |
| ContextTheorems.PutReplaysForever | packages/db/src/migrations/010-audit1a-integrity-corrections.ts:244-256 | a put that succeeded is answered with its original identity, record and versions in every later state, and the same key with another fingerprint is refused; neither changes anything |
| ContextTheorems.PutSpendsVersion | packages/db/src/migrations/010-audit1a-integrity-corrections.ts:257-279 | a write advances its identity from exactly the expected version, makes its record current, and numbers it like the identity |
| ContextTheorems.StaleWritersLose | packages/db/src/migrations/010-audit1a-integrity-corrections.ts:260-279 | no later write with the same or an older expected version succeeds: no update is lost |
| ContextTheorems.EndedStaysEnded | packages/db/src/migrations/009-stage10h-context-records-provenance.ts:471-488 | an ended identity is frozen: no further record, no second ending |
| ContextHistory.OlderCountsDown | packages/adapters/src/reconciliation.ts:262-277 | each step of the recursive query goes back exactly one version of the same identity, so the chain has no branch, gap or cycle |
| ContextHistory.HistoryIsEverythingElse | packages/adapters/src/reconciliation.ts:262-277 | the recursive history of the current record is exactly every other record of its identity, each once |
| ContextHistory.VersionsAreConsecutive | packages/adapters/src/reconciliation.ts:262-277 | an identity has a record at exactly the versions from one to its tip |
| ContextHistory.KnownHistorical | packages/adapters/src/reconciliation.ts:260-286 | the query answers true exactly when a record that is no longer current has the candidate's hash, and terminates |
| ContextStore.Store.Put | packages/db/src/migrations/010-audit1a-integrity-corrections.ts:206-354 | the transaction has exactly the specified outcome; an exception undoes the claim and every row |
| ContextStore.Store.RunPut | packages/db/src/migrations/010-audit1a-integrity-corrections.ts:241-256 | the claim and the ways out of it |
| ContextStore.Store.WriteRecord | packages/db/src/migrations/010-audit1a-integrity-corrections.ts:257-353 | the statements of a fresh put up to the finished claim |
| ContextStore.Store.End | packages/db/src/migrations/009-stage10h-context-records-provenance.ts:437-499 | the same for ending an identity, as one transaction |
| ContextStore.Store.RunEnd | packages/db/src/migrations/009-stage10h-context-records-provenance.ts:458-470 | its claim and the ways out of it |
| ContextStore.Store.CloseIdentity | packages/db/src/migrations/009-stage10h-context-records-provenance.ts:471-498 | its statements up to the finished claim |
| VersionSums.SumsPinCounters | packages/db/src/migrations/012-stage10j-hybrid-reconciliation.ts:201-224 | two sums of counters that only grow, over rows only added with a positive count, are equal exactly when every counter is and no row was added |
| ReconciliationTheorems.AuthoritySumIsSound | packages/db/src/migrations/012-stage10j-hybrid-reconciliation.ts:201-202 | the authority sum is unchanged exactly when no scope was set, revoked or added |
| ReconciliationTheorems.FrontierSumIsSound | packages/db/src/migrations/012-stage10j-hybrid-reconciliation.ts:203-206 | the frontier sum is unchanged only when no ref was observed, ingested or added, so observations, dispositions and settled evidence are the same |
| ReconciliationTheorems.CommitSeesItsBasis | packages/db/src/migrations/012-stage10j-hybrid-reconciliation.ts:197-224 | a result that commits, whatever ran since its material was loaded, commits on the very scopes, frontiers, identity and current record the material came from |
| ReconciliationLaws.CommitSeesItsIntegrity | packages/db/src/migrations/012-stage10j-hybrid-reconciliation.ts:207-223 | whatever ran since the material was loaded, a result that commits meets the integrity number it was loaded with |
| ReconciliationLaws.CommitsExactlyWhen | packages/db/src/migrations/012-stage10j-hybrid-reconciliation.ts:177-224 | a result without a record on its basis commits exactly when it is well formed and every stamp has its present value; otherwise the first stamp that differs names the error |
| ReconciliationLaws.CommittedRows | packages/db/src/migrations/012-stage10j-hybrid-reconciliation.ts:225-234 | what a commit leaves: its record, the candidate's item with identity, assertion and time unless nothing changed, the candidate's pointer, and nothing else |
| ReconciliationTheorems.RunGrows | packages/db/src/migrations/012-stage10j-hybrid-reconciliation.ts:171-235 | every run of the authority, ingestion, context and commit protocols only extends what a basis stamps |
| ReconciliationTheorems.StepKeepsInv | packages/db/src/migrations/012-stage10j-hybrid-reconciliation.ts:171-235 | every step of that combined system keeps all four invariants and one record per candidate and basis |
| ReconciliationTheorems.CommitRecords | packages/db/src/migrations/012-stage10j-hybrid-reconciliation.ts:195-234 | a result that commits is on record under its candidate and basis, and a replay changes nothing |
| ReconciliationTheorems.RecordsReplayForever | packages/db/src/migrations/012-stage10j-hybrid-reconciliation.ts:195-196 | a recorded basis is answered with its record in every later state |
| ReconciliationTheorems.CurrentPointerMoves | packages/db/src/migrations/012-stage10j-hybrid-reconciliation.ts:124-131 | the current pointer of a candidate always moves to its newest record, so its trigger never rejects |
| WorkingStamp.InsertMovesWorkingStamp | packages/db/src/migrations/012-stage10j-hybrid-reconciliation.ts:217-228 | exactly when an inserted working item moves the working stamp of an identity |
| WorkingStamp.UpdateMovesWorkingStamp | packages/db/src/migrations/012-stage10j-hybrid-reconciliation.ts:217-227 | exactly when rewriting a working item, as a commit does, moves the stamp of an identity with items: it is later than all of them, or it was the only one to carry the stamp and carries it no more |
| WorkingStamp.UpdateGivesFirstItem | packages/db/src/migrations/012-stage10j-hybrid-reconciliation.ts:217-227 | the same for an identity without items |
| WorkingStamp.StampStandsExactlyWhen | packages/db/src/migrations/012-stage10j-hybrid-reconciliation.ts:217-224 | whatever was written, the stamp stands exactly when some item of the identity still carries it and none is later |
| WorkingStamp.StampIsSoundUnderLaterWrites | packages/db/src/migrations/012-stage10j-hybrid-reconciliation.ts:217-228 | over any run whose writes of the identity come after the stamp and move no item away from it, the stamp stands exactly when the identity's items are untouched |
| WorkingStamp.CommitSeesItsItems | packages/db/src/migrations/012-stage10j-hybrid-reconciliation.ts:217-228 | so a result that commits after such a run sees the very working items its material was loaded from |
| WorkingStamp.EqualReadingHidesAWrite | packages/db/src/migrations/012-stage10j-hybrid-reconciliation.ts:217-228 | a commit that rewrites another candidate's item at the clock reading of the stamp goes unnoticed: the first candidate's result commits over the changed items |
| WorkingStamp.MovedItemHidesAWrite | packages/db/src/migrations/012-stage10j-hybrid-reconciliation.ts:217-228 | so does a commit, at any later reading, that moves another candidate's item to another identity |
| WorkingStamp.TwoItemsAreReached | packages/db/src/migrations/012-stage10j-hybrid-reconciliation.ts:171-235 | such worlds are reached from the empty one |
| ReconciliationStore.Store.AuthorityVersion | packages/db/src/migrations/012-stage10j-hybrid-reconciliation.ts:201-202 | the sum of scope versions, by a loop |
| ReconciliationStore.Store.FrontierVersion | packages/db/src/migrations/012-stage10j-hybrid-reconciliation.ts:203-206 | the sum of the frontier components, by a loop |
| ReconciliationStore.Store.WorkingVersion | packages/db/src/migrations/012-stage10j-hybrid-reconciliation.ts:217-220 | the newest time among an identity's working items, zero without any |
| ReconciliationStore.Store.CheckBasis | packages/db/src/migrations/012-stage10j-hybrid-reconciliation.ts:197-224 | the staleness checks, in their order |
| ReconciliationStore.Store.Commit | packages/db/src/migrations/012-stage10j-hybrid-reconciliation.ts:171-235 | the statements have exactly the specified outcome and effect |
| ReconcileLoop.ValidatedIsInScope | packages/domain/src/reconciliation.ts:243-312 | a validated model output has the expected identity, only allowed evidence, and flags and assertion that fit its class |
| ReconcileLoop.ModelsAreAskedOnlyWhenNeeded | packages/domain/src/reconciliation.ts:191-230 | exactly when no deterministic rule answers; the answers are in scope and never change or obsolete a record; a rule whose answer carries the assertion refuses a candidate that cannot be normalised |
| ReconcileLaws.RulesMean | packages/domain/src/reconciliation.ts:191-230 | the exact condition of each class that a rule can give, that at most one holds, and what identity, evidence, flags and assertion the answer carries |
| ReconcileLaws.RuledAnswerIsRecorded | packages/application/src/reconciliation.ts:156-190 | a deterministic answer that reaches the repository goes on record as its rule says, with no model asked |
| ReconcileLaws.ValidateMeans | packages/domain/src/reconciliation.ts:243-312 | exactly which model outputs are accepted, and the result made of each |
| ReconcileLaws.FailuresMean | packages/application/src/reconciliation.ts:222-325 | which failures are tried again: a throwing call or cost calculation and what the provider calls retryable; a refusal, a malformed usage and an invalid output are final |
| ReconcileLaws.AttemptMeans | packages/application/src/reconciliation.ts:222-325 | an attempt succeeds exactly when its validated result is recorded and the commit's reply arrives, and then reports the result on record; otherwise its failure and what is on record |
| ReconcileLaws.VerdictsFollowAnswers | packages/application/src/reconciliation.ts:222-325 | over a run each attempt's verdict follows from its own invocation |
| ReconcileLaws.OnlyPermittedTargetsAreAsked | packages/application/src/reconciliation.ts:205-221 | only targets of the plan's privacy class and of a known provider are asked, and a run is misconfigured only over another |
| ReconcileLoop.Repository.RecordInvocation | packages/db/src/migrations/012-stage10j-hybrid-reconciliation.ts:146-165 | inserting a ledger row where none has its key, and nothing otherwise |
| ReconcileLoop.Repository.Commit | packages/adapters/src/reconciliation.ts:341-368 | a commit call keeps a record that is there, and reports the one on record when its reply arrives |
| ReconcileLoop.Repository.TryTarget | packages/application/src/reconciliation.ts:222-325 | one pass of the inner loop with its handler |
| ReconcileLoop.Repository.Reconcile | packages/application/src/reconciliation.ts:196-327 | the nested loops make exactly the specified run |
| ReconcileLoop.Repository.ReconcileCandidate | packages/application/src/reconciliation.ts:156-327 | the deterministic branch and the loop together |
| ReconcileLoopTheorems.RunIsBounded | packages/application/src/reconciliation.ts:196-327 | at most maxAttempts attempts per target, in route order; every attempt but the last failed retryably, so nothing is invoked after a success or a final failure; a retryable error is thrown only after the whole schedule |
| ReconcileLoopTheorems.RunRecordsAtMostOnce | packages/application/src/reconciliation.ts:196-327 | whatever replies get lost, a run records at most one result for its candidate and basis, in scope, never replaces one, and reports exactly the one on record |
| ReconcileLoopTheorems.ReconciledRecordsAtMostOnce | packages/application/src/reconciliation.ts:156-327 | the same for the whole call, and a deterministic answer invokes no model |
| ReconcileLoopTheorems.RunNumbersItsAttempts | packages/application/src/reconciliation.ts:222-324 | a run keeps the rows it finds and adds one row for each of its attempts that has none, numbered one to the last; only a lost failure record can miss |
| ReconcileLoopTheorems.RepeatedRunsShareNumbers | packages/db/src/migrations/012-stage10j-hybrid-reconciliation.ts:146-165 | a repeated run on the same basis and route shares the numbers of the earlier one: the rows together are one to the length of the longer run, and the earlier rows keep what they said |
| ReconcileLoopTheorems.RowsRecordAnswers | packages/application/src/reconciliation.ts:259-324 | a new row says succeeded exactly when a validated answer was recorded, whatever the commit did afterwards; a row that was there says what it said |
| ReconcileLoopTheorems.StaleBasisSpendsEveryAttempt | packages/application/src/reconciliation.ts:272-325 | with a stale basis the run spends every allowed attempt, commits nothing, and its ledger calls each of them succeeded |
| CandidateFrontier.ContiguousStableDispositionWatermark | packages/domain/src/frontiers.ts:41-52 | the loop returns the end of the unbroken run of stable sequences from one, among the accepted ones |
| CandidateFrontier.WatermarkIsUnique | packages/domain/src/frontiers.ts:41-52 | there is only one such watermark |
| CandidateFrontier.CountMeansNoGap | packages/db/src/migrations/002-stage10a-domain-schema.ts:502-520 | as many rows as the interval is wide means that none in it is missing |
| CandidateFrontier.AcceptMeans | packages/db/src/migrations/002-stage10a-domain-schema.ts:528-547 | accepting succeeds exactly for the next sequence and never trips a guard |
| CandidateFrontier.RefreshFindsWatermark | packages/db/src/migrations/002-stage10a-domain-schema.ts:549-579 | the incremental refresh lands exactly on the watermark and its counting guard never rejects it |
| CandidateFrontier.DisposeMeans | packages/db/src/migrations/002-stage10a-domain-schema.ts:549-589 | a disposition is accepted exactly for an accepted sequence without one, never trips a guard, and never moves the frontier back |
| CandidateFrontier.RunKeepsWatermark | packages/db/src/migrations/002-stage10a-domain-schema.ts:491-589 | after any run, in any order, the maintained frontier is the watermark of what was accepted and disposed |
| CandidateFrontier.OrderDoesNotMatter | packages/db/src/migrations/002-stage10a-domain-schema.ts:491-589 | histories with the same submissions and dispositions end in the same state |
| CandidateStore.Store.UpdateFrontier | packages/db/src/migrations/002-stage10a-domain-schema.ts:491-526 | the update trigger has nothing to reject |
| CandidateStore.Store.Accept | packages/db/src/migrations/002-stage10a-domain-schema.ts:528-547 | inserting a submission and its trigger have exactly the specified effect |
| CandidateStore.Store.QueryFirstUnstable | packages/db/src/migrations/002-stage10a-domain-schema.ts:563-572 | the query for the first accepted sequence without a disposition, as a loop |
| CandidateStore.Store.Dispose | packages/db/src/migrations/002-stage10a-domain-schema.ts:549-589 | inserting a disposition and its trigger have exactly the specified effect |
| HexDigest.StableAssertionHash | packages/domain/src/reconciliation.ts:127-189 | the hash of the encoded assertion is the hexadecimal SHA-256 of its bytes, for every byte string whose bit length is a safe integer |
| StableHash.HashWords | packages/domain/src/reconciliation.ts:128-187 | the padded block loop computes the SHA-256 of sections 5.1.1 and 6.2.2 of FIPS 180-4 |
| StableHash.PadInput | packages/domain/src/reconciliation.ts:128-136 | the byte array holds exactly the padded message of section 5.1.1 |
| StableHash.SetUint32 | packages/domain/src/reconciliation.ts:135-136 | writing a big-endian field changes its four bytes and no other |
| StableHash.GetUint32 | packages/domain/src/reconciliation.ts:153-154 | reading a big-endian field gives the word of the block |
| StableHash.ExpandSchedule | packages/domain/src/reconciliation.ts:153-161 | the message schedule over signed intermediate values is that of section 6.2.2 |
| StableHash.Temporary1 | packages/domain/src/reconciliation.ts:164-166 | the first temporary of a round |
| StableHash.Temporary2 | packages/domain/src/reconciliation.ts:167-169 | the second temporary of a round |
| StableHash.RunRound | packages/domain/src/reconciliation.ts:163-178 | one iteration of the round loop is one round of section 6.2.2 |
| StableHash.AddWord | packages/domain/src/reconciliation.ts:179-186 | one addition at the end of a block, modulo 2^32 |
| StableHash.AddState | packages/domain/src/reconciliation.ts:179-186 | the eight additions at the end of a block |
| StableHash.CompressBlock | packages/domain/src/reconciliation.ts:162-186 | the sixty-four rounds and the final additions are the compression of the block |
| StableHash.ProcessBlock | packages/domain/src/reconciliation.ts:152-187 | one iteration of the block loop |
| StableHash.RotateMeans | packages/domain/src/reconciliation.ts:150 | the shift-and-or helper on signed results stands for the rotation of section 3.2 |
| StableHash.LowerSigma0Means | packages/domain/src/reconciliation.ts:158 | the first schedule expression stands for the function of section 4.1.2 |
| StableHash.LowerSigma1Means | packages/domain/src/reconciliation.ts:159 | the second schedule expression does too |
| StableHash.ThreeRotations | packages/domain/src/reconciliation.ts:164-167 | and so do the two sums of three rotations |
| StableHash.ChoiceMeans | packages/domain/src/reconciliation.ts:165 | the choice expression, with its complement, stands for Ch |
| StableHash.MajorityMeans | packages/domain/src/reconciliation.ts:168 | the majority expression stands for Maj |
| StableHash.ScheduleSum | packages/domain/src/reconciliation.ts:160 | the double additions of the schedule are exact and reduce to addition modulo 2^32 in the standard's order |
| StableHash.Temporary1Sum | packages/domain/src/reconciliation.ts:166 | so do the five-term additions of a round |
| Fips180.PadIsInjective | packages/domain/src/reconciliation.ts:128-136 | different messages have different paddings |
| Fips180.PadIsShortest | packages/domain/src/reconciliation.ts:130 | no shorter whole number of blocks has room for the message, the marker bit and the length |
| HashConstants.InitialValues | packages/domain/src/reconciliation.ts:137-139 | the initial state is the fractional part of the square roots of the first eight primes, as section 5.3.3 defines it |
| HashConstants.RoundConstants | packages/domain/src/reconciliation.ts:140-149 | the table is the fractional part of the cube roots of the first sixty-four primes, in order, as section 4.2.2 defines it |
| HexDigest.PadStartMeans | packages/domain/src/reconciliation.ts:188 | rendering and padding a word gives exactly its eight digits |
| HexDigest.DigestIsInjective | packages/domain/src/reconciliation.ts:188 | equal digests mean equal hash values |
| JsNumbers.PlusMeans | packages/domain/src/reconciliation.ts:160-178 | adding numbers as doubles stands for adding words modulo 2^32 while the sum is a safe integer |
| ByteStrings.BigEndianBits | packages/domain/src/reconciliation.ts:135-136 | a big-endian field holds exactly the bits of its word |
| ByteStrings.TwoWords | packages/domain/src/reconciliation.ts:135-136 | two such fields hold the sixty-four bits of the length |
| CanonicalTheorems.SortIsCanonical | packages/domain/src/reconciliation.ts:108-111 | sorting keys that collate apart forgets the order they came in |
| CanonicalTheorems.KeyOrderDoesNotMatter | packages/domain/src/reconciliation.ts:93-116 | values that differ only in the order of their keys share a canonical form or are refused alike |
| CanonicalIdempotence.CanonIsIdempotent | packages/domain/src/reconciliation.ts:93-116 | a canonical form is its own canonical form, keys that collate as equal included |
| CanonicalIdempotence.RebuildingSettles | packages/domain/src/reconciliation.ts:106-114 | sorting the entries of an object and rebuilding it settles after one round, index keys and ties included, because the sort is stable |
| CanonicalTheorems.CanonIsFaithful | packages/domain/src/change-proposal.ts:38-48 | under rules that rewrite nothing, equal canonical forms are exactly equal values up to key order |
| Normalization.NormalizeIsIdempotent | packages/domain/src/reconciliation.ts:118-125 | normalising an accepted assertion again is accepted and changes nothing, depth, size and byte limits included |
| Normalization.NormalizeIgnoresKeyOrder | packages/domain/src/reconciliation.ts:118-125 | assertions equal up to key order are both refused or share their normal form |
| Normalization.NormalFormsArePlain | packages/domain/src/reconciliation.ts:93-116 | a normal form has bounded strings and objects and only finite numbers, never minus zero |
| NormalLaws.ScalarFormMeans | packages/domain/src/reconciliation.ts:93-104 | the form of each scalar: text cleaned and bounded, minus zero as zero, other finite numbers as they are, and what is refused |
| NormalLaws.ArrayFormMeans | packages/domain/src/reconciliation.ts:105 | arrays keep length and order, and one refused item refuses the array |
| NormalLaws.ObjectFormMeans | packages/domain/src/reconciliation.ts:106-114 | objects keep exactly their fields, each with its value's form, index keys first and names in collation order; more than 128 are refused |
| NormalLaws.AssertionFormMeans | packages/domain/src/reconciliation.ts:118-125 | an assertion is accepted exactly when it is an object with a form of at most 65536 bytes, which is the answer |
| Normalization.OrderIsForgottenExactlyWhenKeysCollateApart | packages/domain/src/reconciliation.ts:108-110 | the order of two keys is forgotten exactly when the collation tells them apart |
| ProposalIdentity.SortedSetIsCanonical | packages/domain/src/change-proposal.ts:84 | the evidence list depends on the set of references alone, and determines it |
| ProposalIdentity.IdentityIsCanonical | packages/domain/src/change-proposal.ts:66-90 | two items share an identity exactly when they propose the same assertion up to key order, for the same identity, on the same basis, from the same set of evidence |
| GithubLifecycle.WorstMeans | packages/db/src/migrations/006-stage10e-github-source-provider-identity.ts:529-538 | the worst condition over a connection is that of some covering fence, and no covering fence is worse |
| GithubLifecycle.DeliveryShowsExactlyWhen | packages/db/src/migrations/006-stage10e-github-source-provider-identity.ts:496-538 | exactly when a new signal leaves every connection at its worst fence: no covered connection of a project that has a receipt of the delivery ranks below it, and no uncovered one of a project that it reaches and updates |
| GithubLifecycle.ProjectsHaveOneSource | packages/db/src/migrations/006-stage10e-github-source-provider-identity.ts:391-428 | over any run of deliveries and connections a project has at most one connection, because connecting inserts one only where there is none |
| GithubLifecycle.RefusedExactlyWhen | packages/db/src/migrations/006-stage10e-github-source-provider-identity.ts:476-520 | a signal is refused exactly when its delivery id is recorded with another payload for the same scope or over a connection it covers too; then not even its fence is left |
| GithubLifecycle.DeliveryKeepsInv | packages/db/src/migrations/006-stage10e-github-source-provider-identity.ts:476-554 | where one payload means one condition, a new signal that is not refused leaves every connection at the worst fence over it, whatever delivery id it carries |
| GithubLifecycle.RedeliveryIsSilent | packages/db/src/migrations/006-stage10e-github-source-provider-identity.ts:476-481 | a signal whose scope and delivery are known and whose payload is the recorded one is the recorded signal, and changes nothing |
| GithubLifecycle.ConnectKeepsInv | packages/db/src/migrations/006-stage10e-github-source-provider-identity.ts:372-411 | connecting succeeds only where no fence covers the repository, so it never hides a degraded condition |
| GithubLifecycle.SeverityNeverDecreases | packages/db/src/migrations/006-stage10e-github-source-provider-identity.ts:321-556 | over any run of deliveries and connections in which one payload means one condition, refused and reused deliveries included, every connection stays and its severity never decreases |
| GithubLifecycle.SignalsAreConfluent | packages/db/src/migrations/006-stage10e-github-source-provider-identity.ts:450-556 | where no delivery id is used for two payloads, runs that delivered the same signals, in any order and number, leave a connection to the same repository in the same condition, the worst one reported |
| LifecycleLaws.GravestReportShows | packages/db/src/migrations/006-stage10e-github-source-provider-identity.ts:529-538 | over any run in which one payload means one condition, a connection shows the gravest recorded report about its repository or installation, by name: installation deleted, repository deleted, access removed, suspended, to be verified; and is active exactly without any |
| LifecycleLaws.ConnectsExactlyWhen | packages/db/src/migrations/006-stage10e-github-source-provider-identity.ts:372-428 | connecting succeeds exactly when nothing was recorded about the repository or its installation and the project is not connected to another, and changes that connection alone |
| LifecycleLaws.AcceptedSignalIsRecorded | packages/db/src/migrations/006-stage10e-github-source-provider-identity.ts:476-520 | a new accepted signal leaves its fence, and a receipt under its payload for each connection it covers |
| GithubLifecycle.OrdersAgreeExactlyWhen | packages/db/src/migrations/006-stage10e-github-source-provider-identity.ts:476-538 | two signals over a connection end in one condition in both orders exactly unless they share a delivery id and report different conditions |
| GithubStore.Store.Visit | packages/db/src/migrations/006-stage10e-github-source-provider-identity.ts:513-538 | one pass of the loop over connections: the receipt, and an update by project |
| GithubStore.Store.VisitAll | packages/db/src/migrations/006-stage10e-github-source-provider-identity.ts:496-554 | the loop over connections, in any order, stops exactly at a conflicting receipt |
| GithubStore.Store.ApplySignal | packages/db/src/migrations/006-stage10e-github-source-provider-identity.ts:450-556 | the transaction has exactly the specified outcome; a conflicting receipt undoes it |
| GithubStore.Store.Connect | packages/db/src/migrations/006-stage10e-github-source-provider-identity.ts:372-428 | the checks and updates of connecting have exactly the specified outcome |
| SessionTheorems.VerdictsAgree | packages/domain/src/session.ts:44-62 | on every reachable session the domain verdict and the database verdict differ only for a disabled account, and agree on freshness and provider recheck |
| SessionTheorems.RefusedForever | packages/db/src/migrations/004-stage10c-identity-authz-rls.ts:281-288 | a token that was refused once is refused in every later state |
| SessionTheorems.OneLiveSessionPerChain | packages/db/src/migrations/004-stage10c-identity-authz-rls.ts:479-490 | in every state a run reaches, at most one session of a rotation chain is alive |
| SessionTheorems.RotationNeverExtends | packages/db/src/migrations/004-stage10c-identity-authz-rls.ts:477-490 | rotation never extends the absolute deadline of the first session |
| SessionTheorems.ChainsEndWithinADay | packages/db/src/migrations/004-stage10c-identity-authz-rls.ts:245-253 | no session of a chain authenticates later than a day after the chain began |
| SessionTheorems.StepKeepsTimeOrder | packages/db/src/migrations/004-stage10c-identity-authz-rls.ts:92-99 | with a clock not behind a row's creation every written row satisfies the time constraints |
| SessionTheorems.RunExtends | packages/db/src/migrations/004-stage10c-identity-authz-rls.ts:228-336 | over any run deadlines never move out and revocation is final |
| SessionLaws.AcceptedExactlyWhen | packages/db/src/migrations/004-stage10c-identity-authz-rls.ts:267-300 | a session is accepted exactly while it is not revoked, its account allows it at its epoch, and none of its three deadlines has come |
| SessionLaws.CreateMeans | packages/db/src/migrations/004-stage10c-identity-authz-rls.ts:228-265 | the exact condition of creating a session, and until when it is accepted, fresh and verified |
| SessionLaws.AcceptanceSlides | packages/db/src/migrations/004-stage10c-identity-authz-rls.ts:289-300 | an accepted request moves the idle deadline to an hour from then, and no other |
| SessionLaws.MarkMeans | packages/db/src/migrations/004-stage10c-identity-authz-rls.ts:302-318 | the provider's answer ends the session or bounds it, and puts off the next check by five minutes |
| SessionLaws.RevokeMeans | packages/db/src/migrations/004-stage10c-identity-authz-rls.ts:320-336 | a revoked session is refused at any time |
| SessionLaws.StepUpExactlyWhen | packages/db/src/migrations/004-stage10c-identity-authz-rls.ts:445-480 | a step-up succeeds exactly for a live session of the same subject with an open intent, on fresh evidence and unused tokens |
| SessionLaws.StepUpMeans | packages/db/src/migrations/004-stage10c-identity-authz-rls.ts:477-503 | then the old token is refused at any time, and the new one accepted for an hour, within the old absolute deadline and the new provider session, at the old epoch |
| Sessions.RunKeepsInv | packages/db/src/migrations/004-stage10c-identity-authz-rls.ts:228-490 | every run keeps idle deadlines within an hour of the last activity, unique tokens, and one live session per chain |
| SessionStore.Store.Insert | packages/db/src/migrations/004-stage10c-identity-authz-rls.ts:104-108 | inserting a session under the two unique keys |
| SessionStore.Store.Create | packages/db/src/migrations/004-stage10c-identity-authz-rls.ts:228-265 | creating a session has exactly the specified outcome |
| SessionStore.Store.Authenticate | packages/db/src/migrations/004-stage10c-identity-authz-rls.ts:267-300 | authenticating does, the revocation of a refused row included |
| SessionStore.Store.MarkProvider | packages/db/src/migrations/004-stage10c-identity-authz-rls.ts:302-318 | recording the provider's answer does |
| SessionStore.Store.Revoke | packages/db/src/migrations/004-stage10c-identity-authz-rls.ts:320-336 | revoking does |
| SessionStore.Store.StepUp | packages/db/src/migrations/004-stage10c-identity-authz-rls.ts:445-503 | completing a step-up does, with the old row restored when the new one cannot be inserted |

## Left out

- Row-level security, grants, roles, actor and session checks: every modelled caller has passed them.
- Audit events, correlation ids and telemetry: appended and never read by the modelled steps.
- Regular-expression validators and closed enumerations: the datatypes admit only valid values; category and facet comparison without regard to case is equality of a closed datatype.
- Row identifiers: `uuidv7()` is a supply of fresh ids; in append-only tables an id is the row's position.
- Concurrency inside one transaction: row locks make each function atomic, and a transaction is one step.
- IngestionRuntime.WakeupsAreNeverLost: a signal that lists several refs is modelled per ref, a throw on an earlier ref being a signal that misses the later ones; the redelivery of a thrown job, five times at most, is an event that may or may not come.
- `advance_processing_desired`: no modelled caller uses it. `reconciled_sequence` is never written by the modelled functions.
- AuthoritySql.ResolversAgree: the qualification of the winner is not computed.
- Idempotency: a result is one reference; its kind, status code, response hash, operation and metadata, and the expiry of a row, are not columns of the model.
- IngestionTheorems.GuardsNeverReject: foreign keys and the format checks of identifiers, paths and hashes are not modelled.
- AuthorityHistory: the idempotency claim around set and revoke is the one modelled for context records and is not repeated.
- ContextRecords: evidence, authority and frontier checks of a source-backed put are one verdict given to the step; provenance rows, revisions and payloads are not modelled; records written by other migrations are not part of this model.
- ReconciliationTheorems.CommitSeesItsBasis: it covers scopes, frontiers, identity and current record. The connection state that qualifies a source is stamped by nothing, the integrity number is opaque, and the working stamp is treated on its own. When a candidate has several working items the query picks any of them; the model takes the newest row.
- ReconcileLoop: the reasoning packet and its budget, cost estimation and the project permission check; reading a model's output into its fields is taken as done.
- HexDigest.StableAssertionHash: encoding the printed assertion as UTF-8 is taken as done; the input is any byte string whose bit length is a safe integer, far above the 65536 bytes the caller allows.
- CanonicalForms: NFKC with whitespace cleaning, locale collation and JSON printing are parameters with stated properties (idempotent, a total preorder, faithful on printable values). Object members that JSON cannot carry are not values.
- GithubLifecycle: one payload is taken to come with one event name, as GitHub sends it; deliveries carry no provider time, as the webhook handler sends them, so the time condition of the update always holds; connection intents, candidates and idempotency are not modelled.
- Sessions: step-up intents and identity binding rows are flags; one account.
- Conflicts, uncertainties and change proposals in SQL, GitHub and WorkOS calls, the queue, HTTP, cookies, encryption and webhook signatures.
