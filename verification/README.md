# Reliable webhook service: a verified model

The service stores webhook events, keeps one delivery job per event, and lets workers claim due jobs, post
the event to its endpoint, and write back success, a retry instant or dead letter. Operators can deliver by
hand, replay finished jobs, page through jobs and read queue totals. This project models that core in Dafny
and proves its safety over every run. `dafny verify dfyconfig.toml` checks the whole project.

Instants are integers in microseconds; identifiers are integers; delays are binary64 bit patterns.

## How the model is laid out

- **Tables and rows** (`DeliveryTables`): jobs, attempts, events, endpoints, their database constraints, attempt
  numbering, classification of a post, and what each service writes into a row. An UPDATE sends only the columns
  whose value differs from the one the session loaded, and they land on whatever the row holds by then.
- **Queue order** (`Ordering`, `JobQueue`): ORDER BY with LIMIT, and the two SKIP LOCKED selections.
- **The protocol** (`Protocol`): any number of sessions on READ COMMITTED; one step per statement or commit.
  `ProtocolInvariants` has what every step keeps, `ProtocolTraces` what holds along whole runs, `ProtocolCompletions`
  the row a completion leaves behind, `ProtocolHistory` how far a job row can be trusted about the deliveries that
  really happened, `ProtocolCounterexample` a run in which it cannot, and `ProtocolFairness` how long a due job can be
  passed over.
- **The single worker** (`DeliveryTransactions`, `DeliverySession`, `DeliveryProcessing`, `WorkerIteration`,
  `WorkerLoop`): the services in imperative form, over a database that may refuse any statement and keeps row locks
  until a commit or rollback, with partial progress on every exception. The database counts its statements, and a
  database error is reported exactly when one was refused. `DeliveryTransactions` also states each transaction column
  by column and ties it to the protocol: run undisturbed, the protocol's steps do exactly what its function says.
- **Ingestion** (`IdempotencyKey`, `EventIngestion`, `EventIngestionRefinement`, `EventIngestionSession`): keyed
  creation with a savepoint around two flushes, either of which may fail, as interleaved sessions that refine a map
  from (endpoint, key) to request, and as the imperative operation and its route, whose every statement is a step of
  those sessions.
- **Listing** (`Digits`, `Calendar`, `Base64Url`, `CursorFields`, `CursorJson`, `JobCursor`, `JobListing`,
  `ListingAnswers`): the opaque cursor down to its bytes (base64url as in section 5 of RFC 4648, padding left off as
  section 3.2 allows), keyset paging over a table that changes between pages, and which request is answered how.
- **Retry arithmetic** (`RetryPolicy`): `ldexp`, its overflow and the cap on binary64 (section 3.4 of IEEE 754-2019),
  exact to the last bit. **Totals** (`Operations`): the operational summary against the queue operations.

## What turned out not to hold without an assumption

- A job row can lose its history. A completion loads the job without a lock and reads the highest attempt
  number later; when another worker's attempt commits in between (after a recovery of a slow job, say), a delivered
  job goes back to pending. `DeliveredJobGoesBackToPending` gives such a run. `ExactHistoryIff` says exactly which runs keep the
  history: those whose completions all commit on a row that is still active with the attempt count they loaded.
  `QuietRunsAreExact` derives this from the assumption that no worker attempt of the event commits between the two reads;
  attempts by hand in between do no harm. The bounds on each row and the attempt numbering need no assumption. The
  number of attempts of a whole run does: (r + 1) * max_attempts with r replays holds of runs whose completions commit
  undisturbed, and `RetryBudgetInAnyRun` adds max_attempts for each completion that does not.
- An equivalent request can get a conflict. When another session commits it between the two lookups of
  one resolve, the first lookup misses it and the second finds only the key. docs/database.md (Idempotency paths) promises reuse;
  the model follows the code. `ConflictIsRightIff` is the exact condition, `EquivalentRequestCanConflict` the run.
- An unkeyed request has no savepoint. When the flush of its job fails, the event it has flushed stays behind in a
  transaction that can only be rolled back; a keyed request in the same place has nothing pending and a usable transaction.
- The summary's stale cutoff is exclusive and recovery's inclusive, so the two differ by the jobs exactly on the
  boundary (`RecoverableIsStalePlusBoundary`).
- A diagram in docs/architecture.md says ingestion loads an active endpoint; the code, and the model, accept an inactive one.

## Model

| member | source | states |
|---|---|---|
| ProtocolInvariants.StepKeeps | src/reliable_webhook_service/models.py:88-167 | every statement, commit or abort of any session keeps the row rules, one job per event, numbers 1..n, exclusive locks and one uncommitted attempt per event |
| ProtocolInvariants.RunsKeepInv | src/reliable_webhook_service/models.py:88-167 | all of this in every state reachable from empty tables, whatever the interleaving |
| ProtocolInvariants.InsertKeeps | src/reliable_webhook_service/delivery_service.py:137-148 | an insert that the unique key lets through carries the next number, and no other session can be holding it |
| ProtocolInvariants.WriteJobKeeps | src/reliable_webhook_service/delivery_job_execution_service.py:80-84 | a completion's unlocked write, made from a job read earlier, still leaves a row within the budget rules |
| ProtocolInvariants.CommitKeeps | src/reliable_webhook_service/delivery_processing_service.py:119-129 | committing any open transaction cannot break a row or the snapshot of another session |
| ProtocolTraces.BudgetInEveryState | src/reliable_webhook_service/delivery_job_execution_service.py:57-83 | in every reachable state, rows and in-flight copies have 0 <= attempt_count <= max_attempts, strictly below it while active, exactly it in dead_letter, and a next attempt exactly while active |
| ProtocolTraces.LocksAreExclusive | src/reliable_webhook_service/delivery_job_service.py:36-51 | concurrently open claims, recoveries, replays and job writes hold disjoint rows |
| ProtocolTraces.NumbersAreConsecutive | src/reliable_webhook_service/delivery_service.py:72-77 | in every run the committed attempts of an event are numbered exactly 1..n in commit order |
| ProtocolTraces.DeliveriesAreSerialized | src/reliable_webhook_service/models.py:163-167 | an attempt commits only if no attempt of its event, by a worker or by hand, committed since its maximum was read |
| ProtocolTraces.CommitMoves | src/reliable_webhook_service/delivery_processing_service.py:100 | a commit leaves a job alone unless it is the claim, recovery, replay or completion that holds it, and each of the first three writes the row spelled out here; event and creation time never change |
| ProtocolTraces.IngestAdds | src/reliable_webhook_service/event_service.py:58-84 | ingestion adds the event, no attempts, and one pending job, due at once with attempt_count 0, and touches nothing else |
| ProtocolTraces.IngestIsPossible | src/reliable_webhook_service/event_service.py:163-165 | it is possible for every new event of a known endpoint, active or not, and for no other |
| ProtocolCompletions.CompletionInRun | src/reliable_webhook_service/delivery_job_execution_service.py:57-84 | in every run, what a committed completion leaves in its job: status, count and instant follow from the outcome, the attempts left and min(base * 2^(n-1), max); columns equal to the loaded ones keep what the row holds; between flush and commit nobody moves the row |
| ProtocolTraces.StatusMoves | src/reliable_webhook_service/delivery_job_execution_service.py:57-83 | a status changes only by a committed claim, completion, recovery or replay; processing is entered by claims alone, pending left by claims and completions alone, re-entered by a return to pending alone, and terminal states reached by completions alone |
| ProtocolTraces.ClaimsAreSeparated | src/reliable_webhook_service/delivery_job_service.py:36-60 | between two committed claims of one job a return to pending has committed |
| ProtocolTraces.ReplaysAreSeparated | src/reliable_webhook_service/replay_service.py:82-95 | between two committed replays of one job a worker attempt of it has committed |
| ProtocolHistory.WorkerCommitExactness | src/reliable_webhook_service/delivery_job_execution_service.py:53-84 | a completion's commit keeps all rows truthful about the current cycle if and only if its row is still active with the loaded attempt count |
| ProtocolHistory.OtherStepsKeepExact | src/reliable_webhook_service/replay_service.py:88-94 | every other step, replay, recovery and manual delivery included, keeps rows truthful on its own |
| ProtocolHistory.ExactHistoryIff | src/reliable_webhook_service/delivery_job_execution_service.py:53-84 | a run is truthful in all its states if and only if all its completions commit undisturbed |
| ProtocolHistory.QuietRunsAreUndisturbed | src/reliable_webhook_service/delivery_job_execution_service.py:53-84 | when no worker attempt of the event commits between a completion's job read and its maximum read, every completion commits on a row that is still active with the loaded count |
| ProtocolHistory.QuietRunsAreExact | src/reliable_webhook_service/delivery_job_execution_service.py:53-84 | when no worker attempt of the event commits between a completion's job read and its maximum read, attempt_count is the worker attempts since ingestion or replay, all but possibly the last failed, and the status says which |
| ProtocolHistory.RetryBudgetInAnyRun | src/reliable_webhook_service/delivery_job_execution_service.py:60-80 | in every run, with r replays and d disturbed completions of a job, at most (r + d + 1) * max_attempts worker attempts of its event commit |
| ProtocolHistory.RetryBudget | src/reliable_webhook_service/delivery_job_execution_service.py:60-80 | with r replays, a run whose completions commit undisturbed, every quiet run included, commits at most (r + 1) * max_attempts worker attempts of an event |
| ProtocolHistory.BudgetIsSpentByCompletionsOnly | src/reliable_webhook_service/delivery_job_recovery_service.py:69-72 | in such a run each committed completion uses exactly one attempt, a replay refills, and claims, recoveries and manual deliveries use none |
| ProtocolCounterexample.DeliveredJobGoesBackToPending | src/reliable_webhook_service/delivery_job_execution_service.py:53-84 | a concrete run with a recovery after which a successfully delivered job is pending with one attempt |
| DeliveryTables.MaximumNumber | src/reliable_webhook_service/delivery_service.py:72-76 | the maximum is absent exactly without attempts, is some attempt's number, and no number exceeds it |
| DeliveryTables.NextNumberIsLength | src/reliable_webhook_service/delivery_service.py:77 | over attempts 1..n the next number is n + 1 and exactly 1..n are taken |
| DeliveryTables.ClassificationIsExact | src/reliable_webhook_service/delivery_service.py:110-146 | success exactly on a 2xx response, an error text exactly otherwise, the one of its kind and status; the duration in whole milliseconds, never negative; no attempt exactly on an unexpected exception; the row passes its checks exactly when the status code is in range |
| DeliveryTables.FlushedColumns | src/reliable_webhook_service/delivery_job_execution_service.py:60-84 | the columns of the UPDATE a completion sends, from the loaded job, the outcome, the attempts left and the delay formula |
| DeliveryTables.FlushKeepsRules | src/reliable_webhook_service/delivery_job_execution_service.py:80-84 | decisions computed from a stale processing snapshot and written onto any valid row give a valid row or are refused by the check constraint, never on an active row |
| JobQueue.DueJobsSelection | src/reliable_webhook_service/delivery_job_service.py:36-51 | a claim takes distinct unlocked pending jobs that are due, ordered by next_attempt_at, created_at, id, and leaves a due job behind only when it is full of earlier ones |
| JobQueue.StaleJobsSelection | src/reliable_webhook_service/delivery_job_recovery_service.py:50-64 | a recovery takes distinct unlocked processing jobs last updated by the cutoff, it included, ordered by updated_at, created_at, id, and leaves one behind only when it is full of earlier ones |
| JobQueue.ClaimedJobs | src/reliable_webhook_service/delivery_job_service.py:56-60 | exactly the taken rows become processing, updated at the claim; count, instant, event and creation time stay |
| JobQueue.RecoveredJobs | src/reliable_webhook_service/delivery_job_recovery_service.py:69-72 | exactly the taken rows become pending and due at the recovery, updated then; count, event and creation time stay |
| ProtocolFairness.PassingOverConsumes | src/reliable_webhook_service/delivery_job_service.py:36-60 | in a run whose later schedules are later than a waiting job's, the commit of a claim that could have taken the job and did not removes at least limit jobs from those ahead of it |
| ProtocolFairness.NoStarvation | src/reliable_webhook_service/delivery_job_service.py:36-60 | while the job waits, committed claims times limit plus the jobs still ahead never exceed the jobs ahead at the start, whatever other sessions do |
| ProtocolFairness.ClaimedInTime | src/reliable_webhook_service/delivery_job_service.py:36-60 | with k jobs ahead, at most k / limit claims that could have taken the job commit before its row changes |
| Ordering.Smallest | src/reliable_webhook_service/delivery_job_service.py:43-48 | the page of an ordered, limited query: members only, ascending, as long as the limit allows, and below everything left out |
| RetryPolicy.AtMostIsExact | src/reliable_webhook_service/retry_policy.py:55-56 | comparing binary64 encodings is comparing their values |
| RetryPolicy.LdexpIsExact | src/reliable_webhook_service/retry_policy.py:73-76 | scaling by a power of two never rounds, and overflows exactly when no finite number is as large as the product |
| RetryPolicy.DelayIsExact | src/reliable_webhook_service/retry_policy.py:61-78 | the delay exists exactly for n >= 1 and 0 < base <= max, and is the real number min(base * 2^(n-1), max), overflow included |
| RetryPolicy.DelayIsMonotone | src/reliable_webhook_service/retry_policy.py:61-78 | delays stay within [base, max] and never shrink with the attempt number |
| RetryPolicy.FirstAtCapExists | src/reliable_webhook_service/retry_policy.py:73-78 | for every positive base and every cap exactly one doubling is the first to reach it |
| RetryPolicy.TotalWaitClosedForm | src/reliable_webhook_service/retry_policy.py:108-124 | the m - 1 delays the policy returns in a failing cycle sum to base * (2^(m-1) - 1) up to that doubling k, and to base * (2^k - 1) + (m-1-k) * max beyond |
| RetryPolicy.DecisionCases | src/reliable_webhook_service/retry_policy.py:81-124 | each decision is taken in exactly its case, and an instant out of range is refused exactly when it is |
| RetryPolicy.DecisionRefusals | src/reliable_webhook_service/retry_policy.py:42-106 | for any arguments each refusal exactly in its case, in the order of the checks |
| RetryPolicy.ScheduledWaitsAreMonotone | src/reliable_webhook_service/retry_policy.py:114-124 | under any monotone rounding to microseconds, later failures of a cycle are never scheduled with a shorter wait |
| DeliveryTransactions.PreparationCases | src/reliable_webhook_service/delivery_service.py:56-84 | each refusal of a delivery exactly in its case, and the number one above all earlier ones |
| DeliveryTransactions.DeliveryCases | src/reliable_webhook_service/delivery_service.py:87-149 | a delivery that may be made fails exactly on an unexpected exception and on a status code no row may hold |
| DeliveryTransactions.CompletionCases | src/reliable_webhook_service/delivery_job_execution_service.py:53-84 | the whole outcome of a completion by cases: each refusal, and for success, retry and dead letter every column of the row, the retry instant by the delay formula included |
| DeliveryTransactions.ReplayCases | src/reliable_webhook_service/replay_service.py:64-95 | each refusal of a replay exactly in its case, and acceptance exactly of a finished job of a deliverable event |
| DeliveryTransactions.ClaimIsASession | src/reliable_webhook_service/delivery_processing_service.py:91-105 | undisturbed, the claim's protocol steps do what the claim transaction's function says |
| DeliveryTransactions.RecoveryIsASession | src/reliable_webhook_service/worker_iteration_service.py:93-106 | the same for the recovery transaction |
| DeliveryTransactions.ReplayIsASession | src/reliable_webhook_service/replay_service.py:72-95 | a replay's protocol steps run undisturbed exactly when the replay is not refused, and restart exactly its job |
| DeliveryTransactions.ManualDeliveryIsASession | src/reliable_webhook_service/delivery_service.py:87-149 | a delivery by hand runs undisturbed exactly when it does not fail, adds its attempt and touches no job |
| DeliveryTransactions.CompletionIsASession | src/reliable_webhook_service/delivery_job_execution_service.py:53-84 | the five steps of a completion run undisturbed exactly when the completion succeeds, with the same tables |
| DeliverySession.Session.ClaimDueJobs | src/reliable_webhook_service/delivery_job_service.py:27-61 | the row loop locks and marks exactly the due jobs no other transaction has locked, in order, status and update time only; a limit below 1 is refused, and a database error is reported exactly when a statement was refused |
| DeliverySession.Session.RecoverStaleJobs | src/reliable_webhook_service/delivery_job_recovery_service.py:37-76 | the row loop locks the stale jobs no other transaction has locked, makes exactly these pending and due now; a bad limit or interval is refused, and a database error is reported exactly when a statement was refused |
| DeliverySession.Session.ReplayEvent | src/reliable_webhook_service/replay_service.py:64-102 | makes exactly the event's finished job pending, due now, with attempt_count 0; gives the refusal of the first check that fails, and a database error exactly when a statement was refused |
| DeliverySession.Session.ExecuteDelivery | src/reliable_webhook_service/delivery_service.py:87-149 | adds exactly the attempt of this exchange under the next number, or fails as the delivery function says, with a database error exactly when a statement was refused |
| DeliverySession.Session.ExecuteDeliveryJob | src/reliable_webhook_service/delivery_job_execution_service.py:40-89 | the tables become those of the completion, the result names the attempt just added and the job's new state; each failure is the one the completion function gives, with a database error exactly when a statement was refused |
| DeliverySession.Session.Commit | src/reliable_webhook_service/delivery_processing_service.py:100 | publishes the view and frees the rows the session had locked, or, refused, changes neither |
| DeliverySession.Session.Rollback | src/reliable_webhook_service/delivery_processing_service.py:102 | frees the rows the session had locked, so that the next claim does not skip them, and forgets what it had flushed; the transactions below leave no lock behind only because of it |
| DeliveryProcessing.ClaimTransaction | src/reliable_webhook_service/delivery_processing_service.py:91-105 | the whole claim is committed, or nothing is, and a database error is reported exactly when a statement or the commit was refused; either way no row stays locked |
| DeliveryProcessing.CompletionTransaction | src/reliable_webhook_service/delivery_processing_service.py:109-136 | the whole completion of one job is committed, or nothing is and the error says why, a database error exactly when a statement or the commit was refused; either way no row stays locked |
| DeliveryProcessing.RunProcessingCycle | src/reliable_webhook_service/delivery_processing_service.py:73-141 | the database goes through the claim and one completion per claimed job in order; on an exception it stays where the last commit left it; on return completed ids are the claimed ids in order; a database error exactly when a statement was refused |
| DeliveryProcessing.CompletionEffect | src/reliable_webhook_service/delivery_job_execution_service.py:57-84 | a completion takes its job out of processing, adds one attempt to its event, and changes nothing else |
| DeliveryProcessing.ProgressStep | src/reliable_webhook_service/delivery_processing_service.py:107-136 | one more completion turns j completed jobs into j + 1 and disturbs neither the finished nor the waiting ones |
| DeliveryProcessing.CycleProgress | src/reliable_webhook_service/delivery_processing_service.py:91-141 | wherever a cycle stopped, the first j claimed jobs are completed with one new attempt each, the others are processing since claimed_at with no new attempt, all else is unchanged |
| WorkerIteration.RecoveryTransaction | src/reliable_webhook_service/worker_iteration_service.py:93-106 | the whole recovery is committed, or nothing is, and a database error is reported exactly when a statement or the commit was refused; either way no row stays locked |
| WorkerIteration.RunIteration | src/reliable_webhook_service/worker_iteration_service.py:69-125 | commits nothing, the recovery, or the recovery and a cycle at the same instant; each validation error in its case, a database error exactly when a statement was refused |
| WorkerIteration.RecoveredAreDue | src/reliable_webhook_service/delivery_job_recovery_service.py:69-72 | every recovered job is pending and due at the claim that follows, updated then, its attempt count untouched |
| WorkerIteration.RecoveredAreClaimed | src/reliable_webhook_service/worker_iteration_service.py:93-120 | when the due jobs fit the processing limit, every recovered job is claimed |
| WorkerIteration.ProcessingAfterIteration | src/reliable_webhook_service/worker_iteration_service.py:93-125 | after an iteration that returned, the processing jobs are exactly the earlier ones without the recovered ones |
| WorkerLoop.CompletionAddsOneRow | src/reliable_webhook_service/delivery_service.py:137-148 | a completed job adds exactly one row to the attempt table |
| WorkerLoop.IterationAddsRows | src/reliable_webhook_service/delivery_processing_service.py:107-136 | an iteration, also one that raised, adds as many attempt rows as it completed jobs |
| WorkerLoop.HistoryTotals | src/reliable_webhook_service/worker_loop_service.py:165-169 | over any history claimed equals completed equals attempt rows added, and totals are within limit times iterations |
| WorkerLoop.RaisedRows | src/reliable_webhook_service/worker_loop_service.py:158-163 | after a fatal iteration the attempt table has the completed jobs of all iterations and of the partial one |
| WorkerLoop.RecoveredWereStale | src/reliable_webhook_service/worker_loop_service.py:138 | iteration i recovers only jobs processing and untouched since clock(i) - stale timeout, oldest first, and leaves an older one behind only when its limit is full |
| WorkerLoop.ClaimedWereDueThen | src/reliable_webhook_service/worker_iteration_service.py:93-120 | iteration i claims only jobs recovered by it or pending and due at clock(i), earliest first, and leaves one behind only when its limit is full |
| WorkerLoop.RunWorker | src/reliable_webhook_service/worker_loop_service.py:88-198 | stops at the first of the three stop points that asks for it, with started equal to completed iterations, conserved totals, and a final iteration exactly when one ran; each invalid setting raises its own error before anything happens; an exception leaves the partial iteration's commits, and each kind of exception has its cause: a cutoff before the calendar, a refused statement, or the completion that failed |
| IdempotencyKey.AsciiSpaces | src/reliable_webhook_service/event_service.py:50 | blanks, tabs and line ends are stripped, visible ASCII characters never |
| IdempotencyKey.StripSplits | src/reliable_webhook_service/event_service.py:50 | stripping removes white space at both ends and nothing else |
| IdempotencyKey.NormalizedKeyIsTheTrimmedMiddle | src/reliable_webhook_service/event_service.py:46-55 | white space around a key never matters, and exactly empty and overlong middles are refused |
| IdempotencyKey.NormalizationIsStable | src/reliable_webhook_service/event_service.py:46-55 | a normalized key is its own normal form |
| EventIngestion.LookupScopedKeeps | src/reliable_webhook_service/event_service.py:200-209 | the second resolve after a violation never finds nothing, so the re-raise is unreachable |
| EventIngestion.InsertEventKeeps | src/reliable_webhook_service/event_service.py:66-73 | the event's flush fails on a taken identifier or key and otherwise leaves the event alone pending, apart from what every other session has pending |
| EventIngestion.InsertJobKeeps | src/reliable_webhook_service/event_service.py:75-82 | the job's flush makes event and job pending together, or fails with the event still pending |
| EventIngestion.UnwindKeeps | src/reliable_webhook_service/event_service.py:187-198 | unwinding a failed flush of a keyed request leaves neither event nor job behind, whichever flush failed; an unkeyed request keeps what it had flushed in a transaction that cannot commit |
| EventIngestion.CommitKeeps | src/reliable_webhook_service/event_service.py:58-84 | a commit adds the event and its job together, both new, keeps keys unique and gives the event exactly one fresh job |
| EventIngestion.IngestionIsSafe | src/reliable_webhook_service/event_service.py:153-211 | in every reachable state at most one event per key, one pending unspent job per event, no session has re-raised, and nothing is pending behind an answer except behind the failure of an unkeyed request |
| EventIngestionRefinement.RunRefinesMap | src/reliable_webhook_service/event_service.py:153-211 | every step leaves the map from (endpoint, key) to request alone, except a commit, which binds its one free key |
| EventIngestionRefinement.ReuseMatchesTheMap | src/reliable_webhook_service/event_service.py:131-139 | the first lookup answers a reuse exactly when the key is bound to the same request |
| EventIngestionRefinement.ConflictMatchesTheMap | src/reliable_webhook_service/event_service.py:141-150 | without a race the second lookup answers a conflict exactly when the key is bound to a different request |
| EventIngestionRefinement.ConflictIsRightIff | src/reliable_webhook_service/event_service.py:131-150 | a conflict is answered for an equivalent request if and only if such a request committed between the two lookups |
| EventIngestionRefinement.SecondResolveIsRight | src/reliable_webhook_service/event_service.py:196-209 | after a violation a conflict is the map's answer in every interleaving |
| EventIngestionRefinement.EquivalentRequestCanConflict | src/reliable_webhook_service/event_service.py:131-150 | a concrete run in which an equivalent request is answered with a conflict |
| EventIngestionSession.IngestionSession.FindEquivalent | src/reliable_webhook_service/event_service.py:87-101 | finds an event exactly when an equivalent one is committed, and then that one |
| EventIngestionSession.IngestionSession.FindScoped | src/reliable_webhook_service/event_service.py:104-114 | says whether the key is bound; after a violation it always is, to another request |
| EventIngestionSession.IngestionSession.ResolveExisting | src/reliable_webhook_service/event_service.py:123-150 | reuses whatever equivalent event was committed before the call, and answers nothing only for a key free at the call and never after a violation |
| EventIngestionSession.IngestionSession.FlushEvent | src/reliable_webhook_service/event_service.py:66-73 | refused exactly for a fault, a committed identifier or a bound key, and otherwise the event is pending |
| EventIngestionSession.IngestionSession.FlushJob | src/reliable_webhook_service/event_service.py:75-82 | refused exactly for a fault or a committed identifier, with the event still pending, and otherwise event and job are pending |
| EventIngestionSession.IngestionSession.RollbackToSavepoint | src/reliable_webhook_service/event_service.py:187-198 | what was pending at the savepoint is pending again and the transaction is usable, as the protocol's unwinding step says |
| EventIngestionSession.IngestionSession.InsertNested | src/reliable_webhook_service/event_service.py:187-198 | a refused insert, also one refused after the event's flush, leaves nothing pending in a usable transaction |
| EventIngestionSession.IngestionSession.CreateUnkeyed | src/reliable_webhook_service/event_service.py:167-175 | creates unless a fault or a committed identifier is in the way, and then leaves a transaction that cannot commit |
| EventIngestionSession.IngestionSession.CreateKeyed | src/reliable_webhook_service/event_service.py:177-211 | against any steps of others, the answer is the one the committed tables decide, errors leave nothing pending, and a violation always finds its winner |
| EventIngestionSession.IngestionSession.CreateIdempotent | src/reliable_webhook_service/event_service.py:153-211 | each answer is that of a session of the protocol in the run of all sessions; an event committed before the call decides between reuse and conflict, a free key with nothing in the way creates exactly the request, refused arguments send nothing |
| EventIngestionSession.AnswerByColumns | src/reliable_webhook_service/event_service.py:123-150 | what decides an answer, by columns: an event with this endpoint and key before the call is reused for the same request and conflicts with any other, and a free key with nothing in the way creates |
| EventIngestionSession.IngestionSession.Commit | src/reliable_webhook_service/api.py:176 | event and job become visible together, and only from a transaction that has not failed |
| EventIngestionSession.IngestionSession.PostEvent | src/reliable_webhook_service/api.py:146-180 | answers a bad key and an unknown endpoint exactly in their cases, reuse and conflict as the committed tables decide, creation whenever nothing is in the way, and never the re-raise; what it commits besides what others do is its event with its job, spelled out, exactly when it answers that it created one |
| Digits.NumeralRoundTrip | src/reliable_webhook_service/delivery_job_query_service.py:132-135 | a fixed-width numeral reads back as its number in any base up to 16 |
| Calendar.FieldsOf | src/reliable_webhook_service/delivery_job_query_service.py:135 | every instant of years 1 to 9999 has valid civil fields that give it back |
| Calendar.KnownInstants | src/reliable_webhook_service/delivery_job_query_service.py:135 | both ends of the calendar, the Unix epoch and a leap day are the instants they are |
| CursorFields.TimeRoundTrip | src/reliable_webhook_service/delivery_job_query_service.py:186-194 | every timestamp is read back from its cursor text, Z suffix included |
| CursorFields.UuidRoundTrip | src/reliable_webhook_service/delivery_job_query_service.py:195 | every UUID is read back from its hyphenated text |
| CursorFields.TimeText | src/reliable_webhook_service/delivery_job_query_service.py:132-135 | the layout YYYY-MM-DDTHH:MM:SS.ffffffZ, with the calendar field in each place |
| CursorFields.UuidText | src/reliable_webhook_service/delivery_job_query_service.py:144 | the layout 8-4-4-4-12 of the 32 hexadecimal digits |
| CursorFields.StatusRoundTrip | src/reliable_webhook_service/delivery_job_query_service.py:180-184 | exactly the four status names are read, each as its status |
| Base64Url.DecodeEncode | src/reliable_webhook_service/delivery_job_query_service.py:155-171 | decoding an encoding gives back every byte string |
| Base64Url.Alphabet | src/reliable_webhook_service/delivery_job_query_service.py:155 | the 64 symbols are those of the URL-safe alphabet, in order |
| Base64Url.QuadValue | src/reliable_webhook_service/delivery_job_query_service.py:155 | four symbols are the base 64 digits of the number three bytes make |
| Base64Url.TestVectors | src/reliable_webhook_service/delivery_job_query_service.py:155 | the encodings of "f", "fo" and "foo" are the published ones |
| Base64Url.EncodedShape | src/reliable_webhook_service/delivery_job_query_service.py:155 | an encoding is symbols followed by at most two padding characters |
| Base64Url.PaddingRoundTrip | src/reliable_webhook_service/delivery_job_query_service.py:155-166 | stripping the padding and recomputing it from the length is the identity on every encoding |
| CursorJson.ObjectRoundTrip | src/reliable_webhook_service/delivery_job_query_service.py:149-174 | a written object is read back as its members |
| JobCursor.CursorRoundTrip | src/reliable_webhook_service/delivery_job_query_service.py:138-196 | every encoded position is decoded under its own filter and rejected under every other |
| JobCursor.CursorIsDocument | src/reliable_webhook_service/delivery_job_query_service.py:138-155 | a cursor is the encoded document of the four members, names sorted, version 1 |
| JobCursor.CursorText | src/reliable_webhook_service/delivery_job_query_service.py:138-155 | the JSON a cursor carries, written out: compact, names sorted, an absent filter as null, version 1 |
| JobCursor.BytesAreCodes | src/reliable_webhook_service/delivery_job_query_service.py:154 | its bytes are the codes of its characters |
| JobCursor.AcceptedDocuments | src/reliable_webhook_service/delivery_job_query_service.py:168-196 | of all encoded documents exactly those with the four members, version 1, the asked status, and a readable timestamp and id are accepted, as that position |
| JobListing.PageContents | src/reliable_webhook_service/delivery_job_query_service.py:247-269 | a page holds matching rows below the cursor, newest first; without a next cursor it holds all of them, with one it is full and the rest lies below its last row |
| JobListing.KeysStrictlyDecrease | src/reliable_webhook_service/delivery_job_query_service.py:251-263 | through all pages the (updated_at, id) keys strictly decrease, whatever changes in between |
| JobListing.NoIdRepeats | src/reliable_webhook_service/delivery_job_query_service.py:251-263 | no id is returned twice when no row's updated_at goes back |
| JobListing.StableRowsExactlyOnce | src/reliable_webhook_service/delivery_job_query_service.py:247-269 | a matching row left alone from first to last page is returned exactly once, whatever happens to the others |
| JobListing.WalkIsThePlainList | src/reliable_webhook_service/delivery_job_query_service.py:236-269 | over an unchanging table the pages, of any sizes, make exactly the plain sorted list |
| ListingAnswers.ListingRefusals | src/reliable_webhook_service/delivery_job_query_service.py:96-115 | invalid status, limit outside 1..100 and invalid cursor are each answered exactly in their case, in this order |
| ListingAnswers.QueryIsPage | src/reliable_webhook_service/delivery_job_query_service.py:249-269 | a page has the first limit wanted rows, column by column, and a cursor to its last row exactly when a wanted row is left |
| ListingAnswers.AnyCursorIsAnswered | src/reliable_webhook_service/delivery_job_query_service.py:236-269 | every position, and no cursor, is answered with its page, over any table and any limit from 1 to 100 |
| ListingAnswers.NextCursorIsAnswered | src/reliable_webhook_service/delivery_job_query_service.py:236-269 | a next cursor is answered over any later table with the page that starts below the last row returned |
| ListingAnswers.CompleteWalkExists | src/reliable_webhook_service/delivery_job_query_service.py:236-269 | over any table and limits, following the cursors from the top comes to a last page |
| ListingAnswers.PlainListIsSorted | src/reliable_webhook_service/delivery_job_query_service.py:260-263 | the plain list is every wanted row once, newest update first, then greatest id |
| Operations.SummaryColumns | src/reliable_webhook_service/operations_service.py:142-189 | each count is of the rows with its status, due and stale ones with their bound, and the stale cutoff is the generation instant less the timeout |
| Operations.CountsAddUp | src/reliable_webhook_service/operations_service.py:146-161 | the four status counts add up to the table |
| Operations.DueCountIsTheUnboundedClaim | src/reliable_webhook_service/operations_service.py:150-165 | due_pending is what an unbounded claim at that instant takes, and its oldest instant is that of the first job claimed, absent exactly when there is none |
| Operations.RecoverableIsStalePlusBoundary | src/reliable_webhook_service/operations_service.py:151-159 | an unbounded recovery takes the stale_processing jobs and those exactly on the cutoff |
| Operations.OldestProcessing | src/reliable_webhook_service/operations_service.py:163-165 | the oldest processing time is attained and least, and absent exactly when nothing is processing |

## Left out

- Protocol: a locking select, a flush, a commit and a rollback are one atomic step each; waiting for a lock or for an uncommitted unique key is a step that is not possible yet. PostgreSQL's own machinery, deadlocks and the re-check of a row after a lock wait are not modelled.
- Protocol.ReadMaximum: reads event, endpoint and highest attempt number in one step; the same holds for the endpoint check and the row lock of a replay.
- Protocol.Ingest: appears as its commit; its lookups, savepoint and races are the ingestion model. Row deletions, settings that change between steps, and the migration that backfills attempt_count are outside the runs considered.
- RunWorker: observed for a bounded number of iterations, with the bound arbitrary, since the loop itself need not end.
- RunProcessingCycle: the worker modelled here is the only client, so no other session commits or holds a row; interleavings are the protocol's. A commit that takes effect although the client sees an error is not modelled.
- FlushEvent: an error other than the key violation is one kind of error here, and the database's reasons for it are two flags of the caller; whether the driver rolls a failed unkeyed transaction back at once or at the end of the request is not modelled, it cannot commit either way.
- ExecuteDelivery: post_json is any response, timeout, transport error or other exception; the HTTP client, target URLs, payloads and the column of the attempt that records the URL are not part of this model.
- DecideRetry: the rounding of timedelta to microseconds is any function, monotone where that matters; the lower end of the datetime range matters only to the loop's cutoff.
- DecodeCursor: reads flat JSON objects without string escapes, the timestamp layout the service writes, UUIDs as 32 hexadecimal digits with hyphens anywhere, and base64url text whose last quad is full or unpadded; foreign spellings of a cursor that Python's json, datetime, uuid and base64 modules also accept are rejected here.
- Type checks on arguments and timezone handling: arguments are of their types and instants are UTC.
- Integer widths of columns, string lengths other than the idempotency key's, and non-ASCII case rules.
- Creating endpoints, FastAPI routes, schemas, dependencies and status codes: thin wrappers that would add only easy members.
- Signal handlers, process resources, logging, settings loading, database readiness and migrations.
- scripts/validate_markdown.py: file-system and text work apart from the protocol.
