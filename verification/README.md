# Labrys: verified model of the durable control loop

This project models the parts of Labrys that must not go wrong silently, and
proves what they promise for every input, every run and every interleaving:

- the leased job queue that many workers step on, the simple in-memory queue it
  stands for, the backoff, the deduplication keys, the five controllers that feed
  it and the worker that drains it;
- health-gated rollout, promotion, planned rollback and domain attachment;
- the hash-chained audit log and its concurrent appender;
- the sealed secret store, key rotation and the legacy cipher;
- redaction by repeated replacement;
- verifier verdicts, evidence retention and the pruned rate limiter.

`dafny verify dfyconfig.toml` checks the whole project.

## How to read it

One module per component. State that the program updates in place is a class
(`JobQueue`, `PgJobQueue`, `Worker`, `RateLimiter`, `Verifier`, `EvidenceStore`,
`PgEvidenceStore`, `AuditLog`, `PgAuditLog`, `SecretStore`, `Rollout`); what each
method does to the state is stated as a function of the old state, and the run-level
theorems are about those functions.

What the outside world decides is a parameter: clocks, fresh ids, nonces, the order
in which a map is walked, the rows other transactions hold locked, the steps other
workers take in between, the dispatcher's report, and whether another store's write
succeeds. Time is an integer number of nanoseconds. A job id is a number standing
for the place of its fixed-length text in the order of ids. Each SQL transaction is
one atomic step, except in the audit appender, whose lock, read, insert and commit
are separate steps. The audit digest is an arbitrary function. ChaCha20-Poly1305
(section 2.8 of RFC 8439) and SHA-256 are symbolic: a box opens only under the key,
nonce and associated data it was made with. A panic on a retry delay, due time or
lease expiry outside chrono's range is an error result; the state is the one the
code leaves behind. Secret values are UTF-8 text in encoded form, on which
replacing text and replacing its bytes are the same.

## Where the code differs from what it says or what one would expect

- **Redaction can leak.** A secret survives its own redaction if and only if the marker
  contains it, an end of the marker begins it, or it is rebuilt behind a front that
  the scan copies (`OneSecretLeaksExactlyWhen`, `BracketSecretLeaks`); a part of the
  marker survives every list (`MarkerPartLeaks`). The guard still fails closed.
- **Markers with names.** The secret store's markers carry reference ids, so redacting one
  secret can write another back (`LaterMarkerWritesBack`, `WriteBackIsReachable`); the
  exact condition can be read off the markers (`StoreRedactionIsComplete`). The
  store's guard refuses such text.
- **Requeue beside a twin.** In the core queue a dead job can be put back while a job
  with its key is in flight; that is the only way to two live jobs per key, and a run
  reaches it (`TwinsAreReachable`).
- **Finished keys.** The table refuses a key for good, the core queue only while a job
  with it is in flight (`EnqueueRefines`, `FinishedKeyIsReachable`).
- **Ties.** Of jobs with equal due and enqueue times the table may claim any, the core queue
  the first by id (`ClaimRefines`, `TieIsReachable`).
- **Out-of-range delay.** The core `fail` computes the delay even for the last attempt,
  the table only when it retries (`FailRefines`, `OutOfRangeDeathIsReachable`). The
  core notes the error before a due time outside the calendar panics. The table's
  `fail` also writes the next due time, possibly in the future, into `updated_at`.
- **Lease recovery** keeps the old due time and the charged attempt.
- **Newest evidence can go.** The retention policy promises that the newest
  `keep_latest` records are always kept; with a blocking failure present `retain`
  drops any of them that has expired (`NewestCanGo`, `NewestKeptExactlyWhen`).
- **Production replacement.** `replace` is documented to require approval for every
  production secret; the code looks at the new grant (`UnapprovedReplaceExactlyWhen`).
- **Order of submissions.** What is recorded of a stage is the same in every order if and
  only if the submissions to it are all outright, or none fails or is without
  evidence, or all are without evidence (`OrderMattersExactlyWhen`); one failure and
  one "not applicable" give two verdicts in two orders (`TwoOrdersTwoVerdicts`).
  `VerdictChangesExactlyWhen` gives the exact condition for the verdict.
- **Direct roll-back mark.** `mark_rolled_back` on a deployment that never passed its
  health gate makes it an accepted rollback target (`DirectMarkExactlyWhen`,
  `MarkedFailureBecomesCurrent`, `UngatedFailureIsReachable`); the step set of the
  rollout therefore excludes it.
- **Written first.** `record_health` stores the health before a rejected move, and
  `record_build` the build result before a missing image is rejected.
- **Version keys.** `convergence_version` collides after a thousand failures and at
  saturation (`VersionsCollideExactlyWhen`).
- **Rate limit.** Any sixty seconds accept at most twice the limit less one, and a run
  reaches that (`TwiceLessOneIsReached`).

## Model

| member | source | states |
|---|---|---|
| Redaction.RedactReason | crates/labrys-core/src/controller.rs:32-38 | The loop computes leftmost, non-overlapping replacement of one secret after another |
| Redaction.RedactionIsComplete | crates/labrys-core/src/controller.rs:32-38 | For every text and every list of secrets that touch no end of the marker and lie not in it, no secret survives |
| Redaction.BracketFreeIsRedactable | crates/labrys-core/src/controller.rs:32-38 | A secret without brackets is such a secret if and only if it is no part of the word "redacted" |
| Replacement.RulesLeaveNothing | crates/labrys-core/src/controller.rs:32-38 | With any markers, no secret survives a list of replacements if each is apart from its own and every later marker |
| RuleLists.RulesCompleteExactlyWhen | crates/labrys-core/src/capability.rs:1097-1109 | With any markers that no secret reaches over, a list of replacements is complete on every text if and only if each marker whose secret contains no earlier one comes out clean of the later replacements |
| RuleLists.MarkerLeaks | crates/labrys-core/src/capability.rs:1097-1109 | For any secrets and markers, a marker that does not come out clean leaks from the secret it replaces |
| Redaction.CompleteExactlyWhen | crates/labrys-core/src/controller.rs:32-38 | A list whose secrets reach over no end of the marker redacts every text completely if and only if the marker contains none of them |
| Redaction.OneSecretLeaksExactlyWhen | crates/labrys-core/src/controller.rs:32-38 | For any one secret, brackets or not, some text keeps it if and only if the marker contains it, an end of the marker begins it, or it is rebuilt behind a copied front |
| Redaction.MarkerPartLeaks | crates/labrys-core/src/controller.rs:32-38 | A secret the marker contains, brackets included, survives every list it is redacted with |
| Redaction.BracketSecretLeaks | crates/labrys-core/src/controller.rs:32-38 | A concrete secret with a bracket that its own redaction rebuilds |
| Redaction.RedactionIsIdempotent | crates/labrys-core/src/controller.rs:32-38 | Redacting twice is redacting once |
| Redaction.EnsureNoSecret | crates/labrys-control-plane/src/redact.rs:21-28 | Accepts exactly the texts that hold no non-empty known secret |
| Redaction.RedactGuard | crates/labrys-control-plane/src/redact.rs:31-35 | Returns the redacted text exactly if it is clean |
| Redaction.GuardFailsClosed | crates/labrys-control-plane/src/redact.rs:21-35 | Whatever the guard lets out is clean, and it never refuses a redactable list |
| Backoff.DelayIsCappedProduct | crates/labrys-core/src/controller.rs:149-163 | The saturating computation equals the capped plain product wherever that fits, and fails exactly where it does not |
| Backoff.BaseIsWholeSeconds | crates/labrys-core/src/controller.rs:149-163 | The base delay counts in whole seconds, rounded down, never below zero |
| Backoff.UncappedGrows | crates/labrys-core/src/controller.rs:149-163 | The first attempt waits the base delay, each further one the factor times the one before, up to the thirty-second |
| Backoff.DefaultDelays | crates/labrys-core/src/controller.rs:137-163 | The default policy waits 5, 10, 20, 40 seconds and from the seventh attempt on 300 |
| Backoff.DelayMonotone | crates/labrys-core/src/controller.rs:149-163 | Later attempts never wait less |
| Backoff.DelayBounds | crates/labrys-core/src/controller.rs:149-163 | Delays lie between zero and any non-negative cap |
| Backoff.NegativeCapGivesNegativeDelay | crates/labrys-core/src/controller.rs:149-163 | A negative cap is taken over as the delay |
| IdempotencyKeys.KeyInjective | crates/labrys-core/src/controller.rs:382-384 | Equal keys mean equal target, action and version, whatever characters the targets hold |
| IdempotencyKeys.KeyExamples | crates/labrys-core/src/controller.rs:359-384 | The written form of the keys, for every action |
| Rendering.RenderIsDecimal | crates/labrys-core/src/controller.rs:382-384 | Versions are written in decimal |
| JobQueues.JobQueue.Enqueue | crates/labrys-core/src/controller.rs:459-492 | Adds a fresh queued job unless one with the key is live, and then names the first such job |
| JobQueues.JobQueue.ClaimNext | crates/labrys-core/src/controller.rs:511-531 | Claims the least due job by due time, enqueue time and map order, or nothing exactly if none is due |
| JobQueues.JobQueue.Complete | crates/labrys-core/src/controller.rs:534-540 | Takes effect exactly on a running job |
| JobQueues.JobQueue.Fail | crates/labrys-core/src/controller.rs:544-556 | Retries with backoff, dies exactly when the budget is spent, and fails exactly when the delay or the due time is out of range |
| JobQueues.CoreRetryIsDue | crates/labrys-core/src/controller.rs:544-556 | A job failing at its n-th attempt is due after base times factor to the n-1 seconds, capped; it dies when the budget is spent; out of range it stays as it was or running |
| JobQueues.JobQueue.Pause | crates/labrys-core/src/controller.rs:559-573 | Takes effect exactly on a queued job |
| JobQueues.JobQueue.Resume | crates/labrys-core/src/controller.rs:576-591 | Takes effect exactly on a paused job, which becomes due now |
| JobQueues.JobQueue.Requeue | crates/labrys-core/src/controller.rs:594-610 | Takes effect exactly on a dead job, with a fresh budget |
| JobQueues.SomeDueIsClaimed | crates/labrys-core/src/controller.rs:511-531 | A claim finds the first due job whenever any job is due |
| JobQueues.OneLivePerKeyKept | crates/labrys-core/src/controller.rs:459-610 | A step keeps at most one in-flight job per key if and only if it is not a requeue beside a live twin |
| JobQueues.TwinsAreReachable | crates/labrys-core/src/controller.rs:594-610 | For every key a run from the empty queue ends with two jobs of that key in flight |
| Overtaking.StepKeepsPlace | crates/labrys-core/src/controller.rs:459-610 | After a job's due time no step puts another job ahead of it, and a claim takes it or shrinks the set ahead |
| Overtaking.ClaimedWithinBound | crates/labrys-core/src/controller.rs:459-610 | An unpaused due job is claimed within as many claims as jobs were ahead of it, plus one, whatever else happens |
| LeasedQueues.PgJobQueue.Enqueue | crates/labrys-control-plane/src/jobs.rs:40-81 | Inserts unless the key has a row, and returns the row that holds the key |
| LeasedQueues.PgJobQueue.ClaimNext | crates/labrys-control-plane/src/jobs.rs:85-131 | Leases a first due row among those not locked elsewhere, or nothing exactly if there is none; fails exactly when the expiry is out of range |
| LeasedQueues.PgJobQueue.Complete | crates/labrys-control-plane/src/jobs.rs:134-150 | Takes effect exactly for the lease owner of a running row |
| LeasedQueues.PgJobQueue.Fail | crates/labrys-control-plane/src/jobs.rs:154-194 | Takes effect exactly for the lease owner and a due time in range; dead exactly when the budget is spent, else due after the backoff |
| LeasedQueues.PgJobQueue.Pause | crates/labrys-control-plane/src/jobs.rs:197-199 | Takes effect exactly on a queued row and keeps its due time |
| LeasedQueues.PgJobQueue.Resume | crates/labrys-control-plane/src/jobs.rs:202-204 | Takes effect exactly on a paused row, which becomes due now |
| LeasedQueues.PgJobQueue.Requeue | crates/labrys-control-plane/src/jobs.rs:207-222 | Takes effect exactly on a dead row, with a fresh budget and no lease |
| LeasedQueues.PgJobQueue.RecoverExpiredLeases | crates/labrys-control-plane/src/jobs.rs:226-237 | Frees exactly the running rows whose lease is over and returns their ids |
| LeasedQueues.InvKept | crates/labrys-control-plane/src/jobs.rs:40-237 | Every step keeps one row per key and a lease owner and expiry exactly while running |
| LeasedQueues.RowsPersist | crates/labrys-control-plane/src/jobs.rs:40-237 | Rows never vanish or change key, and a succeeded row never changes |
| LeasedRuns.HistoryAgrees | crates/labrys-control-plane/src/jobs.rs:40-237 | In every run each row agrees with the account kept from what callers were told: owner, status, attempts, budget |
| LeasedRuns.OnlyTheHolderFinishes | crates/labrys-control-plane/src/jobs.rs:134-194 | Complete and fail take effect only for the worker of the latest claim not since recovered or finished |
| LeasedRuns.ClaimsDoNotOverlap | crates/labrys-control-plane/src/jobs.rs:85-131 | A job is claimed only while no claim on it is open and it is neither done nor dead |
| LeasedRuns.FailuresStayWithinBudget | crates/labrys-control-plane/src/jobs.rs:93-237 | Attempts are failures plus recoveries plus the open or successful one; failures never exceed max(1, budget); dead exactly when the last failure found the budget spent |
| LeasedRuns.RetryIsDueAfterBackoff | crates/labrys-control-plane/src/jobs.rs:154-194 | In every run a failure makes the job due after base times factor to the number of failures and recoveries before it, capped, or leaves it dead when the budget is spent |
| LeasedRuns.HolderFailsExactlyWhen | crates/labrys-control-plane/src/jobs.rs:154-194 | In every run the holder's failure takes effect if and only if the budget is spent or the next due time is in range |
| LeasedRuns.KeyOwnerIsStable | crates/labrys-control-plane/src/jobs.rs:40-81 | The row that holds a key holds it alone and for good |
| LeasedRuns.AtMostOneCompletionPerKey | crates/labrys-control-plane/src/jobs.rs:134-150 | In every interleaving each key completes at most once |
| LeasedRuns.LeaseIsHeld | crates/labrys-control-plane/src/jobs.rs:85-237 | In every run a claimed row stays as claimed until its holder finishes it or a recovery at or after the expiry frees it |
| LeasedRuns.LostLeaseIsRecovered | crates/labrys-control-plane/src/jobs.rs:226-237 | However the run went on, while a claim is open recovery leaves it alone before the expiry and from then on makes the job due again with its old due time and the attempt charged |
| QueueRefinement.EnqueueRefines | crates/labrys-control-plane/src/jobs.rs:40-81 | The table's enqueue is the core enqueue if and only if the key is not held by a finished job |
| QueueRefinement.ClaimRefines | crates/labrys-control-plane/src/jobs.rs:85-131 | Both queues claim the same job if and only if the table takes the first due row of the core order, ties and locked rows included |
| QueueRefinement.UniqueEarliestPicksFirst | crates/labrys-control-plane/src/jobs.rs:85-131 | It does so whenever no row is locked and no due job ties with the pick |
| QueueRefinement.FailRefines | crates/labrys-control-plane/src/jobs.rs:154-194 | The holder's fail is the core fail if and only if the job does not die with a delay out of range |
| QueueRefinement.StepRefines | crates/labrys-control-plane/src/jobs.rs:40-237 | Every step is the same-named core step, a refusal that changes nothing or a return of abandoned jobs, if and only if it is comparable |
| QueueRefinement.RunRefines | crates/labrys-control-plane/src/jobs.rs:40-237 | In every run, recoveries included, both queues show the same jobs all along if and only if every step is comparable |
| QueueRefinement.FinishedKeyIsReachable | crates/labrys-control-plane/src/jobs.rs:40-150 | A run enqueues, claims and completes a key; the queues agree until the key is enqueued again and then part |
| QueueRefinement.TieIsReachable | crates/labrys-control-plane/src/jobs.rs:85-131 | A run with two tied jobs; the queues agree until the table claims the second and then part |
| QueueRefinement.OutOfRangeDeathIsReachable | crates/labrys-control-plane/src/jobs.rs:154-194 | A run in which a job fails twice; the queues agree until its last attempt has a delay out of range and then part |
| Controllers.Reconcile | crates/labrys-core/src/controller.rs:892-1302 | A pass enqueues at most one action, reports its drift, and every reported action is in flight afterwards |
| Controllers.ApplicationPass | crates/labrys-core/src/controller.rs:892-937 | A lagging or unhealthy application gets an update job to the desired version, any other nothing |
| Controllers.ResourcePass | crates/labrys-core/src/controller.rs:993-1065 | A wanted resource not seen present gets a provision job, an unwanted one not deleted a delete job, at its convergence version, any other nothing |
| Controllers.CapabilityPass | crates/labrys-core/src/controller.rs:1113-1142 | A capability that should be ready and is not gets a provision job |
| Controllers.PreviewPass | crates/labrys-core/src/controller.rs:1186-1229 | A preview that should be live gets a provision job if it is not, a verify job if it is unhealthy |
| Controllers.DeploymentPass | crates/labrys-core/src/controller.rs:1271-1302 | A deployment not running the desired artifact gets a rollout job |
| Controllers.WellKeyedKept | crates/labrys-core/src/controller.rs:459-610 | Every job of the queue stays keyed by its own target and action |
| Controllers.DriftExactlyWhen | crates/labrys-core/src/controller.rs:892-1302 | When each kind of drift is reported, in terms of the desired and observed state |
| Controllers.DriftOrder | crates/labrys-core/src/controller.rs:892-1302 | The order of several kinds of drift at once |
| Controllers.MismatchActsExactlyWhen | crates/labrys-core/src/controller.rs:892-1302 | An action means drift, and drift without an action happens exactly for the listed resource states |
| Controllers.PassIsIdempotent | crates/labrys-core/src/controller.rs:892-1302 | A pass whose action is in flight leaves the queue unchanged |
| Controllers.RoundsSettle | crates/labrys-core/src/controller.rs:892-1302 | After one round over any controllers further rounds over them, in any order, add nothing |
| Controllers.VersionsCollideExactlyWhen | crates/labrys-core/src/controller.rs:317-321 | Two versions collide exactly when failures make up a thousand per desired version or both are saturated |
| Controllers.FailureAllowsFreshAttempt | crates/labrys-core/src/controller.rs:314-321 | A new failure gives a new key exactly while the version is not saturated |
| Workers.Worker.Finalize | crates/labrys-control-plane/src/worker.rs:206-284 | Succeeds exactly if the dispatcher and the stores answer, the worker still holds the job and a failed one can be rescheduled; then the last step ends the open claim, the row is succeeded, queued or dead as reported, and holds the redacted reason |
| Workers.Worker.TickOnce | crates/labrys-control-plane/src/worker.rs:160-204 | A pass is a legal run whose first own step is a recovery at its time; it succeeds exactly if its recovery, claim and finalization do, then adds exactly one ended claim or finds nothing to claim, and restores the in-flight count even when it errs |
| Workers.Worker.RunBounded | crates/labrys-control-plane/src/worker.rs:134-142 | The table went by a legal run from the old rows to the new; on success the worker's effective claims and ends in it are exactly its turns, one per pass, counters equal their numbers and add up, and it stops only when it should; an error means that the pass behind the last turn could not succeed |
| WorkerDiaries.ClaimsAndEndsPairUp | crates/labrys-control-plane/src/worker.rs:160-284 | Each effective claim of the worker has exactly one effective end before its next claim, each end one claim, as many as turns |
| WorkerDiaries.EndIsOfClaim | crates/labrys-control-plane/src/worker.rs:206-284 | That end is a complete or fail of the claimed job by the same worker |
| WorkerDiaries.CountersMean | crates/labrys-control-plane/src/worker.rs:160-204 | Each counter is the number of turns that ended that way |
| RateLimiters.RateLimiter.Check | crates/labrys-control-plane/src/auth.rs:495-516 | Prunes when large, then counts and answers as the fixed-window step does |
| RateLimiters.PruningIsInvisible | crates/labrys-control-plane/src/auth.rs:495-516 | For any mix of addresses and nondecreasing clock the answers equal those of a limiter that never prunes |
| RateLimiters.FewerThanTwiceTheLimit | crates/labrys-control-plane/src/auth.rs:486-516 | Of the answers of the pruning limiter, any half-open sixty seconds hold fewer than twice the limit of acceptances per address |
| RateLimiters.TwiceLessOneIsReached | crates/labrys-control-plane/src/auth.rs:486-516 | For every limit a run accepts twice the limit less one in sixty seconds |
| RateLimiters.WaitIsBounded | crates/labrys-control-plane/src/auth.rs:493-516 | Every rejection reports a wait of 1 to 60 seconds, and a full window later the address is served |
| RateLimiters.WaitPointsAtReset | crates/labrys-control-plane/src/auth.rs:495-516 | One second after the reported wait the address is served, and throughout a wait of two seconds or more it is refused |
| RateLimiters.PruningBoundsTheMap | crates/labrys-control-plane/src/auth.rs:495-504 | Over 4096 entries exactly those with an open window stay, below nothing is dropped |
| Verifiers.Verifier.AddStage | crates/labrys-core/src/observability.rs:1192-1216 | Stores a new stage or a failure over a pass, notes disagreements, refuses other repeats |
| Verifiers.DisagreementExactlyWhen | crates/labrys-core/src/observability.rs:1192-1216 | Over outright submissions a disagreement is noted at a stage if and only if some pass and some fail there |
| Verifiers.Verifier.MissingEvidence | crates/labrys-core/src/observability.rs:1240-1259 | Lists, in order, the blocking stages without evidence |
| Verifiers.Verifier.GetVerdict | crates/labrys-core/src/observability.rs:1263-1281 | The least failed blocking stage, else what is missing, else passed |
| Verifiers.FirstFailureByOrder | crates/labrys-core/src/observability.rs:845-860 | Of several failed stages the verdict names the first of deterministic, build, health, schema, browser, human |
| Verifiers.FailureIsPermanent | crates/labrys-core/src/observability.rs:1192-1216 | Over any submissions a failed stage stays failed with its evidence |
| Verifiers.VerdictNeverRecovers | crates/labrys-core/src/observability.rs:1192-1281 | A failed verdict stays failed and its first failure never moves later |
| Verifiers.PassedExactlyWhen | crates/labrys-core/src/observability.rs:1136-1281 | Passed if and only if all six blocking stages are recorded as passed or not applicable |
| Verifiers.AdvisoryNeverMatters | crates/labrys-core/src/observability.rs:1263-1281 | Advisory results never change the verdict |
| Verifiers.OrderNeverMatters | crates/labrys-core/src/observability.rs:1192-1281 | Submissions uniform at every blocking stage, outright ones among them, give the same verdict in every order |
| Verifiers.OrderMattersExactlyWhen | crates/labrys-core/src/observability.rs:1192-1281 | What the verdict reads of a blocking stage is the same in every order if and only if its submissions are uniform |
| Verifiers.VerdictChangesExactlyWhen | crates/labrys-core/src/observability.rs:1192-1281 | The verdict is the same in every order if and only if no submission to a blocking stage fails and all are uniform, or those to the least failing stage are all outright |
| Verifiers.TwoOrdersTwoVerdicts | crates/labrys-core/src/observability.rs:1192-1281 | A failure and a not-applicable result of one stage give an incomplete verdict in one order and a failed one in the other |
| Retention.PruneEvidence | crates/labrys-core/src/observability.rs:1013-1038 | Keeps the newest records and the unexpired older ones in order, and returns the ids of the rest |
| Retention.EvidenceStore.Retain | crates/labrys-core/src/observability.rs:1075-1100 | Prunes, or with a blocking failure drops exactly the expired other records |
| Retention.RetentionSplits | crates/labrys-core/src/observability.rs:1013-1100 | Kept and removed records together are all the records |
| Retention.OnlyExpiredGo | crates/labrys-core/src/observability.rs:1013-1100 | No unexpired record and no blocking failure is ever removed |
| Retention.GoneExactlyWhen | crates/labrys-core/src/observability.rs:1013-1100 | Exactly which records go, by age, outcome, stage and position |
| Retention.NewestEndTheKept | crates/labrys-core/src/observability.rs:1013-1038 | Without a blocking failure the newest records end what is kept, in order |
| Retention.NewestKeptExactlyWhen | crates/labrys-core/src/observability.rs:1075-1100 | With a blocking failure the newest records stay if and only if each is unexpired or itself a failure |
| Retention.NewestCanGo | crates/labrys-core/src/observability.rs:1075-1100 | A concrete store whose newest record is dropped |
| Retention.RetentionComposes | crates/labrys-core/src/observability.rs:1013-1100 | Retaining at t1 and then at t2 leaves what retaining once at t2 leaves |
| Retention.PgEvidenceStore.Retain | crates/labrys-control-plane/src/observability.rs:470-489 | Deletes exactly the ids the core policy removes; rows that arrive meanwhile and blocking failures stay |
| AuditLogs.AuditLog.Append | crates/labrys-core/src/observability.rs:747-775 | Adds the chained record of the redacted entry and keeps a well-formed log well-formed |
| AuditLogs.AuditLog.Verify | crates/labrys-core/src/observability.rs:796-820 | Accepts exactly the well-formed chains and names the first fault otherwise |
| AuditLogs.PrefixAccepted | crates/labrys-core/src/observability.rs:796-820 | Every prefix of an accepted log is accepted |
| AuditLogs.BuiltAccepted | crates/labrys-core/src/observability.rs:747-820 | Every log built by appending is accepted |
| AuditLogs.BuiltHolds | crates/labrys-core/src/observability.rs:747-775 | A built log holds each entry as asked, its detail redacted, numbered from one and linked to the hash before, the first to sixty-four zeros |
| AuditLogs.TamperEvidence | crates/labrys-core/src/observability.rs:688-820 | Two accepted logs with the same last hash are equal or contain two records that collide under the digest |
| AuditTransactions.RoundedIsExact | crates/labrys-control-plane/src/observability.rs:323-382 | The rounded time is the nearest microsecond and the column returns it unchanged |
| AuditTransactions.StoredIsClose | crates/labrys-control-plane/src/observability.rs:323-382 | Unrounded, the column is off by less than a microsecond, and since 2000 never ahead |
| AuditTransactions.RoundingIsNeeded | crates/labrys-control-plane/src/observability.rs:323-382 | Unrounded, a reloaded record verifies only if its time was whole microseconds or the digest cannot tell |
| AuditTransactions.InvKept | crates/labrys-control-plane/src/observability.rs:323-382 | Every step of every transaction keeps the table equal to the log of the commits and pending records valid |
| AuditTransactions.TableIsTheCommittedLog | crates/labrys-control-plane/src/observability.rs:309-382 | In every interleaving, aborts included, the table is gap-free from 1, reloads to the core log of the commits in commit order, and verifies |
| AuditTransactions.LockIsExclusive | crates/labrys-control-plane/src/observability.rs:323-382 | At most one transaction is past the lock |
| AuditTransactions.PgAuditLog.Append | crates/labrys-control-plane/src/observability.rs:323-382 | Under the lock the append is the core append of the rounded entry, or nothing when the guard refuses |
| LegacyCipher.Keystream | crates/labrys-core/src/capability.rs:1218-1237 | The loop returns exactly the requested bytes of the block stream |
| Keystreams.Generate | crates/labrys-core/src/capability.rs:1218-1237 | The loops, for any hash: exactly the requested bytes of the block stream |
| Keystreams.StreamPrefix | crates/labrys-core/src/capability.rs:1218-1237 | A shorter keystream is a prefix of a longer one |
| Keystreams.StreamIsHashes | crates/labrys-core/src/capability.rs:1218-1237 | Every full block is the hash of key, reference and the counters up to it |
| LegacyCipher.SealedByte | crates/labrys-core/src/capability.rs:1197-1237 | Each sealed byte of a full block is the plaintext's against the byte of that hash |
| LegacyCipher.FnvOfA | crates/labrys-core/src/capability.rs:1219-1225 | The hash has the published FNV-1a value on the text a |
| LegacyCipher.LittleEndianIs | crates/labrys-core/src/capability.rs:1229-1233 | Hashes and counters are written least significant byte first |
| LegacyCipher.FirstCounters | crates/labrys-core/src/capability.rs:1229-1233 | The counters start at zero, eight bytes each |
| Utf8.ValidExactlyWhen | crates/labrys-core/src/capability.rs:1207-1216 | Bytes read as text if and only if they encode Unicode scalar values |
| LegacyCipher.LegacyRoundTrip | crates/labrys-core/src/capability.rs:1197-1216 | Opening undoes sealing for every key, reference and plaintext |
| SecretStores.SecretStore.Put | crates/labrys-core/src/capability.rs:828-862 | Stores a next-version envelope that opens to the value and records it; a blank reference changes nothing |
| SecretStores.SecretStore.Inject | crates/labrys-core/src/capability.rs:869-883 | Returns the value exactly to a grant of the same application and environment |
| SecretStores.SecretStore.Rotate | crates/labrys-core/src/capability.rs:918-959 | Reseals one value under the next version, or changes nothing |
| SecretStores.SecretStore.RotateKey | crates/labrys-core/src/capability.rs:969-1033 | All or nothing: succeeds exactly if approved where needed and everything opens, then every reference is resealed under the new key and their number returned |
| SecretStores.SecretStore.Replace | crates/labrys-core/src/capability.rs:1038-1070 | Replaces a known reference, with approval if the new grant is production, and records both entries |
| SecretStores.SecretStore.Delete | crates/labrys-core/src/capability.rs:1073-1093 | Removes exactly that reference and records it |
| Utf8.BlankExactlyWhen | crates/labrys-core/src/capability.rs:976-976 | A text is blank if and only if it encodes white space characters only |
| Approvals.GrantedExactlyWhen | crates/labrys-core/src/capability.rs:976-976 | An approval counts if and only if it is approved and the approver's text is not white space throughout |
| SecretStores.KeyRotationNeedsApproval | crates/labrys-core/src/capability.rs:969-1033 | With a live production secret a key rotation takes effect if and only if it is approved by name |
| SecretStores.RotationNeedsApproval | crates/labrys-core/src/capability.rs:918-959 | The rotation of a production secret takes effect if and only if it is approved by name |
| SecretStores.ReplacementNeedsApproval | crates/labrys-core/src/capability.rs:1038-1070 | A replacement under a production grant takes effect if and only if it is approved by name |
| SecretStores.ApproverIsOnRecord | crates/labrys-core/src/capability.rs:1016-1024 | The audit entry names the approver exactly if the approval counted |
| SecretStores.BlankReferenceIsRefused | crates/labrys-core/src/capability.rs:828-862 | A put changes nothing if and only if the reference is white space throughout |
| SecretStores.FormatExamples | crates/labrys-core/src/capability.rs:1103-1192 | The associated data and the marker, byte by byte, for one reference |
| SecretStores.SecretStore.Redact | crates/labrys-core/src/capability.rs:1097-1109 | Replaces the live values one after another by markers that name their references |
| SecretStores.SecretStore.GuardText | crates/labrys-core/src/capability.rs:1117-1132 | Lets the redacted text out if and only if no live value is readable in it |
| SecretRedaction.StoreRedactionIsComplete | crates/labrys-core/src/capability.rs:1097-1109 | If no live value reaches over an end of a marker, no text shows a live value afterwards if and only if each marker whose value contains no earlier one comes out clean of the replacements behind it |
| SecretRedaction.CleanMarkersShowNothing | crates/labrys-core/src/capability.rs:1097-1109 | In particular if no marker contains a live value |
| SecretRedaction.OneSecretShowsExactlyWhen | crates/labrys-core/src/capability.rs:1097-1109 | In a store with one secret some text still shows it if and only if it can survive its own marker |
| SecretRedaction.MarkerWritesBack | crates/labrys-core/src/capability.rs:1097-1109 | In any store, whatever its values, a marker that does not come out clean leaks from the value it replaces |
| SecretRedaction.LaterMarkerWritesBack | crates/labrys-core/src/capability.rs:1097-1109 | A value spelled out by the reference id of a later secret is written back by the redaction of that secret |
| SecretRedaction.WriteBackIsReachable | crates/labrys-core/src/capability.rs:1097-1109 | Two puts lead to a store whose redaction of a text shows a live value |
| SecretRedaction.RotationKeepsRedaction | crates/labrys-core/src/capability.rs:969-1109 | Key rotation leaves every redaction as it was |
| SecretStores.OneEntryEach | crates/labrys-core/src/capability.rs:1004-1025 | A key rotation writes as many entries as live references, for each reference exactly one, with its new version and the approver |
| SecretStores.RotationKeepsMeaning | crates/labrys-core/src/capability.rs:969-1033 | No grant and reference sees a different inject result; versions rise by one; scopes stay |
| SecretStores.AadInjective | crates/labrys-core/src/capability.rs:1190-1192 | The associated data determines reference and version |
| SecretStores.EnvelopeIsBound | crates/labrys-core/src/capability.rs:1139-1187 | An envelope opens if and only if key, reference and version are those it was sealed for |
| SecretStores.TamperedOpensToNothing | crates/labrys-core/src/capability.rs:1167-1187 | A changed nonce or box and an unknown version open to nothing |
| SecretStores.LegacyOpens | crates/labrys-core/src/capability.rs:1167-1216 | Old envelopes stay readable |
| SecretStores.StepRepresents | crates/labrys-core/src/capability.rs:828-1093 | Every public operation acts on the sealed store as on a plain dictionary |
| SecretStores.ReachableStoreIsDictionary | crates/labrys-core/src/capability.rs:806-1093 | In every reachable store every live reference opens and readers see the plain dictionary |
| SecretStores.UnapprovedReplaceExactlyWhen | crates/labrys-core/src/capability.rs:1047-1052 | A production secret is replaced without approval exactly when the new grant is not production |
| Deployments.MoveEvolves | crates/labrys-core/src/deployment.rs:366-392 | A move in the graph that does not skip the gate keeps identity, image, gate and evidence |
| Deployments.RecordBuildEvolves | crates/labrys-core/src/deployment.rs:402-428 | Build results keep the gate; Deploying always has an image |
| Deployments.RecordHealthEvolves | crates/labrys-core/src/deployment.rs:436-465 | Health reports keep the gate, and a serving deployment goes on serving |
| Deployments.EnteredFrom | crates/labrys-core/src/deployment.rs:269-281 | From which phases each phase can be entered |
| Deployments.HealthByPhase | crates/labrys-core/src/deployment.rs:436-465 | What each health report does in each phase, and when it is accepted |
| Deployments.BuildByPhase | crates/labrys-core/src/deployment.rs:402-428 | What each build result does, with the image it leaves, and when it is accepted |
| Deployments.MarksByPhase | crates/labrys-core/src/deployment.rs:395-480 | From which phases building starts, superseding and rolling back go |
| Rollouts.Rollout.Begin | crates/labrys-core/src/deployment.rs:600-622 | Appends a pending deployment linked to the latest eligible one, only for a production runtime |
| Rollouts.Rollout.StartBuild | crates/labrys-core/src/deployment.rs:395-397 | Changes only the named deployment, exactly if the graph allows |
| Rollouts.Rollout.RecordBuild | crates/labrys-core/src/deployment.rs:402-428 | Changes only the named deployment; keeps the result of a running build even when the image is missing; succeeds exactly for a failed build or one with an image |
| Rollouts.Rollout.RecordHealth | crates/labrys-core/src/deployment.rs:436-465 | Stores the health even when the move is rejected, and succeeds exactly if the move it asks for is in the graph |
| Rollouts.Rollout.Promote | crates/labrys-core/src/deployment.rs:626-647 | Only a healthy deployment becomes current; a healthy predecessor is superseded |
| Rollouts.Rollout.ExecuteRollback | crates/labrys-core/src/deployment.rs:769-841 | Moves traffic exactly if approved, image-level and to a safe target; otherwise nothing changes |
| Rollouts.Rollout.AttachDomain | crates/labrys-core/src/deployment.rs:857-882 | Attaches exactly an approved, routable name to a healthy deployment |
| Rollouts.InvKept | crates/labrys-core/src/deployment.rs:366-882 | Every step keeps the gate invariant |
| Rollouts.TrafficIsGated | crates/labrys-core/src/deployment.rs:366-882 | In every run the current deployment serves, and it and every domain's deployment have an image and a recorded Deploying to Healthy transition |
| Rollouts.LinksEnd | crates/labrys-core/src/deployment.rs:585-622 | In every run rollback links lead to earlier, gated entries, so following them ends |
| Rollouts.PromoteHandsOver | crates/labrys-core/src/deployment.rs:626-647 | A promotion changes only the predecessor, which is superseded unless it had degraded |
| Rollouts.PromotesExactlyWhen | crates/labrys-core/src/deployment.rs:626-647 | A promotion goes through for a healthy deployment and no other |
| Rollouts.PlanExactlyWhen | crates/labrys-core/src/deployment.rs:703-751 | A plan can be made exactly between two deployments of which the target has an image, and flags the source's migration |
| Rollouts.PromotionCanBeUndone | crates/labrys-core/src/deployment.rs:626-841 | In every run a promotion that superseded a healthy predecessor can be planned back and, approved by name, rolled back: the predecessor is healthy and current, the other rolled back, its domains moved |
| Rollouts.RollbackHandsOver | crates/labrys-core/src/deployment.rs:769-841 | A rollback makes the target healthy and current, retires the source, moves its domains and touches nothing else |
| Rollouts.TrafficMovesExactlyWhen | crates/labrys-core/src/deployment.rs:769-841 | With an approval by name and an image plan traffic moves if and only if the target is superseded, rolled back or healthy |
| Rollouts.UnapprovedChangesNothing | crates/labrys-core/src/deployment.rs:769-882 | Without an approval by name neither a rollback nor an attachment changes anything |
| Rollouts.DirectMarkExactlyWhen | crates/labrys-core/src/deployment.rs:478-480 | A direct roll-back mark keeps the invariant if and only if the deployment is gated and not current |
| Rollouts.MarkedFailureBecomesCurrent | crates/labrys-core/src/deployment.rs:769-841 | A marked ungated failure can then be made current by a rollback |
| Rollouts.UngatedFailureIsReachable | crates/labrys-core/src/deployment.rs:402-465 | A run leaves an ungated failure with an image and a plan to roll back to it |

## Left out

- HTTP handlers, typed client, CLI, TLS, DNS, Docker, OCI and PostgreSQL provisioning: input and output over the stores modelled here.
- SQL text, row mapping and serialisation: only the row state and the atomic effect of each statement; the job table's microsecond columns are not rounded here.
- FNV arithmetic of the audit digest and the image digest: every audit theorem holds for any digest of the seven hashed fields; that the digest separates its fields is not modelled.
- Inside SHA-256 and ChaCha20-Poly1305; nonce uniqueness.
- Overflow of counters: attempts, secret versions, request counts and generations are unbounded where they are only incremented; leap seconds are not modelled.
- Redaction.CompleteExactlyWhen: covers secrets that reach over no end of the marker; for one secret that does, `OneSecretLeaksExactlyWhen` is exact, but for lists of several such secrets no exact condition is given.
- SecretRedaction.StoreRedactionIsComplete: covers values that reach over no end of a marker, likewise; `MarkerWritesBack` and `OneSecretShowsExactlyWhen` need no such condition.
- SecretStores.SecretStore.RotateKey: the walk over the sorted map is any order that lists each reference once; wiping plaintexts from memory is not modelled.
- SecretStores.SecretStore.Redact: the envelopes are opened before the first replacement instead of one by one.
- AuditTransactions.TableIsTheCommittedLog: one append per transaction.
- Workers.Worker.RunBounded: resource observations, events and logs appear only as writes that succeed or fail; the endless `run` and `drain` loops are left out.
- Rollouts.Rollout.ExecuteRollback: warnings, log lines and the redaction of reasons are left out; a reason is taken as the text already redacted.
- Rollouts.Rollout.Begin: the record's environment, resources, endpoints and logs are left out.
- Resource lifecycle, health aggregation, `select_rollback_target`, event and usage stores: phase tables, folds and inserts that the modelled components do not depend on.
- Token store, bind policy, configuration, dashboard, agent sessions, workspaces, previews, plugins, runtime adapters and inspectors: validation and records outside the control loop.
