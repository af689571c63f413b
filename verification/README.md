# Verified models of the intrusion-detection services

This project models the parts of an IoT intrusion-detection system where state, time and
interleaving matter, and proves what those parts promise. To verify the whole project with Dafny
4.11: `dafny verify dfyconfig.toml`.

## What is modelled

**Durable ingestion** (`Ingestion*.dfy`). Workers, an enqueuer, an operator and lease recovery share
one job table with an append-only audit log. `IngestionModel` gives each committed transaction as a
function on the tables; `IngestionStore` is the same service as a class whose loops and in-place
updates are proved equal to those functions; `IngestionRuns` interleaves them with crashes and stale
workers. A run is any sequence of events, because a disabled event changes nothing, so a theorem
about all sequences is about all runs.

The guarantees come in two layers:

- *In every run, without any premise.* The effects of an event are all there, each once, or none is
  (`ExactlyOnceEffects`), and once there they never change (`StoredStaysStored`): the existence check
  and the primary key of observations are enough. The log rebuilds every row except a completed_at
  that a revived job keeps (`LogRebuildsRow`), and so it alone says when a claim takes effect and how
  long it waited (`ClaimTakesEffectIff`, `ClaimsWaitForSchedule`), which leases recovery takes back
  (`RecoveryTakesBackIff`), and which jobs an operator can redrive (`RedriveTakesEffectIff`). Each kind
  of failure has its outcome (`PermanentFailureIsFinal`, `TransientFailureIsRetried`), an undisturbed
  attempt completes its job (`UndisturbedAttemptSucceeds`), a job that reads succeeded is published
  (`SucceededIsPublished`), active jobs exceed the limit in two ways only (`CapacityHolds`,
  `LimitHeldIff`), and the workers finish (`WorkersFinish`). All of this holds of stale workers too.
- *In guarded runs* (`IngestionTrail`), the log is also an unbroken chain, a job has at most three
  retries and 36 seconds of back-off between redrives (`AuditTrail`), a published job reads succeeded
  (`SucceededIffPublished`), no job is revived (`GuardedRevivesNothing`), and with a clock that does
  not go back every back-off is honoured (`BackoffIsHonoured`). A run is guarded when
  every outcome that changes the tables finds its row processing. The code does not check that,
  because the outcome transactions look at neither state nor worker_id, and `AuditedIffGuarded` proves
  that it is exactly the missing check: the audit trail of a run holds if and only if the run is
  guarded. `IngestionCounterexamples` has two runs that break the trail, a stale worker
  (`StaleOutcomeRevivesJob`) and a commit whose answer is lost (`LostAnswerRevivesJob`).
  `OnTimeIsGuarded` proves runs guarded in which no outcome commits after its own claim is over, and
  `PunctualRunsAreOnTime` proves that of every deployment whose attempts commit once and within their
  lease and whose clock does not run backwards.

**Transactional outbox** (`Outbox*.dfy`). Claims with a token and an expiry, outcomes guarded by the
token, back-off. Each row's history obeys one grammar (`Fenced`) that states fencing, back-off and
finality together, and determines the row; and it alone says when the row can be claimed
(`ClaimTakesEffectIff`), so a crashed dispatcher delays a row by its lease at most
(`CrashedClaimIsRetaken`).

**Sensor path** (`Sensor*.dfy`). A file follower with a checkpoint and a deduplicating server.
Exactly once is an end-to-end theorem over runs with lost answers and restarts, which cost
repetitions only (`LostAnswerIsRepeated`, `RestartRepeatsHarmlessly`).

**Algorithms.** The Benjamini-Hochberg adjustment against the step-up rule (`BenjaminiHochberg.dfy`),
the CSV reader against a grammar that covers every text (`Csv.dfy`), keyset pagination with its unpadded cursor
(`Pagination.dfy`), packet metrics that must agree with each other (`FlowMetrics.dfy`), the
recoverable directory swap (`DirectorySwap.dfy`), the Wilson interval over the reals (`Wilson.dfy`)
and the replay controller (`Replay.dfy`, `ReplayController.dfy`).

`Wrappers.dfy`, `Text.dfy` and `Finite.dfy` hold options and results, trimming, and sums over maps.

## Where the code differs from what one might expect

The models follow the code.

- docs/system-architecture.md (lines 190-191) says that jobs become dead_letter after the third
  failed attempt. The code schedules a third retry and gives up at the fourth
  (`FourthFailureIsFinal`; backend/app/ingestion/worker.py:149-167).
- The same document (lines 184-185) says that an identical resubmission reports a duplicate. The
  capacity check also runs for a batch that adds nothing, and redrive and revival skip that check, so a
  resubmission can be refused as a full queue: exactly when active jobs exceed the limit
  (`ResubmissionIsIdempotent`), which does happen (`OverfullQueueRefusesResubmission`).
- Active jobs can exceed queue_limit in two ways (`CapacityHolds`): by redrives
  (`OverfullExceedsLimit`) and by failures that are recorded for a job already succeeded or dead and
  revive it (`RevivalExceedsLimit`, a run without any redrive). A run keeps the limit throughout
  exactly when each redrive that commits and each such failure finds room (`LimitHeldIff`); for a
  redrive an operator can check that before the call (`RedriveKeepsLimitIff`).
- A failure recorded after a redrive and before the next claim reads RETRY_DELAYS_SECONDS at -1, the
  longest delay (`RetryDelayIndexIff`; `StaleFailureReadsLastDelay` is such a run).
- A worker that loses the answer to a successful commit records a failure of the job it has just
  published (`LostAnswerRevivesJob`). Nothing is published twice, but the job reads retrying.
- A promotion that starts after an earlier crash left the destination missing deletes the backup, the
  last complete bundle, before it swaps (`DestinationMustBeCompleteIff`,
  `CrashThenPromotionCanLoseBundle`). Training publishes in the same way
  (`PublishingMustStartCompleteIff`).
- The CSV reader trims quoted fields, although RFC 4180 counts spaces as part of a field, and drops
  all-empty records; `RoundTripIff` says exactly which tables come back unchanged.
- resume changes the speed even when it refuses; stop writes "stopped" over any status.
- The refusal "stored payload conflicts with its immutable hash" cannot occur
  (`HashConflictUnreachable`).

## Model

| member | source | states |
|---|---|---|
| IngestionStore.Store.RecordTransition | backend/app/ingestion/service.py:77-106 | an audit record is appended and nothing else changes |
| IngestionStore.Store.FindConflict | backend/app/ingestion/service.py:158-170 | a batch conflicts exactly when an identifier repeats, in the batch or against the table, with another digest |
| IngestionStore.Store.CollectNew | backend/app/ingestion/service.py:172-176 | the ordered dictionary holds each unseen identifier once, at its first position, with its last payload |
| IngestionStore.Store.InsertNew | backend/app/ingestion/service.py:187-206 | one queued job and one audit entry for each new identifier, in order |
| IngestionStore.Store.BuildReplies | backend/app/ingestion/service.py:215-227 | reply i says accepted exactly for the first occurrence of a created identifier, and otherwise reports the stored state |
| IngestionStore.Store.EnqueueObservations | backend/app/ingestion/service.py:132-228 | the whole batch or nothing, with the error (conflict before capacity) or the replies |
| IngestionStore.Store.ClaimNextJob | backend/app/ingestion/service.py:567-601 | takes the oldest claimable job, leases it, counts the attempt and records the claim; with none, changes nothing |
| IngestionStore.Store.SelectLapsed | backend/app/ingestion/service.py:536-543 | lists exactly the processing jobs whose lease has lapsed, each once |
| IngestionStore.Store.RecoverExpiredLeases | backend/app/ingestion/service.py:534-564 | every lapsed job goes back to retrying with one audit entry that names its worker; others are untouched |
| IngestionStore.Store.EvaluateAll | backend/app/ingestion/service.py:654-669 | the report has one line per listed event, and eligible is short exactly when some event is refused |
| IngestionStore.Store.RequeueAll | backend/app/ingestion/service.py:678-710 | each eligible job is queued with a fresh budget and an audit entry that keeps the previous error |
| IngestionStore.Store.RedriveEvents | backend/app/ingestion/service.py:639-712 | the checks in order, then all listed jobs or none; a dry run changes nothing |
| IngestionStore.Store.StageObservation | backend/app/service.py:25-133 | a known event is refused and changes nothing; for an unseen one a failed inference leaves the pending observation alone, which the caller rolls back, and a verdict adds a prediction, an alert exactly for attacks, and the announcements |
| IngestionStore.Store.PersistObservations | backend/app/service.py:171-194 | the whole direct batch is stored exactly when its events are unseen and distinct and every inference succeeds; otherwise nothing is |
| IngestionStore.Store.CommitProcessed | backend/app/ingestion/worker.py:105-135 | observation, prediction, alert, outbox rows, audit entry and job row of one success together |
| IngestionStore.Store.RecordFailure | backend/app/ingestion/worker.py:137-182 | permanent or exhausted failures end in dead letter, others schedule a retry; the row's state and owner are not checked; with no row the error is raised again and nothing changes |
| IngestionStore.Store.ProcessOne | backend/app/ingestion/worker.py:81-183 | one undisturbed call is the run claim, begin, commit, record failure of the interleaved model |
| IngestionAudit.WriteKeepsAudit | backend/app/ingestion/service.py:77-106 | a row written with its audit entry keeps every job's log a chain that rebuilds its row |
| IngestionAudit.EnqueueKeepsAudit | backend/app/ingestion/service.py:188-206 | a new job's log starts at queued and rebuilds it |
| IngestionAudit.ClaimKeepsAudit | backend/app/ingestion/service.py:585-600 | a claim continues the chain and counts one more attempt |
| IngestionAudit.RecoverKeepsAudit | backend/app/ingestion/service.py:544-562 | recovery of a processing job continues the chain and is counted against the attempts |
| IngestionAudit.SucceedKeepsAudit | backend/app/ingestion/worker.py:119-135 | success of a processing job continues the chain and is recorded once |
| IngestionAudit.FailKeepsAudit | backend/app/ingestion/worker.py:143-182 | a failure of a processing job continues the chain and stays within three retries and 36 seconds of back-off |
| IngestionAudit.RedriveKeepsAudit | backend/app/ingestion/service.py:679-710 | a redrive of a dead job continues the chain and starts a new budget |
| IngestionRuns.HeldRow | backend/app/ingestion/service.py:585-600 | a claim that is not over shows in the row: processing, for this worker, at least one attempt |
| IngestionRuns.StageAllTables | backend/app/service.py:171-194 | a direct batch leaves jobs, audit log and outbox alone |
| IngestionRuns.NextKeepsSound | backend/app/ingestion/worker.py:81-183 | every transaction whose outcome is on time keeps all logs chained and all claims visible |
| IngestionRuns.RunIsSound | backend/app/ingestion/worker.py:186-217 | so does every interleaving of workers, crashes, recoveries, enqueues and redrives that meets the lease premise |
| IngestionEffects.StageKeepsEffects | backend/app/service.py:25-99 | storing an unseen event keeps one observation and one prediction per event, and an alert exactly for attacks |
| IngestionEffects.StageAllKeepsEffects | backend/app/service.py:171-194 | a direct batch stores each of its events once |
| IngestionEffects.SucceedKeepsEffects | backend/app/ingestion/worker.py:105-135 | a success adds the effects of its own event once |
| IngestionEffects.QuietUnlessStoring | backend/app/ingestion/worker.py:137-182 | every other step, a failed attempt included, stores no result, publishes nothing and records no success |
| IngestionEffects.SuccessIsAtomic | backend/app/ingestion/worker.py:105-135 | a success commit that stores results takes its event from no effects at all to observation, prediction, alert, announcements and recorded success, each once, and changes no other event's effects |
| IngestionEffects.NextKeepsEffects | backend/app/ingestion/worker.py:93-135 | every single step, stale workers included, keeps all events' effects exactly once |
| IngestionEffects.ExactlyOnceEffects | backend/app/ingestion/worker.py:93-135 | in every run, without any premise, an event has no stored rows at all, or one observation, one prediction, an alert exactly for an attack, and, exactly when a worker stored them, its announcements and one recorded success |
| IngestionEffects.StoredStaysStored | backend/app/ingestion/worker.py:93-182 | in every run, without any premise, an event that has its effects keeps exactly those, whatever retries, stale workers, redrives and lost answers follow |
| IngestionTrail.SucceededIsPublished | backend/app/ingestion/worker.py:111-135 | in every run, a job that reads succeeded has its prediction.created row |
| IngestionTrail.SucceededIffPublished | backend/app/ingestion/worker.py:111-135 | in a guarded run a job reads succeeded exactly when its prediction.created row exists |
| IngestionLedger.WriteKeepsBooks | backend/app/ingestion/service.py:77-106 | a row written with its entry, in whatever state it was found, leaves every job's log consistent with its row |
| IngestionLedger.FailKeepsBooks | backend/app/ingestion/worker.py:137-182 | a failure commit, stale or not, keeps the log consistent with the row, except for completed_at |
| IngestionLedger.SucceedKeepsBooks | backend/app/ingestion/worker.py:119-135 | so does a success commit |
| IngestionLedger.NextKeepsBooks | backend/app/ingestion/worker.py:81-183 | so does every step of every interleaving |
| IngestionLedger.LogRebuildsRow | backend/app/ingestion/service.py:77-106 | in every run, without any premise, every entry is a legal transition and the log rebuilds the row's state, attempts, redrives, owner, lease and error evidence; attempts exceed four only by lease recoveries |
| IngestionTrail.AuditTrail | backend/app/ingestion/service.py:77-106 | in a guarded run every job's log is an unbroken chain of legal transitions that rebuilds the row, completed_at included; at most 3 retries and 36 s of back-off between redrives |
| IngestionTrail.AuditedIffGuarded | backend/app/ingestion/worker.py:119-182 | the audit trail of a run holds exactly when every outcome that changed the tables found its row processing, the check that the code leaves out |
| IngestionTrail.StepKeepsAudit | backend/app/ingestion/worker.py:81-183 | every step whose outcome finds its row processing keeps all logs chained |
| IngestionTrail.OnTimeIsGuarded | backend/app/ingestion/worker.py:119-182 | outcomes that commit before their claim is over always find their row processing |
| IngestionPolicy.ClaimsAreExclusive | backend/app/ingestion/service.py:567-601 | with outcomes on time, two workers never hold claims of one job that are not over |
| IngestionPolicy.RetryDelayIndexIff | backend/app/ingestion/worker.py:166-181 | in every run a scheduled retry reads its delay at an index from 0 to 2 exactly when the job was claimed since its last redrive, and otherwise at -1, which is the longest delay |
| IngestionPolicy.RetryDelayIndexInRange | backend/app/ingestion/worker.py:166-181 | in every run the index is from 0 to 2 when the failing row is processing |
| IngestionPolicy.FourthFailureIsFinal | backend/app/ingestion/worker.py:149-182 | in every run a failure commit is final exactly when the failure is permanent or the job was claimed four times since its last redrive; otherwise it schedules a retry |
| IngestionTrail.FailureAuditedIff | backend/app/ingestion/worker.py:138-182 | a failure commit keeps the audit trail exactly when the row is still processing: the check the code leaves out |
| IngestionTrail.SuccessAuditedIff | backend/app/ingestion/worker.py:119-135 | the same for a success commit |
| IngestionCounterexamples.StaleOutcomeRevivesJob | backend/app/ingestion/worker.py:137-182 | a concrete run in which a worker whose claim was recovered fails late: a published job goes back to retrying and the chain breaks |
| IngestionCounterexamples.LostAnswerRevivesJob | backend/app/ingestion/worker.py:133-182 | a concrete run in which a commit succeeds and its answer is lost: the worker records a failure of the job it published |
| IngestionPolicy.EnqueueCounts | backend/app/ingestion/service.py:177-206 | an enqueue that changes the table leaves at most queue_limit active jobs, and no redrive is counted |
| IngestionPolicy.RedriveEventsCounts | backend/app/ingestion/service.py:698-707 | a redrive that commits adds one active job and one counted redrive for each listed event |
| IngestionPolicy.OutcomeCounts | backend/app/ingestion/worker.py:119-182 | an outcome adds an active job exactly when it revives one: a retryable failure recorded for a succeeded or dead job with at most three attempts |
| IngestionPolicy.StepCounts | backend/app/ingestion/worker.py:81-183 | for every step of every run: redrives and revivals add active jobs, by these numbers, and nothing else does beyond the limit; only redrives are counted as such |
| IngestionPolicy.RedriveKeepsLimitIff | backend/app/ingestion/service.py:678-711 | a redrive that commits leaves the table within queue_limit exactly when active jobs plus listed events were within it, which can be checked before the call |
| IngestionPolicy.LimitHeldIff | backend/app/ingestion/service.py:177-185 | a run keeps active jobs within queue_limit at every point exactly when each redrive that committed and each failure that revived a job found room |
| IngestionCounterexamples.OverfullExceedsLimit | backend/app/ingestion/service.py:678-711 | a concrete run that ends with two active jobs under a limit of one, by a redrive |
| IngestionCounterexamples.RevivalExceedsLimit | backend/app/ingestion/worker.py:166-182 | another one without any redrive: a success whose answer is lost, a new job in its place, and the failure that revives the first |
| IngestionCounterexamples.StaleFailureReadsLastDelay | backend/app/ingestion/worker.py:166-181 | a concrete run in which a worker overtaken by a redrive schedules a retry with index -1 |
| IngestionPolicy.CapacityHolds | backend/app/ingestion/service.py:177-185 | in every run active jobs never exceed queue_limit plus the sum of redrive_count plus the number of revivals |
| IngestionPolicy.GuardedRevivesNothing | backend/app/ingestion/worker.py:137-182 | a guarded run has no revivals, so only redrives exceed queue_limit |
| IngestionPolicy.WorkerStepUsesWork | backend/app/ingestion/worker.py:81-183 | every worker step that changes anything, stale or not, lowers the work left in the whole table |
| IngestionPolicy.WorkersFinish | backend/app/ingestion/worker.py:211-215 | once enqueue, redrive and recovery stop, the workers of any run change the state at most that many times |
| IngestionLeases.RecoveryStaysTimely | backend/app/ingestion/service.py:534-564 | recovery takes back only claims whose lease has ended |
| IngestionLeases.PunctualRunsAreOnTime | backend/app/ingestion/service.py:534-601 | if the clock never runs backwards and every outcome commits once, before its lease ends, outcomes are on time |
| IngestionRequests.EnqueueInsertsSet | backend/app/ingestion/service.py:145-206 | an accepted batch adds exactly one job, with one audit entry, per distinct unseen identifier and leaves the table within the limit; a refused one changes nothing |
| IngestionRequests.AcceptedRepliesAreNewJobs | backend/app/ingestion/service.py:215-227 | the accepted replies name exactly the jobs created, in order |
| IngestionRequests.RepliesTellLog | backend/app/ingestion/service.py:215-227 | in every run a reply says accepted exactly for the first item of an event never enqueued before, and otherwise the state that the event's log ended in |
| IngestionRequests.NextKeepsJobs | backend/app/ingestion/service.py:188-197 | no step removes a job or rewrites its payload, digest, batch or creation time |
| IngestionRequests.HashConflictUnreachable | backend/app/ingestion/service.py:622-623 | in every run the stored digest is the stored payload's, so that refusal never happens |
| IngestionRequests.ResubmissionIsIdempotent | backend/app/ingestion/service.py:158-228 | a batch once accepted changes nothing when submitted again later; it yields duplicates only, exactly when active jobs are within the limit |
| IngestionCounterexamples.OverfullQueueRefusesResubmission | backend/app/ingestion/service.py:182-185 | in that run the batch once accepted is refused as queue full when submitted again |
| IngestionRequests.RedriveAllOrNothing | backend/app/ingestion/service.py:639-712 | all listed jobs move from dead letter to queued with one entry each, or nothing changes; a job with stored results is never requeued |
| IngestionRequests.DryRunPredicts | backend/app/ingestion/service.py:669-676 | a dry run changes nothing and reports all eligible exactly when the live call commits |
| IngestionSchedule.ClaimTakesEffectIff | backend/app/ingestion/service.py:567-601 | in every run a free worker claims a job exactly when the last entry of its log left it waiting and the delay of that entry is over |
| IngestionSchedule.ClaimsWaitForSchedule | backend/app/ingestion/service.py:575 | in every run a claim directly follows the entry that left the job waiting and comes no earlier than the time of that entry plus its delay |
| IngestionSchedule.BackoffIsHonoured | backend/app/ingestion/worker.py:166-181 | in a guarded run whose clock does not go back no claim comes before the end of any back-off scheduled earlier |
| IngestionSchedule.RecoveryTakesBackIff | backend/app/ingestion/service.py:534-564 | in every run recovery takes back exactly the jobs whose last entry is a claim older than the lease |
| IngestionAttempts.UndisturbedAttemptSucceeds | backend/app/ingestion/worker.py:81-136 | from any point of any run an undisturbed attempt at a due job with no stored observation completes it, with exactly the results and announcements of its verdict |
| IngestionAttempts.UndisturbedAttemptFails | backend/app/ingestion/worker.py:93-137 | otherwise the worker records the first cause, failed check, stored observation or failed inference, and has stored nothing |
| IngestionAttempts.CommitWithoutAnswer | backend/app/ingestion/worker.py:134-137 | a lost answer stores the same as a known one and a rejected commit nothing; both lead to a recorded failure |
| IngestionAttempts.OvertakenAttemptGivesUp | backend/app/ingestion/worker.py:95-97 | a worker whose job is not processing when it begins gives up without a trace |
| IngestionAttempts.DirectBatchIsStored | backend/app/service.py:171-194 | in every run a direct batch of distinct unseen events stores each verdict's results and announces nothing; any other batch changes nothing |
| IngestionOutcomes.PermanentFailureIsFinal | backend/app/ingestion/worker.py:33-46 | a permanent or validation failure ends in dead letter at once, at every attempt count and in every state, with its own error code in row and log |
| IngestionOutcomes.FailureIsOneEntry | backend/app/ingestion/worker.py:143-182 | a failure commit appends exactly one audit entry |
| IngestionOutcomes.TransientFailureIsRetried | backend/app/ingestion/worker.py:33-46 | in every run a timeout or other error is retried exactly up to the third claim since the last redrive, after 1, 5 and 30 seconds, and then exhausts the retries, with its own error code in row and log |
| IngestionRedrives.RefusalFollowsLog | backend/app/ingestion/service.py:604-636 | in every run the refusal of an event follows from its last log entry, its stored results and the compatibility check; a dead job never has a live lease, a broken digest or an observation without a prediction |
| IngestionRedrives.RedriveTakesEffectIff | backend/app/ingestion/service.py:639-712 | in every run a live redrive changes the tables exactly when operator and reason are given, events are listed, each once, and each is a dead job without stored results whose retries ran out or whose extractor is accepted by now |
| IngestionRedrives.RedriveErrorIs | backend/app/ingestion/service.py:648-673 | a refused redrive names the first check that failed |
| OutboxModel.RetryDelayIsCappedDoubling | backend/app/ingestion/outbox.py:137-138 | the delays are 1, 2, 4, 8, 16 and then 30 seconds: the cap of the exponent never shows |
| OutboxModel.ClaimExtends | backend/app/ingestion/outbox.py:31-67 | a claim of an available row extends its history by the fencing grammar |
| OutboxModel.PublishExtends | backend/app/ingestion/outbox.py:83-105 | so does a publication by the token's owner |
| OutboxModel.FailureExtends | backend/app/ingestion/outbox.py:108-134 | so does a failure by the token's owner, with the delay of the row's current count |
| OutboxStore.Store.ClaimOne | backend/app/ingestion/outbox.py:43-80 | reserves the first available row by creation time and identifier under the new token, or finds none available |
| OutboxStore.Store.MarkPublished | backend/app/ingestion/outbox.py:83-105 | takes effect exactly for the owner of an unpublished row that exists |
| OutboxStore.Store.RecordFailure | backend/app/ingestion/outbox.py:108-134 | takes effect exactly for the owner of an unpublished row that exists, and sets the back-off |
| OutboxStore.Store.DispatchOne | backend/app/ingestion/outbox.py:141-170 | undisturbed, one call records one outcome and releases the claim |
| OutboxRuns.NextKeepsSound | backend/app/ingestion/outbox.py:43-134 | every step of any dispatcher keeps every row equal to what its history implies |
| OutboxRuns.OutboxIsFenced | backend/app/ingestion/outbox.py:31-134 | in every run: an outcome directly follows the claim with its token, a claim waits for expiry or back-off, nothing follows publication; publish_attempts counts outcomes; a failure waits 1, 2, 4, 8, 16 and then 30 seconds by that count, none after a cancellation |
| OutboxRuns.NoTwoLiveClaims | backend/app/ingestion/outbox.py:31-80 | no two unexpired claims of one row coexist |
| OutboxRuns.NoClaimBeforeBackoffEnds | backend/app/ingestion/outbox.py:31-40 | no later claim happens before next_attempt_at of any failure |
| OutboxRuns.OnlyLatestClaimantDecides | backend/app/ingestion/outbox.py:83-134 | an outcome changes the row exactly for the dispatcher whose claim is the latest entry |
| OutboxRuns.StaleOutcomeIsNoOp | backend/app/ingestion/outbox.py:83-134 | a dispatcher that lost its claim changes nothing |
| OutboxRuns.PublishedStaysPublished | backend/app/ingestion/outbox.py:86-105 | a published row never changes again |
| OutboxRuns.PublishedWasBroadcast | backend/app/ingestion/outbox.py:151-170 | published implies that a broadcast of that row's payload had returned |
| OutboxRuns.TimelyOutcomeTakesEffect | backend/app/ingestion/outbox.py:223-246 | an outcome recorded before the claim expires always takes effect |
| OutboxRuns.ClaimsLastForTheLease | backend/app/ingestion/outbox.py:61-70 | every claim expires one lease after it was made |
| OutboxRuns.ClaimTakesEffectIff | backend/app/ingestion/outbox.py:31-80 | in every run a free dispatcher claims a row exactly when its history ends in no publication, no unexpired claim and no unfinished back-off |
| OutboxRuns.CrashedClaimIsRetaken | backend/app/ingestion/outbox.py:31-80 | after any crash a claimed row can be claimed again once the lease has passed |
| OutboxRuns.NewRowIsUnheld | backend/app/ingestion/outbox.py:31-40 | a new row can be claimed at once |
| OutboxRuns.UnpublishedIsRetaken | backend/app/ingestion/outbox.py:31-80 | whatever its history, a row that is not published can be claimed after the longer of the lease and thirty seconds |
| OutboxRuns.UndisturbedDispatchPublishes | backend/app/ingestion/outbox.py:141-170 | an undisturbed dispatch of a row that can be claimed publishes it and delivers its payload |
| OutboxRuns.UndisturbedFailureIsRecorded | backend/app/ingestion/outbox.py:141-170 | and a broadcast that raises is recorded with the back-off of the row's count, none after a cancellation |
| OutboxRuns.DeliveryInTimeTakesEffect | backend/app/config.py:163-186 | with validated timeouts an outcome less than a second after the longest delivery wait takes effect |
| SensorStore.EveFollower.Read | backend/app/ingestion/suricata_agent.py:54-75 | returns the records of whole lines from the offset, at most limit, stopping early only when no complete line is left; a shorter file restarts at zero |
| SensorStore.EveFollower.Commit | backend/app/ingestion/suricata_agent.py:77-82 | offset and checkpoint become the given position |
| SensorStore.SensorApi.IngestSuricata | backend/app/api/suricata.py:196-297 | the batch is ingested, and the receipt splits its alerts into new and known ones |
| SensorModel.RecordsConcat | backend/app/ingestion/suricata_agent.py:61-75 | reading complete lines in pieces gives the same records as reading them at once |
| SensorModel.IngestKeepsSound | backend/app/api/suricata.py:219-292 | one POST stores exactly the identities it carries besides those stored, each once with one outbox row, and keeps the counters exact |
| SensorModel.RedeliveryAddsNothing | backend/app/api/suricata.py:226-229 | a batch delivered again stores no alert and publishes nothing |
| SensorRuns.EventsSeenCountsPosted | backend/app/api/suricata.py:217 | events_seen counts every record that the sensor has sent, repetitions included |
| SensorRuns.NextKeepsSound | backend/app/ingestion/suricata_agent.py:118-150 | appends, reads, lost answers, commits and restarts keep positions at line ends and behind what the server has |
| SensorRuns.AlertsStoredExactlyOnce | backend/app/ingestion/suricata_agent.py:118-150 | in every crashing run the stored alerts are exactly the identities of the delivered prefixes, each once with one outbox row; alerts_accepted is their number per sensor |
| SensorRuns.CheckpointNeverPassesUndelivered | backend/app/ingestion/suricata_agent.py:137-148 | the checkpoint never passes an undelivered record and never stands inside a line |
| SensorRuns.CheckpointedAlertsAreStored | backend/app/ingestion/suricata_agent.py:77-82 | every alert before the checkpoint is stored |
| SensorRuns.ForwardingAdvances | backend/app/ingestion/suricata_agent.py:118-150 | an undisturbed round with a complete line to read moves the checkpoint past it and stores its alerts |
| SensorRuns.LostAnswerIsRepeated | backend/app/ingestion/suricata_agent.py:118-150 | a lost answer costs a repetition that stores nothing |
| SensorRuns.RestartRepeatsHarmlessly | backend/app/ingestion/suricata_agent.py:48-75 | a restart reads from the checkpoint, or from the start if it cannot be read, and repeating delivered lines stores nothing |
| BenjaminiHochberg.ScaleRanked | backend/app/detection/drift.py:25-26 | ranked values times n over rank |
| BenjaminiHochberg.AccumulateMinimum | backend/app/detection/drift.py:27 | each element becomes the minimum of itself and all after it |
| BenjaminiHochberg.AdjustArray | backend/app/detection/drift.py:24-29 | the adjusted values are scattered back to input order |
| BenjaminiHochberg.Adjust | backend/app/detection/drift.py:17-30 | empty input, the range error, and otherwise every rank's adjusted value in input order |
| BenjaminiHochberg.StepUpIffAdjusted | backend/app/detection/drift.py:17-30 | for every level, q <= alpha exactly when the step-up rule rejects that rank |
| BenjaminiHochberg.AdjustedInRange | backend/app/detection/drift.py:26-29 | p <= q <= 1 |
| BenjaminiHochberg.AdjustedIsMonotone | backend/app/detection/drift.py:27 | larger p-values never get smaller q-values |
| BenjaminiHochberg.OutputIndependentOfSort | backend/app/detection/drift.py:24-30 | the output in input order is the same however the sort breaks ties |
| BenjaminiHochberg.DriftIsStepUpDecision | backend/app/detection/drift.py:156-158 | a feature drifts exactly when its distance exceeds its threshold and the step-up rule at 0.05 rejects it |
| Csv.ReadRecords | frontend/src/utils.ts:28-81 | the character loop computes the records, or the first of its three errors |
| Csv.ParseCsv | frontend/src/utils.ts:28-95 | header, uniqueness and length checks, then one row per record with numeric cells |
| Csv.TrimIs | frontend/src/utils.ts:34-35 | trimming takes all white space from both ends and nothing else |
| Csv.ShapeDecides | frontend/src/utils.ts:45-81 | from the lines and fields of a text, plain or quoted in any mix, with any of the line breaks, the reader returns the trimmed fields of the records that are not all empty, or the error of the fault that ends them |
| Csv.EveryTextHasShape | frontend/src/utils.ts:45-81 | every text at all is well formed or has exactly such a fault |
| Csv.ReadsIff | frontend/src/utils.ts:45-81 | so the reader answers exactly what the grammar says of a text |
| Csv.UnterminatedIff | frontend/src/utils.ts:80 | the unterminated quote is reported exactly when an opening quote, after white space at most, is followed by doubled quotes only |
| Csv.TextAfterQuoteIff | frontend/src/utils.ts:66-68 | text after a closing quote is reported exactly when a character that is neither white space nor a comma follows a quoted field |
| Csv.QuoteInsideFieldIff | frontend/src/utils.ts:72-73 | a quote inside an unquoted field is reported exactly when text that is not blank stands before it |
| Csv.MarkIsDropped | frontend/src/utils.ts:45 | one leading byte order mark makes no difference |
| Csv.RoundTripIff | frontend/src/utils.ts:34-81 | of any text that lays a table out by section 2 of RFC 4180, quoted or not, the reader returns the trimmed records that are not all empty; it gives the table back exactly when its fields are trimmed and no record is all empty |
| Csv.EveryTableHasText | frontend/src/utils.ts:45-81 | every table whose records have a field has such a text |
| Csv.ParsedRowsHold | frontend/src/utils.ts:83-94 | one row per record after the first, each with exactly the headers as keys and each value, a number if it reads as one, under the header of its column |
| Csv.ParseErrorIs | frontend/src/utils.ts:83-94 | too few records, an empty or repeated header, or a record of another length, in this order |
| Pagination.PaddingIsRedundant | backend/app/ingestion/service.py:118-125 | stripping '=' and restoring it from the length loses nothing (sections 3.2 and 5 of RFC 4648) |
| Pagination.CursorRoundTrip | backend/app/ingestion/service.py:118-129 | a cursor decodes to the key it was made from |
| Pagination.PageAtCursor | backend/app/ingestion/service.py:315-360 | the page of a row's cursor is the next limit rows of the plain listing, with a next cursor exactly when more follow and the total of the whole listing |
| Pagination.RemainingIsSuffix | backend/app/ingestion/service.py:315-325 | what a cursor leaves is a suffix of the plain listing, also when newer rows have arrived |
| Pagination.WalkRefinesListing | backend/app/ingestion/service.py:292-363 | following next_cursor until null gives the plain listing, each row once, in a bounded number of pages, also while newer rows arrive |
| Pagination.WalkSurvivesInsertions | backend/app/ingestion/service.py:292-363 | while rows arrive anywhere in the order, a walk shows no row twice and only matching rows; when it ends every matching row of its first table has been shown exactly once; it ends at the latest when its pages hold the final listing |
| Pagination.CursorRefusedIff | backend/app/ingestion/service.py:315-316 | a cursor is refused exactly when it is given, not empty, and does not decode |
| Pagination.ListingIsSorted | backend/app/ingestion/service.py:326-332 | the plain listing holds each matching row exactly as often as the table, newest first |
| DirectorySwap.Directories.SwapIn | machine-learning/src/iot_ids_ml/promotion.py:161-173 | the swap with its exception handler, operation by operation |
| DirectorySwap.Directories.PromoteBundle | machine-learning/src/iot_ids_ml/promotion.py:144-176 | staging, verification, swap, rollback and clean-up |
| DirectorySwap.SwapIsSafe | machine-learning/src/iot_ids_ml/promotion.py:161-173 | from a verified staging directory, at every point a complete old or new bundle is in place or the old one is in the backup |
| DirectorySwap.PromotionIsSafe | machine-learning/src/iot_ids_ml/promotion.py:143-176 | the same for a whole promotion, whatever fails; it ends complete unless the move in and the rollback rename both fail; success leaves only the new bundle |
| DirectorySwap.PublishingIsSafe | machine-learning/src/iot_ids_ml/training.py:84-98 | the training variant gives the same guarantee |
| DirectorySwap.PromotionSucceedsIff | machine-learning/src/iot_ids_ml/promotion.py:144-176 | a promotion reports success exactly when every operation that it needs succeeds |
| DirectorySwap.PromotionEnds | machine-learning/src/iot_ids_ml/promotion.py:161-176 | a promotion that moved the old directory out ends rolled back without a trace, or complete with what is left of the backup |
| DirectorySwap.DestinationMustBeCompleteIff | machine-learning/src/iot_ids_ml/promotion.py:161-168 | a complete bundle survives at every point of every promotion exactly when the destination is complete at the start |
| DirectorySwap.PublishingMustStartCompleteIff | machine-learning/src/iot_ids_ml/training.py:84-98 | the same for the training variant |
| DirectorySwap.PublishingAfterLoss | machine-learning/src/iot_ids_ml/training.py:84-98 | without a complete destination the training variant also deletes the backup before the swap |
| DirectorySwap.CrashThenPromotionCanLoseBundle | machine-learning/src/iot_ids_ml/promotion.py:161-168 | that state is reached: a promotion that starts complete can stop between its renames, and the next one then deletes the last bundle |
| Wilson.BoundsInRange | machine-learning/src/iot_ids_ml/native_compatibility.py:22-30 | the unclamped bounds already satisfy 0 <= lower <= k/n <= upper <= 1 |
| Wilson.EndsAreExact | machine-learning/src/iot_ids_ml/native_compatibility.py:28-29 | the special cases at 0 and n are what exact arithmetic gives |
| Wilson.ClampingChangesNothing | machine-learning/src/iot_ids_ml/native_compatibility.py:19-30 | the result is center plus and minus margin for all counts, refused exactly for impossible ones |
| Wilson.IntervalMirrors | machine-learning/src/iot_ids_ml/native_compatibility.py:19-30 | the interval of n - k is the mirror image of that of k |
| Wilson.IntervalInvertsScoreTest | machine-learning/src/iot_ids_ml/native_compatibility.py:19-30 | a proportion lies in the interval exactly when the score test does not reject it |
| FlowMetrics.Accumulator.constructor | backend/app/features/nfstream_extractor.py:108-121 | nothing recorded |
| FlowMetrics.Accumulator.RecordDirection | backend/app/features/nfstream_extractor.py:128-135 | only the packet's direction gets a payload, a header, a gap and a last time |
| FlowMetrics.Accumulator.RecordPacket | backend/app/features/nfstream_extractor.py:124-136 | the packet is appended and every list stays determined by the packets |
| FlowMetrics.RecordedWholeFlow | backend/app/features/nfstream_extractor.py:129-134 | the flow lists are the gaps between consecutive packets and the last time |
| FlowMetrics.RecordedPerDirection | backend/app/features/nfstream_extractor.py:128-135 | each direction's lists are those of its own packets alone, however the directions interleave |
| FlowMetrics.PeriodMetrics | backend/app/features/nfstream_extractor.py:157-170 | active periods and idle gaps as cut at large gaps |
| FlowMetrics.ActiveAndIdleMakeUpFlow | backend/app/features/nfstream_extractor.py:157-170 | active plus idle time equals the inter-arrival total, which is last minus first time; one more period than gaps |
| FlowMetrics.PeriodsAreRunSpans | backend/app/features/nfstream_extractor.py:157-181 | active periods are the spans of the runs that the subflow program cuts |
| FlowMetrics.GroupRuns | backend/app/features/nfstream_extractor.py:176-180 | the grouping loop computes the runs |
| FlowMetrics.RunsAreMaximal | backend/app/features/nfstream_extractor.py:199-203 | no large gap inside a run and one between every two runs |
| FlowMetrics.RunsFlatten | backend/app/features/nfstream_extractor.py:199-203 | the runs put together are the packets |
| FlowMetrics.RunsCountGaps | backend/app/features/nfstream_extractor.py:176-181 | one more subflow than gaps over the limit |
| FlowMetrics.SubflowMetrics | backend/app/features/nfstream_extractor.py:173-192 | count is one more than the gaps over a second; averages times count are the per-direction totals |
| FlowMetrics.SelectCarrying | backend/app/features/nfstream_extractor.py:198 | the direction's packets with payload |
| FlowMetrics.QualifyingRuns | backend/app/features/nfstream_extractor.py:204-206 | qualifying runs are runs of at least four packets and hold no more bytes than all runs |
| FlowMetrics.QualifyingAreLong | backend/app/features/nfstream_extractor.py:204 | exactly the runs of at least four packets qualify |
| FlowMetrics.CarryingHasAllBytes | backend/app/features/nfstream_extractor.py:198-205 | packets without payload add no bytes to the direction |
| FlowMetrics.BulkMetrics | backend/app/features/nfstream_extractor.py:195-208 | bytes and packets of exactly the maximal runs of at least four payload packets, and their rate over the time that those runs span |
| FlowMetrics.NoMorePeriodsThanSubflows | backend/app/features/nfstream_extractor.py:40-41 | the wider activity gap never gives more periods than subflows |
| Replay.MatchingRows | backend/app/ingestion/dataset_replay.py:176-188 | the generator emits take(limit, filter(scenario, drop(offset, rows))); an unknown scenario fails exactly when a row is examined |
| Replay.ScenarioSelects | backend/app/ingestion/dataset_replay.py:40-50 | a selection holds each row that its scenario asks for as often as the dataset does, and no other |
| Replay.SelectionContinues | backend/app/ingestion/dataset_replay.py:176-188 | what is selected from an offset on continues what the rows before it contribute |
| Replay.SelectionIsLimited | backend/app/ingestion/dataset_replay.py:176-188 | a limit keeps so many rows from the front |
| Replay.SelectionOutside | backend/app/ingestion/dataset_replay.py:176-182 | an offset past the end selects nothing, and a negative one is none |
| Replay.StartTakesEffectIff | backend/app/ingestion/dataset_replay.py:79-164 | a start takes effect exactly while no background task is alive and, for a dataset, with a file and a known scenario; it announces what it will emit |
| Replay.DatasetTotal | backend/app/ingestion/dataset_replay.py:190-191 | the announced total is the number of rows that will be emitted, or the error of an unknown scenario |
| Replay.TaskKeepsSound | backend/app/ingestion/dataset_replay.py:207-229 | each uninterrupted segment of the background task keeps counter, storage and status consistent |
| Replay.NextKeepsSound | backend/app/ingestion/dataset_replay.py:207-249 | so does every control call and every worker-thread completion |
| Replay.CounterFollowsStorage | backend/app/ingestion/dataset_replay.py:207-229 | in every interleaving stored rows are a prefix of the announced ones, processed <= stored <= processed + 1, processed <= total, and completed implies equality |
| Replay.StatusTellsTheTruth | backend/app/ingestion/dataset_replay.py:223-249 | the status is running or paused exactly while an uncancelled background task is alive, and paused only while it may not begin another row |
| Replay.PauseLetsAtMostOneFinish | backend/app/ingestion/dataset_replay.py:231-235 | after a pause at most the one observation in flight is still stored until a resume or a new start |
| Replay.StopLetsOnlyTheRunningWriteFinish | backend/app/ingestion/dataset_replay.py:245-249 | after a stop only a transaction already running can still store its row |
| Replay.RunningReplayFinishes | backend/app/ingestion/dataset_replay.py:207-223 | left alone a replay rests after at most four steps a row and one more, and never while it reads running |
| Replay.SmoothReplayCompletes | backend/app/ingestion/dataset_replay.py:207-223 | from any point of any run, a running replay whose operations succeed and that no call disturbs stores and counts all it announced and ends completed |
| Replay.SegmentFailsIff | backend/app/ingestion/dataset_replay.py:207-229 | in every run a segment fails the replay exactly when the next observation could not be had, the transaction stored nothing or the broadcast raised, and says which |
| Replay.FailedWriteIsNoticed | backend/app/ingestion/dataset_replay.py:211-229 | a transaction that rolls back stores nothing and fails the replay at the next segment |
| Replay.SleepsIff | backend/app/ingestion/dataset_replay.py:218-221 | the task sleeps exactly between two observations of a replay with an interval |
| Replay.LateWriteStoresItsRow | backend/app/ingestion/dataset_replay.py:211-217 | a transaction that outlives its replay still stores the row that was under way, and no other |
| Replay.ResumeRuns | backend/app/ingestion/dataset_replay.py:237-243 | a resume sets its speed in every state, lets a paused or running replay run, and otherwise changes nothing else |
| ReplayController.DatasetReplay.EnsureIdle | backend/app/ingestion/dataset_replay.py:63-65 | refuses exactly while the last background task is alive |
| ReplayController.DatasetReplay.StartCustom | backend/app/ingestion/dataset_replay.py:79-99 | replaces the replay and its state, or changes nothing and refuses |
| ReplayController.DatasetReplay.CountDataset | backend/app/ingestion/dataset_replay.py:130-138 | every error a dataset start can meet beforehand, else the total |
| ReplayController.DatasetReplay.StartDataset | backend/app/ingestion/dataset_replay.py:101-128 | the announced total is the length of what the replay is given |
| ReplayController.DatasetReplay.PauseReplay | backend/app/ingestion/dataset_replay.py:231-235 | clears the resume event of a running replay, or refuses |
| ReplayController.DatasetReplay.ResumeReplay | backend/app/ingestion/dataset_replay.py:237-243 | sets status and event, or refuses; the speed changes in both cases |
| ReplayController.DatasetReplay.StopReplay | backend/app/ingestion/dataset_replay.py:245-249 | wakes and cancels a live background task; the status reads stopped whatever it was |
| ReplayController.DatasetReplay.RunTask | backend/app/ingestion/dataset_replay.py:207-229 | one segment of the loop between two awaits |
| IngestionAudit.EnqueueAllKeepsAudit | backend/app/ingestion/service.py:187-206 | a whole accepted batch keeps every log chained |
| IngestionAudit.RecoverAllKeepsAudit | backend/app/ingestion/service.py:544-563 | a whole recovery keeps every log chained and other rows unchanged |
| IngestionAudit.RedriveAllKeepsAudit | backend/app/ingestion/service.py:678-711 | a whole redrive keeps every log chained and other rows unchanged |
| IngestionRuns.ClaimKeepsSound | backend/app/ingestion/service.py:567-601 | claiming keeps logs chained and makes the new claim the job's latest |
| IngestionRuns.OutcomeKeepsSound | backend/app/ingestion/worker.py:119-182 | an on-time outcome keeps logs chained and every other worker's claim in place |
| IngestionRuns.RecoverKeepsSound | backend/app/ingestion/service.py:534-564 | recovery keeps every claim it does not take back |
| IngestionRuns.EnqueueKeepsSound | backend/app/ingestion/service.py:187-208 | enqueue keeps every claim |
| IngestionRuns.RedriveKeepsSound | backend/app/ingestion/service.py:678-711 | redrive keeps every claim, since it takes dead jobs only |
| IngestionRuns.PredictKeepsSound | backend/app/service.py:171-194 | a direct batch keeps every log and claim |
| IngestionPolicy.NextKeepsCapacity | backend/app/ingestion/service.py:177-185 | every step keeps active jobs within the limit plus redrives plus revivals |
| OutboxRuns.PublishedIsFinal | backend/app/ingestion/outbox.py:86-93 | no step changes a published row |
| SensorModel.ReadOneLine | backend/app/ingestion/suricata_agent.py:63-74 | one more complete line appends its record, if it has one |
| Pagination.FirstPage | backend/app/ingestion/service.py:326-360 | without a cursor the page is the head of the plain listing |
| Pagination.WalkContinues | backend/app/ingestion/service.py:315-360 | from any row's cursor on, the walk returns the rest of the plain listing |
| DirectorySwap.PromotionAfterLoss | machine-learning/src/iot_ids_ml/promotion.py:161-168 | the failing case: with no complete destination, the promotion deletes the backup before the swap |
| ReplayController.DatasetReplay.Launch | backend/app/ingestion/dataset_replay.py:140-164 | the new replay's state, task and resume event replace the old ones |
| ReplayController.DatasetReplay.SetResumeEvent | backend/app/ingestion/dataset_replay.py:243-246 | setting the event wakes a background task that waits for it |
| ReplayController.DatasetReplay.FetchNext | backend/app/ingestion/dataset_replay.py:209-223 | the head of the loop: fail, complete, begin the next row, or wait for the event |
| ReplayController.DatasetReplay.FinishWrite | backend/app/ingestion/dataset_replay.py:211-217 | the worker thread commits the row in flight or rolls it back |

## Left out

- SQL, isolation levels, row and advisory locks: a committed transaction is one atomic step, with the unique keys as guards. The IntegrityError branch of enqueue, which needs two overlapping transactions, therefore does not occur.
- Columns written only because they changed: a stale outcome is modelled as writing all the columns it assigns.
- The columns last_error, updated_at, last_redriven_at, last_redriven_by, last_redrive_reason, worker heartbeats and latencies.
- IngestionStore.Store.RecordTransition: the operator, reason and details of an entry are dropped, except the delay of a scheduled retry, because no transaction reads them back; its time is the one that the transaction read, not the later one of the insert.
- Status summaries, dashboards, configuration checks other than the outbox timeouts, authentication, request schemas and severity mapping: single-branch readings.
- UUIDs, SHA-256 digests, JSON and base64 bit-packing: identifiers and digests are numbers, the digest is any function, claim tokens are fresh, and the cursor codec is any pair that decodes what it encodes into padded text. Identifiers in sort keys are numbers.
- Model inference, extractor compatibility and NFStream itself: verdicts, failures and packets are inputs. Exception messages are reduced to the searches that classify_failure makes.
- HTTP, WebSocket and thread plumbing, signal handling, poll sleeps and the redelivery delay of the sensor agent.
- SensorStore.EveFollower.Read: positions count characters, not bytes, a line ends at a line feed only (no universal newlines), and a file that was rotated is covered only by the branch for a file shorter than the offset. The run theorems take the file as append-only.
- SensorStore.SensorApi.IngestSuricata: statistics, timestamps, interface and engine fields of the sensor row are not modelled.
- Outbox and alert rows of other producers: the ingestion theorems are about rows of the job queue and of direct predictions, which publish nothing.
- BenjaminiHochberg.Adjust: argsort is a parameter, any sorting permutation; values are real numbers, so not-a-number and rounding do not arise.
- Wilson.BoundsInRange: z is nonnegative, as in every call; the square root is a parameter whose square is the radicand; rounding is not modelled.
- Csv.ParseCsv: the coercion to numbers is a parameter.
- Pagination.WalkSurvivesInsertions: rows whose filtered columns change during the walk are outside the premise, and so are deletions, which no operation of the model makes.
- Directory operations: a rename is atomic and a removal may stop anywhere. DirectorySwap.PublishingIsSafe starts after the check for unexpected entries.
- DirectorySwap.PromotionIsSafe: an interrupt that is not an ordinary exception (a keyboard interrupt, an exit) skips the handler's rollback in the code; here it is a failure whose rollback also fails, for which the bundle stays in the backup but the destination need not end complete.
- FlowMetrics.SubflowMetrics: averages are real quotients; minimum, maximum, mean and deviation and the feature dictionary are not modelled.
- FlowMetrics.Accumulator.RecordPacket: flag counts and TCP windows are not recorded, because the metrics modelled here do not read them.
- Replay.MatchingRows: the dataset file is read as one list that does not change during the replay; schema and validation errors of single rows are a failed fetch.
- ReplayController.DatasetReplay.RunTask: a segment runs from one await to the next. The length of the sleep, the text of errors and the loss of the in-memory state at a restart are not modelled.
