/** Concrete runs in which the code misses what one might expect of it: two that lose the audit trail,
    one that reads a retry delay at index -1, and two that overfill the queue.  Each is followed event
    by event. */
module IngestionCounterexamples {
  import opened Finite
  import opened Wrappers
  import opened IngestionModel
  import opened IngestionAudit
  import opened IngestionRuns
  import opened IngestionPolicy
  import opened IngestionRequests
  import opened Text

  // ---------------------------------------------------------------- runs that lose the trail

  /** Worker 1 stalls past its lease; worker 2 finishes the job; worker 1 wakes up. */
  function StaleRun(cfg: Config): seq<Event> {
    [EnqueueBatch([Item(1, 7)], 0, 0),
     ClaimNext(1, 1, 0),
     BeginAttempt(1, None, Ok(Normal)),
     RecoverLeases([1], cfg.leaseSeconds + 1),
     ClaimNext(2, 1, cfg.leaseSeconds + 1),
     BeginAttempt(2, None, Ok(Normal)),
     CommitSuccess(2, Committed, cfg.leaseSeconds + 2),
     CommitSuccess(1, Committed, cfg.leaseSeconds + 3),
     CommitFailure(1, cfg.leaseSeconds + 4)]
  }

  /** The success commit takes effect, its answer is lost, and the worker records a failure: no
      recovery and no second worker are needed. */
  function LostAnswerRun(): seq<Event> {
    [EnqueueBatch([Item(1, 7)], 0, 0),
     ClaimNext(1, 1, 0),
     BeginAttempt(1, None, Ok(Normal)),
     CommitSuccess(1, Unanswered, 1),
     CommitFailure(1, 2)]
  }

  /** Every run of this module begins like this. */
  ghost predicate ClaimsJob(run: seq<Event>) {
    && |run| >= 2
    && run[0] == EnqueueBatch([Item(1, 7)], 0, 0)
    && run[1] == ClaimNext(1, 1, 0)
  }

  ghost predicate BeginsJob(run: seq<Event>) {
    ClaimsJob(run) && |run| >= 3 && run[2] == BeginAttempt(1, None, Ok(Normal))
  }

  /** The first run, event by event. */
  ghost predicate IsStaleRun(cfg: Config, run: seq<Event>) {
    && |run| == 9 && BeginsJob(run)
    && run[3] == RecoverLeases([1], cfg.leaseSeconds + 1)
    && run[4] == ClaimNext(2, 1, cfg.leaseSeconds + 1)
    && run[5] == BeginAttempt(2, None, Ok(Normal))
    && run[6] == CommitSuccess(2, Committed, cfg.leaseSeconds + 2)
    && run[7] == CommitSuccess(1, Committed, cfg.leaseSeconds + 3)
    && run[8] == CommitFailure(1, cfg.leaseSeconds + 4)
  }

  /** The event at index i has these effects on what the events before it did. */
  lemma StepAt(cfg: Config, run: seq<Event>, i: nat)
    requires i < |run|
    ensures Exec(cfg, run[..i + 1]) == Next(cfg, Exec(cfg, run[..i]), run[i])
  {
    assert run[..i + 1] == run[..i] + [run[i]];
    ExecSnoc(cfg, run[..i], run[i]);
  }

  /** Recovery of a table with one lapsed job. */
  lemma RecoverSingle(db: Db, e: EventId, now: Time)
    requires db.jobs.Keys == {e} && LeaseLapsed(db.jobs, e, now)
    ensures IsLapsedListing(db.jobs, now, [e]) && RecoverAll(db, [e], now) == RecoverOne(db, e, now)
  {
    assert [e][..0] == [] && RecoverAll(db, [], now) == db;
  }

  /** Only the job table and the log have rows. */
  ghost predicate NoResults(db: Db) {
    db == EMPTY.(jobs := db.jobs, log := db.log)
  }

  /** After the claim, the stall, the recovery and the second claim: the only job, and who holds it. */
  ghost predicate OneJob(s: System, entries: nat, state: JobState, attempts: nat, phases: map<WorkerId, Phase>) {
    && NoResults(s.db) && |s.db.log| == entries && s.db.jobs.Keys == {1}
    && s.db.jobs[1].state == state && s.db.jobs[1].attempts == attempts && s.db.jobs[1].redrives == 0
    && s.phases == phases
  }

  lemma RecoveryStep(cfg: Config, s: System, p: Phase, now: Time)
    requires OneJob(s, 2, Processing, 1, map[1 := p])
    requires s.db.jobs[1].lease.Some? && s.db.jobs[1].lease.value < now
    ensures var s' := Next(cfg, s, RecoverLeases([1], now));
            OneJob(s', 3, Retrying, 1, map[1 := p]) && s'.db.jobs[1].availableAt == now
  {
    RecoverSingle(s.db, 1, now);
  }

  lemma SecondClaimStep(cfg: Config, s: System, p: Phase, now: Time)
    requires OneJob(s, 3, Retrying, 1, map[1 := p]) && s.db.jobs[1].availableAt == now
    ensures OneJob(Next(cfg, s, ClaimNext(2, 1, now)), 4, Processing, 2, map[1 := p, 2 := Holding(1, 4)])
  {
  }

  /** A batch of one new event. */
  lemma EnqueueSingle(cfg: Config, db: Db, item: Item, batchId: nat, now: Time)
    requires item.event !in db.jobs && ActiveCount(db.jobs) < cfg.queueLimit
    ensures EnqueueVerdict(cfg, db, [item]).None?
    ensures Enqueue(cfg, db, [item], batchId, now) == EnqueueOne(cfg, db, item, batchId, now)
  {
    var batch := [item];
    assert batch[..0] == [];
    assert NewIds(db.jobs, batch) == [item.event];
    assert [item.event][..0] == [];
    assert EnqueueAll(cfg, db, batch, [], batchId, now) == db;
  }

  lemma FirstEnqueueStep(cfg: Config)
    requires 1 <= cfg.queueLimit
    ensures OneJob(Next(cfg, START, EnqueueBatch([Item(1, 7)], 0, 0)), 1, Queued, 0, map[])
    ensures Next(cfg, START, EnqueueBatch([Item(1, 7)], 0, 0)).db.jobs[1].availableAt == 0
  {
    var queued := System(EnqueueOne(cfg, EMPTY, Item(1, 7), 0, 0), map[]);
    assert Next(cfg, START, EnqueueBatch([Item(1, 7)], 0, 0)) == queued by {
      assert ActiveIds(EMPTY.jobs) == {};
      EnqueueSingle(cfg, EMPTY, Item(1, 7), 0, 0);
    }
  }

  lemma FirstClaimStep(cfg: Config, s: System)
    requires OneJob(s, 1, Queued, 0, map[]) && s.db.jobs[1].availableAt == 0
    ensures var s' := Next(cfg, s, ClaimNext(1, 1, 0));
            OneJob(s', 2, Processing, 1, map[1 := Holding(1, 2)]) && s'.db.jobs[1].lease == Some(cfg.leaseSeconds)
  {
  }

  lemma JobEnqueued(cfg: Config, run: seq<Event>)
    requires 1 <= cfg.queueLimit && ClaimsJob(run)
    ensures var s := Exec(cfg, run[..1]);
            OneJob(s, 1, Queued, 0, map[]) && s.db.jobs[1].availableAt == 0
  {
    FirstEnqueueStep(cfg);
    StepAt(cfg, run, 0);
    assert run[..0] == [];
  }

  lemma JobClaimed(cfg: Config, run: seq<Event>)
    requires 1 <= cfg.queueLimit && ClaimsJob(run)
    ensures var s := Exec(cfg, run[..2]);
            OneJob(s, 2, Processing, 1, map[1 := Holding(1, 2)]) && s.db.jobs[1].lease == Some(cfg.leaseSeconds)
  {
    JobEnqueued(cfg, run);
    FirstClaimStep(cfg, Exec(cfg, run[..1]));
    StepAt(cfg, run, 1);
  }

  lemma JobStaged(cfg: Config, run: seq<Event>)
    requires 1 <= cfg.queueLimit && BeginsJob(run)
    ensures var s := Exec(cfg, run[..3]);
            OneJob(s, 2, Processing, 1, map[1 := Staged(1, 2, Normal)]) && s.db.jobs[1].lease == Some(cfg.leaseSeconds)
  {
    JobClaimed(cfg, run);
    StepAt(cfg, run, 2);
  }

  /** The lease of worker 1 is recovered. */
  lemma JobRecovered(cfg: Config, run: seq<Event>)
    requires 1 <= cfg.queueLimit && IsStaleRun(cfg, run)
    ensures var s := Exec(cfg, run[..4]);
            OneJob(s, 3, Retrying, 1, map[1 := Staged(1, 2, Normal)])
            && s.db.jobs[1].availableAt == cfg.leaseSeconds + 1
  {
    JobStaged(cfg, run);
    StepAt(cfg, run, 3);
    RecoveryStep(cfg, Exec(cfg, run[..3]), Staged(1, 2, Normal), cfg.leaseSeconds + 1);
  }

  /** Worker 2 takes the job. */
  lemma JobTakenOver(cfg: Config, run: seq<Event>)
    requires 1 <= cfg.queueLimit && IsStaleRun(cfg, run)
    ensures OneJob(Exec(cfg, run[..5]), 4, Processing, 2, map[1 := Staged(1, 2, Normal), 2 := Holding(1, 4)])
  {
    JobRecovered(cfg, run);
    StepAt(cfg, run, 4);
    SecondClaimStep(cfg, Exec(cfg, run[..4]), Staged(1, 2, Normal), cfg.leaseSeconds + 1);
  }

  lemma JobRestaged(cfg: Config, run: seq<Event>)
    requires 1 <= cfg.queueLimit && IsStaleRun(cfg, run)
    ensures OneJob(Exec(cfg, run[..6]), 4, Processing, 2, map[1 := Staged(1, 2, Normal), 2 := Staged(1, 4, Normal)])
  {
    JobTakenOver(cfg, run);
    StepAt(cfg, run, 5);
  }

  lemma SecondWorkerCommits(cfg: Config, s: System, now: Time)
    requires OneJob(s, 4, Processing, 2, map[1 := Staged(1, 2, Normal), 2 := Staged(1, 4, Normal)])
    ensures var s' := Next(cfg, s, CommitSuccess(2, Committed, now));
            && PhaseOf(s', 1) == Staged(1, 2, Normal) && PublishedOnce(s'.db)
  {
  }

  /** Job 1 is done by its second attempt, and its announcement is published. */
  ghost predicate PublishedOnce(db: Db) {
    && db.observations == [1] && db.outbox == [OutboxRow(1, PredictionCreated)]
    && |db.log| == 5 && 1 in db.jobs
    && db.jobs[1].state.Succeeded? && db.jobs[1].completedAt.Some? && db.jobs[1].attempts == 2
    && db.log[4].event == 1 && db.log[4].to == Succeeded
  }

  /** Worker 2 completes the job. */
  lemma JobCompleted(cfg: Config, run: seq<Event>)
    requires 1 <= cfg.queueLimit && IsStaleRun(cfg, run)
    ensures var s := Exec(cfg, run[..7]);
            PhaseOf(s, 1) == Staged(1, 2, Normal) && PublishedOnce(s.db)
  {
    JobRestaged(cfg, run);
    StepAt(cfg, run, 6);
    SecondWorkerCommits(cfg, Exec(cfg, run[..6]), cfg.leaseSeconds + 2);
  }

  /** The first worker wakes up, and its success is refused. */
  ghost predicate FailingLate(s: System) {
    PhaseOf(s, 1) == Failing(1, 2, OtherError) && PublishedOnce(s.db)
  }

  /** A published job that is retrying although completed, with a broken chain. */
  ghost predicate Revived(db: Db) {
    && 1 in db.jobs && db.jobs[1].state.Retrying? && db.jobs[1].completedAt.Some?
    && db.outbox == [OutboxRow(1, PredictionCreated)]
    && !AllAudited(db)
  }

  lemma LateFailureStep(cfg: Config, s: System, now: Time)
    requires FailingLate(s)
    ensures Revived(Next(cfg, s, CommitFailure(1, now)).db)
  {
    StaleEntryIsNotAudited(Next(cfg, s, CommitFailure(1, now)).db, 1);
  }

  lemma JobRefused(cfg: Config, run: seq<Event>)
    requires 1 <= cfg.queueLimit && IsStaleRun(cfg, run)
    ensures FailingLate(Exec(cfg, run[..8]))
  {
    JobCompleted(cfg, run);
    StepAt(cfg, run, 7);
  }

  lemma JobRevived(cfg: Config, run: seq<Event>)
    requires 1 <= cfg.queueLimit && IsStaleRun(cfg, run)
    ensures Revived(Exec(cfg, run).db)
  {
    JobRefused(cfg, run);
    StepAt(cfg, run, 8);
    LateFailureStep(cfg, Exec(cfg, run[..8]), cfg.leaseSeconds + 4);
    assert run[..9] == run;
  }

  /** Without the premise the audit trail is lost: a job whose prediction is published goes back
      to retrying. */
  lemma StaleOutcomeRevivesJob(cfg: Config)
    requires 1 <= cfg.queueLimit
    ensures Revived(Exec(cfg, StaleRun(cfg)).db)
  {
    JobRevived(cfg, StaleRun(cfg));
  }

  lemma UnansweredStep(cfg: Config, s: System)
    requires OneJob(s, 2, Processing, 1, map[1 := Staged(1, 2, Normal)])
    ensures MistakenForFailure(Next(cfg, s, CommitSuccess(1, Unanswered, 1)))
  {
  }

  /** Job 1 is done and published, and its worker takes that for a failure. */
  ghost predicate MistakenForFailure(s: System) {
    && PhaseOf(s, 1) == Failing(1, 2, OtherError)
    && s.db.outbox == [OutboxRow(1, PredictionCreated)]
    && |s.db.log| == 3 && s.db.jobs.Keys == {1}
    && s.db.jobs[1].state.Succeeded? && s.db.jobs[1].completedAt.Some?
    && s.db.jobs[1].attempts == 1 && s.db.jobs[1].redrives == 0
    && s.db.log[2].event == 1 && s.db.log[2].to == Succeeded
  }

  lemma MistakenFailureStep(cfg: Config, s: System, now: Time)
    requires MistakenForFailure(s)
    ensures Revived(Next(cfg, s, CommitFailure(1, now)).db)
  {
    StaleEntryIsNotAudited(Next(cfg, s, CommitFailure(1, now)).db, 1);
  }

  lemma AnswerLost(cfg: Config, run: seq<Event>)
    requires 1 <= cfg.queueLimit && BeginsJob(run) && |run| >= 4 && run[3] == CommitSuccess(1, Unanswered, 1)
    ensures MistakenForFailure(Exec(cfg, run[..4]))
  {
    JobStaged(cfg, run);
    StepAt(cfg, run, 3);
    UnansweredStep(cfg, Exec(cfg, run[..3]));
  }

  lemma FailureAfterAnswerLost(cfg: Config, run: seq<Event>)
    requires |run| == 5 && run[4] == CommitFailure(1, 2) && MistakenForFailure(Exec(cfg, run[..4]))
    ensures Revived(Exec(cfg, run).db)
  {
    StepAt(cfg, run, 4);
    MistakenFailureStep(cfg, Exec(cfg, run[..4]), 2);
    assert run[..5] == run;
  }

  /** The same loss without any recovery: a published job goes back to retrying. */
  lemma LostAnswerRevivesJob(cfg: Config)
    requires 1 <= cfg.queueLimit
    ensures Revived(Exec(cfg, LostAnswerRun()).db)
  {
    AnswerLost(cfg, LostAnswerRun());
    FailureAfterAnswerLost(cfg, LostAnswerRun());
  }

  /** A job whose last two entries are a success and an outcome of an attempt. */
  lemma StaleEntryIsNotAudited(db: Db, e: EventId)
    requires 2 <= |db.log| && db.log[|db.log| - 1].event == e && db.log[|db.log| - 2].event == e
    requires db.log[|db.log| - 2].to == Succeeded && db.log[|db.log| - 1].from == Some(Processing) && e in db.jobs
    ensures !AllAudited(db)
  {
    LastTwoEntries(db.log, e);
    assert !AuditedAt(db, e);
  }

  lemma LastTwoEntries(log: seq<Transition>, e: EventId)
    requires 2 <= |log| && log[|log| - 1].event == e && log[|log| - 2].event == e
    ensures var h := JobLog(log, e);
            2 <= |h| && h[|h| - 1] == log[|log| - 1] && h[|h| - 2] == log[|log| - 2]
  {
    var n := |log|;
    assert log[..n - 1][..n - 2] == log[..n - 2];
    assert JobLog(log[..n - 1], e) == JobLog(log[..n - 2], e) + [log[n - 2]];
  }

  // ---------------------------------------------------------------- a run that reads the delay at -1

  const REDRIVE_OF_ONE := RedriveRequest([1], "operator", "fixed", Some((p: Payload) => true), false)

  /** Job 1 is dead, for a reason that redrive forgives. */
  ghost predicate Redrivable(cfg: Config, db: Db) {
    && db.predictions == [] && db.observations == []
    && 1 in db.jobs && db.jobs[1].state.DeadLetter? && db.jobs[1].lease.None?
    && db.jobs[1].payloadHash == cfg.hash(db.jobs[1].payload)
    && db.jobs[1].retryable == Some(false) && db.jobs[1].errorCode == Some(ExtractorIncompatible)
  }

  lemma RedriveOfOneCommits(cfg: Config, db: Db, now: Time)
    requires Redrivable(cfg, db)
    ensures RedriveCommits(cfg, db, REDRIVE_OF_ONE, now)
  {
    assert EvaluateRedrive(cfg, db, 1, REDRIVE_OF_ONE.compat, now).None?;
    assert !IsSpace(REDRIVE_OF_ONE.operator[0]) && !IsSpace(REDRIVE_OF_ONE.reason[0]);
  }

  /** Worker 1 stalls past its lease with a failure to record; worker 2 gives the job up; the operator
      redrives it; worker 1 wakes up before anyone claims the job again. */
  function LateRetryRun(cfg: Config): seq<Event> {
    [EnqueueBatch([Item(1, 7)], 0, 0),
     ClaimNext(1, 1, 0),
     BeginAttempt(1, None, Err(TimedOut)),
     RecoverLeases([1], cfg.leaseSeconds + 1),
     ClaimNext(2, 1, cfg.leaseSeconds + 1),
     BeginAttempt(2, Some(Permanent(true, false)), Ok(Normal)),
     CommitFailure(2, cfg.leaseSeconds + 1),
     RedriveEvents(REDRIVE_OF_ONE, cfg.leaseSeconds + 2),
     CommitFailure(1, cfg.leaseSeconds + 3)]
  }

  /** That run, event by event. */
  ghost predicate IsLateRetryRun(cfg: Config, run: seq<Event>) {
    && |run| == 9 && ClaimsJob(run)
    && run[2] == BeginAttempt(1, None, Err(TimedOut))
    && run[3] == RecoverLeases([1], cfg.leaseSeconds + 1)
    && run[4] == ClaimNext(2, 1, cfg.leaseSeconds + 1)
    && run[5] == BeginAttempt(2, Some(Permanent(true, false)), Ok(Normal))
    && run[6] == CommitFailure(2, cfg.leaseSeconds + 1)
    && run[7] == RedriveEvents(REDRIVE_OF_ONE, cfg.leaseSeconds + 2)
    && run[8] == CommitFailure(1, cfg.leaseSeconds + 3)
  }

  /** Worker 1 has a failure of its first claim to record. */
  const STALLED := Failing(1, 2, TimedOut)

  lemma FirstAttemptTimesOut(cfg: Config, run: seq<Event>)
    requires 1 <= cfg.queueLimit && IsLateRetryRun(cfg, run)
    ensures var s := Exec(cfg, run[..3]);
            OneJob(s, 2, Processing, 1, map[1 := STALLED]) && s.db.jobs[1].lease == Some(cfg.leaseSeconds)
  {
    JobClaimed(cfg, run);
    StepAt(cfg, run, 2);
  }

  lemma StalledJobRecovered(cfg: Config, run: seq<Event>)
    requires 1 <= cfg.queueLimit && IsLateRetryRun(cfg, run)
    ensures var s := Exec(cfg, run[..4]);
            OneJob(s, 3, Retrying, 1, map[1 := STALLED]) && s.db.jobs[1].availableAt == cfg.leaseSeconds + 1
  {
    FirstAttemptTimesOut(cfg, run);
    StepAt(cfg, run, 3);
    RecoveryStep(cfg, Exec(cfg, run[..3]), STALLED, cfg.leaseSeconds + 1);
  }

  lemma StalledJobTakenOver(cfg: Config, run: seq<Event>)
    requires 1 <= cfg.queueLimit && IsLateRetryRun(cfg, run)
    ensures OneJob(Exec(cfg, run[..5]), 4, Processing, 2, map[1 := STALLED, 2 := Holding(1, 4)])
  {
    StalledJobRecovered(cfg, run);
    StepAt(cfg, run, 4);
    SecondClaimStep(cfg, Exec(cfg, run[..4]), STALLED, cfg.leaseSeconds + 1);
  }

  lemma SecondAttemptStep(cfg: Config, s: System)
    requires OneJob(s, 4, Processing, 2, map[1 := STALLED, 2 := Holding(1, 4)])
    ensures OneJob(Next(cfg, s, BeginAttempt(2, Some(Permanent(true, false)), Ok(Normal))), 4, Processing, 2,
                   map[1 := STALLED, 2 := Failing(1, 4, Permanent(true, false))])
  {
  }

  lemma SecondFailureStep(cfg: Config, s: System, now: Time)
    requires OneJob(s, 4, Processing, 2, map[1 := STALLED, 2 := Failing(1, 4, Permanent(true, false))])
    requires s.db.jobs[1].payloadHash == cfg.hash(s.db.jobs[1].payload)
    ensures var s' := Next(cfg, s, CommitFailure(2, now));
            PhaseOf(s', 1) == STALLED && Redrivable(cfg, s'.db)
  {
  }

  lemma StalledJobGivenUp(cfg: Config, run: seq<Event>)
    requires 1 <= cfg.queueLimit && IsLateRetryRun(cfg, run)
    ensures PhaseOf(Exec(cfg, run[..7]), 1) == STALLED && Redrivable(cfg, Exec(cfg, run[..7]).db)
  {
    StalledJobTakenOver(cfg, run);
    StepAt(cfg, run, 5);
    SecondAttemptStep(cfg, Exec(cfg, run[..5]));
    HashesStayFaithful(cfg, run[..6]);
    StepAt(cfg, run, 6);
    SecondFailureStep(cfg, Exec(cfg, run[..6]), cfg.leaseSeconds + 1);
  }

  /** The redrive of job 1 requeues it and leaves all other jobs alone. */
  lemma RedriveOfOneStep(cfg: Config, s: System, now: Time)
    requires Redrivable(cfg, s.db)
    ensures var s' := Next(cfg, s, RedriveEvents(REDRIVE_OF_ONE, now));
            && s'.phases == s.phases && s'.db.jobs.Keys == s.db.jobs.Keys
            && s'.db.jobs[1] == Redriven(s.db.jobs[1], now)
            && forall e :: e in s.db.jobs && e != 1 ==> s'.db.jobs[e] == s.db.jobs[e]
  {
    RedriveOfOneCommits(cfg, s.db, now);
    RedriveAllOrNothing(cfg, s.db, REDRIVE_OF_ONE, now);
    assert forall e :: e in REDRIVE_OF_ONE.ids <==> e == 1;
  }

  lemma LateRedriveStep(cfg: Config, s: System, now: Time)
    requires PhaseOf(s, 1) == STALLED && Redrivable(cfg, s.db)
    ensures var s' := Next(cfg, s, RedriveEvents(REDRIVE_OF_ONE, now));
            PhaseOf(s', 1) == STALLED && Unattempted(s'.db)
  {
    RedriveOfOneStep(cfg, s, now);
  }

  lemma StalledJobRedriven(cfg: Config, run: seq<Event>)
    requires 1 <= cfg.queueLimit && IsLateRetryRun(cfg, run)
    ensures PhaseOf(Exec(cfg, run[..8]), 1) == STALLED && Unattempted(Exec(cfg, run[..8]).db)
  {
    StalledJobGivenUp(cfg, run);
    StepAt(cfg, run, 7);
    LateRedriveStep(cfg, Exec(cfg, run[..7]), cfg.leaseSeconds + 2);
  }

  /** Job 1 has no attempt since its redrive that could have failed. */
  ghost predicate Unattempted(db: Db) {
    1 in db.jobs && db.jobs[1].attempts == 0
  }

  /** Job 1 waits for the longest delay from now on. */
  ghost predicate WaitsLongest(db: Db, now: Time) {
    && 1 in db.jobs && db.jobs[1].state.Retrying?
    && db.jobs[1].availableAt == now + RETRY_DELAYS_SECONDS[2]
  }

  lemma LateFailureWaitsLongest(cfg: Config, s: System, now: Time)
    requires PhaseOf(s, 1) == STALLED && Unattempted(s.db)
    ensures WaitsLongest(Next(cfg, s, CommitFailure(1, now)).db, now)
  {
    FailureStep(cfg, s, 1, now);
  }

  lemma StalledFailureRecorded(cfg: Config, run: seq<Event>)
    requires 1 <= cfg.queueLimit && IsLateRetryRun(cfg, run)
    ensures Unattempted(Exec(cfg, run[..8]).db) && WaitsLongest(Exec(cfg, run).db, cfg.leaseSeconds + 3)
  {
    StalledJobRedriven(cfg, run);
    StepAt(cfg, run, 8);
    LateFailureWaitsLongest(cfg, Exec(cfg, run[..8]), cfg.leaseSeconds + 3);
    assert run[..9] == run;
  }

  /** The delay of a retry really is read at index -1: a job without an attempt is scheduled for
      retry. */
  lemma StaleFailureReadsLastDelay(cfg: Config)
    requires 1 <= cfg.queueLimit
    ensures Unattempted(Exec(cfg, LateRetryRun(cfg)[..8]).db)
    ensures WaitsLongest(Exec(cfg, LateRetryRun(cfg)).db, cfg.leaseSeconds + 3)
  {
    StalledFailureRecorded(cfg, LateRetryRun(cfg));
  }

  // ---------------------------------------------------------------- runs that overfill the queue

  /** A run that leaves more active jobs than the limit of one: job 1 fails for good, job 2 takes its
      place, and job 1 is redriven. */
  function OverfullRun(): seq<Event> {
    [EnqueueBatch([Item(1, 7)], 0, 0),
     ClaimNext(1, 1, 0),
     BeginAttempt(1, Some(Permanent(true, false)), Ok(Normal)),
     CommitFailure(1, 0),
     EnqueueBatch([Item(2, 8)], 1, 0),
     RedriveEvents(REDRIVE_OF_ONE, 0)]
  }

  /** That run, event by event. */
  ghost predicate IsOverfullRun(run: seq<Event>) {
    && |run| == 6 && ClaimsJob(run)
    && run[2] == BeginAttempt(1, Some(Permanent(true, false)), Ok(Normal))
    && run[3] == CommitFailure(1, 0)
    && run[4] == EnqueueBatch([Item(2, 8)], 1, 0)
    && run[5] == RedriveEvents(REDRIVE_OF_ONE, 0)
  }

  /** Job 1 is dead and can be redriven. */
  ghost predicate DeadJob(cfg: Config, s: System) {
    OneJob(s, 3, DeadLetter, 1, map[1 := Idle]) && Redrivable(cfg, s.db)
  }

  lemma BlockedStep(cfg: Config, s: System)
    requires OneJob(s, 2, Processing, 1, map[1 := Holding(1, 2)])
    ensures var s' := Next(cfg, s, BeginAttempt(1, Some(Permanent(true, false)), Ok(Normal)));
            s'.db == s.db && OneJob(s', 2, Processing, 1, map[1 := Failing(1, 2, Permanent(true, false))])
  {
  }

  lemma PermanentFailureStep(cfg: Config, s: System)
    requires OneJob(s, 2, Processing, 1, map[1 := Failing(1, 2, Permanent(true, false))])
    requires s.db.jobs[1].payloadHash == cfg.hash(s.db.jobs[1].payload)
    ensures DeadJob(cfg, Next(cfg, s, CommitFailure(1, 0)))
  {
  }

  lemma JobBlocked(cfg: Config, run: seq<Event>)
    requires cfg.queueLimit == 1 && IsOverfullRun(run)
    ensures OneJob(Exec(cfg, run[..3]), 2, Processing, 1, map[1 := Failing(1, 2, Permanent(true, false))])
  {
    JobClaimed(cfg, run);
    StepAt(cfg, run, 2);
    BlockedStep(cfg, Exec(cfg, run[..2]));
  }

  lemma JobDies(cfg: Config, run: seq<Event>)
    requires cfg.queueLimit == 1 && IsOverfullRun(run)
    ensures DeadJob(cfg, Exec(cfg, run[..4]))
  {
    JobBlocked(cfg, run);
    HashesStayFaithful(cfg, run[..3]);
    StepAt(cfg, run, 3);
    PermanentFailureStep(cfg, Exec(cfg, run[..3]));
  }

  /** One job dead, another one queued in its place. */
  ghost predicate Refilled(cfg: Config, db: Db) {
    && db.jobs.Keys == {1, 2} && Redrivable(cfg, db)
    && db.jobs[2].state.Queued? && db.jobs[2].payloadHash == cfg.hash(8)
  }

  lemma RefillStep(cfg: Config, s: System)
    requires cfg.queueLimit == 1 && DeadJob(cfg, s)
    ensures EnqueueVerdict(cfg, s.db, [Item(2, 8)]).None?
    ensures Refilled(cfg, Next(cfg, s, EnqueueBatch([Item(2, 8)], 1, 0)).db)
  {
    assert ActiveIds(s.db.jobs) == {};
    EnqueueSingle(cfg, s.db, Item(2, 8), 1, 0);
  }

  lemma QueueRefilled(cfg: Config, run: seq<Event>)
    requires cfg.queueLimit == 1 && IsOverfullRun(run)
    ensures EnqueueVerdict(cfg, Exec(cfg, run[..4]).db, [Item(2, 8)]).None?
    ensures Refilled(cfg, Exec(cfg, run[..5]).db)
  {
    JobDies(cfg, run);
    StepAt(cfg, run, 4);
    RefillStep(cfg, Exec(cfg, run[..4]));
  }

  /** Both jobs queued. */
  ghost predicate Overfull(cfg: Config, db: Db) {
    && db.jobs.Keys == {1, 2} && db.jobs[1].state.Queued? && db.jobs[2].state.Queued?
    && db.jobs[2].payloadHash == cfg.hash(8)
  }


  lemma RedriveStep(cfg: Config, s: System)
    requires Refilled(cfg, s.db)
    ensures Overfull(cfg, Next(cfg, s, RedriveEvents(REDRIVE_OF_ONE, 0)).db)
  {
    RedriveOfOneStep(cfg, s, 0);
  }

  lemma QueueOverfull(cfg: Config, run: seq<Event>)
    requires cfg.queueLimit == 1 && IsOverfullRun(run)
    ensures Overfull(cfg, Exec(cfg, run).db)
  {
    QueueRefilled(cfg, run);
    StepAt(cfg, run, 5);
    RedriveStep(cfg, Exec(cfg, run[..5]));
    assert run[..6] == run;
  }

  lemma OverfullCounts(cfg: Config, db: Db)
    requires cfg.queueLimit == 1 && Overfull(cfg, db)
    ensures ActiveCount(db.jobs) == 2
    ensures EnqueueVerdict(cfg, db, [Item(2, 8)]) == Some(QueueFull)
  {
    assert ActiveIds(db.jobs) == {1, 2};
    assert !ConflictAt(cfg.hash, db.jobs, [Item(2, 8)], 0);
  }

  /** The queue limit is exceeded in a real run: two active jobs where one is allowed. */
  lemma OverfullExceedsLimit(cfg: Config)
    requires cfg.queueLimit == 1
    ensures ActiveCount(Exec(cfg, OverfullRun()).db.jobs) == 2
    ensures !WithinLimit(cfg, Exec(cfg, OverfullRun()).db)
  {
    QueueOverfull(cfg, OverfullRun());
    OverfullCounts(cfg, Exec(cfg, OverfullRun()).db);
  }

  /** The refused resubmission does happen: after this run job 2's own batch, accepted a moment
      before, is answered with a full queue although it adds nothing. */
  lemma OverfullQueueRefusesResubmission(cfg: Config)
    requires cfg.queueLimit == 1
    ensures EnqueueVerdict(cfg, Exec(cfg, OverfullRun()[..4]).db, [Item(2, 8)]).None?
    ensures EnqueueVerdict(cfg, Exec(cfg, OverfullRun()).db, [Item(2, 8)]) == Some(QueueFull)
  {
    QueueRefilled(cfg, OverfullRun());
    QueueOverfull(cfg, OverfullRun());
    OverfullCounts(cfg, Exec(cfg, OverfullRun()).db);
  }

  /** No redrive is needed: worker 1 loses the answer to its success, job 2 takes the free place, and
      worker 1 records a failure of job 1, which revives it. */
  function RevivalRun(): seq<Event> {
    [EnqueueBatch([Item(1, 7)], 0, 0),
     ClaimNext(1, 1, 0),
     BeginAttempt(1, None, Ok(Normal)),
     CommitSuccess(1, Unanswered, 1),
     EnqueueBatch([Item(2, 8)], 1, 1),
     CommitFailure(1, 2)]
  }

  /** Job 1 is done and about to be revived, and job 2 is queued. */
  ghost predicate AboutToRevive(s: System) {
    && PhaseOf(s, 1) == Failing(1, 2, OtherError) && s.db.jobs.Keys == {1, 2}
    && s.db.jobs[1].state.Succeeded? && s.db.jobs[1].attempts == 1 && s.db.jobs[1].redrives == 0
    && s.db.jobs[2].state.Queued? && s.db.jobs[2].redrives == 0
  }

  lemma SecondEnqueueStep(cfg: Config, s: System)
    requires cfg.queueLimit == 1 && MistakenForFailure(s)
    ensures AboutToRevive(Next(cfg, s, EnqueueBatch([Item(2, 8)], 1, 1)))
  {
    assert ActiveIds(s.db.jobs) == {};
    EnqueueSingle(cfg, s.db, Item(2, 8), 1, 1);
  }

  /** Two active jobs, and no redrive. */
  ghost predicate OverfullWithoutRedrive(db: Db) {
    ActiveCount(db.jobs) == 2 && Redrives(db.jobs) == 0
  }

  lemma RevivalStep(cfg: Config, s: System)
    requires cfg.queueLimit == 1 && AboutToRevive(s)
    ensures Revives(s, CommitFailure(1, 2))
    ensures OverfullWithoutRedrive(Next(cfg, s, CommitFailure(1, 2)).db)
  {
    var db := Next(cfg, s, CommitFailure(1, 2)).db;
    assert ActiveIds(db.jobs) == {1, 2};
    TotalZero(RedriveCounts(db.jobs));
  }

  /** That run, event by event. */
  ghost predicate IsRevivalRun(run: seq<Event>) {
    && |run| == 6 && BeginsJob(run)
    && run[3] == CommitSuccess(1, Unanswered, 1)
    && run[4] == EnqueueBatch([Item(2, 8)], 1, 1)
    && run[5] == CommitFailure(1, 2)
  }

  lemma QueueRefilledAfterLoss(cfg: Config, run: seq<Event>)
    requires cfg.queueLimit == 1 && IsRevivalRun(run)
    ensures AboutToRevive(Exec(cfg, run[..5]))
  {
    AnswerLost(cfg, run);
    StepAt(cfg, run, 4);
    SecondEnqueueStep(cfg, Exec(cfg, run[..4]));
  }

  lemma QueueOverfullAfterLoss(cfg: Config, run: seq<Event>)
    requires cfg.queueLimit == 1 && IsRevivalRun(run)
    ensures OverfullWithoutRedrive(Exec(cfg, run).db)
  {
    QueueRefilledAfterLoss(cfg, run);
    StepAt(cfg, run, 5);
    RevivalStep(cfg, Exec(cfg, run[..5]));
    assert run[..6] == run;
  }

  /** The queue limit is exceeded without any redrive: two active jobs where one is allowed. */
  lemma RevivalExceedsLimit(cfg: Config)
    requires cfg.queueLimit == 1
    ensures forall i :: 0 <= i < |RevivalRun()| ==> !RevivalRun()[i].RedriveEvents?
    ensures OverfullWithoutRedrive(Exec(cfg, RevivalRun()).db)
    ensures !WithinLimit(cfg, Exec(cfg, RevivalRun()).db)
    ensures !WithinCapacity(cfg, Exec(cfg, RevivalRun()).db, 0)
  {
    QueueOverfullAfterLoss(cfg, RevivalRun());
  }
}
