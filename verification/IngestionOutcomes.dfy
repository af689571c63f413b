/** How a failed attempt ends, for each kind of failure, over whole runs. */
module IngestionOutcomes {
  import opened Wrappers
  import opened IngestionModel
  import opened IngestionAudit
  import opened IngestionRuns
  import opened IngestionLedger
  import opened IngestionPolicy

  /** The failure commit of a worker appends one entry for its job; this is that entry. */
  ghost function FailureEntry(cfg: Config, s: System, w: WorkerId, now: Time): Transition {
    var log := Next(cfg, s, CommitFailure(w, now)).db.log;
    if log == [] then Transition(0, None, Queued, Enqueued, None, None, None, 0, now) else log[|log| - 1]
  }

  /** The job row that it leaves. */
  ghost function FailedRow(cfg: Config, s: System, w: WorkerId, now: Time): Job
    requires RecordsFailure(s, w)
  {
    Next(cfg, s, CommitFailure(w, now)).db.jobs[PhaseOf(s, w).event]
  }

  /** The row and the entry say the same: who failed, when, with which error, and whether it may be
      retried. */
  ghost predicate Recorded(job: Job, t: Transition, e: EventId, w: WorkerId, now: Time, code: ErrorCode,
                           retryable: bool) {
    && job.errorCode == Some(code) && job.retryable == Some(retryable)
    && job.lease.None? && job.worker.None?
    && t.errorCode == Some(code) && t.retryable == Some(retryable)
    && t.event == e && t.worker == Some(w) && t.at == now && t.from == Some(Processing)
    && t.to == job.state
  }

  /** The job is dead, completed now. */
  ghost predicate GivenUp(job: Job, t: Transition, reason: Reason, now: Time) {
    && job.state.DeadLetter? && job.completedAt == Some(now)
    && t.reason == reason && t.delay == 0
  }

  /** The job waits for its next attempt. */
  ghost predicate WillRetry(job: Job, t: Transition, now: Time) {
    job.state.Retrying? && t.reason.RetryScheduled? && job.availableAt == now + t.delay
  }

  lemma FailureIsOneEntry(cfg: Config, s: System, w: WorkerId, now: Time)
    requires RecordsFailure(s, w)
    ensures Next(cfg, s, CommitFailure(w, now)).db.log == s.db.log + [FailureEntry(cfg, s, w, now)]
  {
  }

  /** Main theorem: a permanent failure, or a value that does not validate, is final at once, in every
      state that a failure commit can meet and at every attempt count, with an error code that tells
      which it was. */
  lemma PermanentFailureIsFinal(cfg: Config, s: System, w: WorkerId, now: Time)
    requires RecordsFailure(s, w)
    requires var f := PhaseOf(s, w).failure; f.Permanent? || f.InvalidValue?
    ensures var p, job, t := PhaseOf(s, w), FailedRow(cfg, s, w, now), FailureEntry(cfg, s, w, now);
            && GivenUp(job, t, PermanentFailure, now)
            && (p.failure.InvalidValue? ==> Recorded(job, t, p.event, w, now, ValidationError, false))
            && (p.failure.Permanent? && p.failure.mentionsExtractor ==>
                  Recorded(job, t, p.event, w, now, ExtractorIncompatible, false))
            && (p.failure.Permanent? && !p.failure.mentionsExtractor && p.failure.mentionsSchema ==>
                  Recorded(job, t, p.event, w, now, SchemaInvalid, false))
            && (p.failure.Permanent? && !p.failure.mentionsExtractor && !p.failure.mentionsSchema ==>
                  Recorded(job, t, p.event, w, now, PermanentIngestionError, false))
  {
  }

  /** Main theorem: in every run, a timeout or any other error is retried exactly while the job has been
      claimed at most three times since its last redrive, after 1, 5 and 30 seconds; the next such
      failure exhausts the retries. */
  lemma TransientFailureIsRetried(cfg: Config, run: seq<Event>, w: WorkerId, now: Time)
    requires RecordsFailure(Exec(cfg, run), w)
    requires var f := PhaseOf(Exec(cfg, run), w).failure; f.TimedOut? || f.OtherError?
    ensures var s := Exec(cfg, run);
            var p, job, t := PhaseOf(s, w), FailedRow(cfg, s, w, now), FailureEntry(cfg, s, w, now);
            var claims := CountSince(JobLog(s.db.log, p.event), Claimed);
            && (if claims <= 3 then WillRetry(job, t, now) else GivenUp(job, t, RetriesExhausted, now))
            && (claims == 1 ==> t.delay == 1) && (claims == 2 ==> t.delay == 5)
            && (claims == 3 || claims == 0 ==> t.delay == 30)
            && Recorded(job, t, p.event, w, now, if p.failure.TimedOut? then InferenceTimeout else InferenceError, true)
  {
    var s := Exec(cfg, run);
    var p := PhaseOf(s, w);
    assert BookedAt(cfg, s.db, p.event) by { RunKeepsBooks(cfg, run); }
    FailureOfJob(cfg, s.db, p.event, w, p.failure, now);
    TransientStep(cfg, s, w, now);
  }

  /** The same, told by the row's attempts. */
  lemma TransientStep(cfg: Config, s: System, w: WorkerId, now: Time)
    requires RecordsFailure(s, w)
    requires var f := PhaseOf(s, w).failure; f.TimedOut? || f.OtherError?
    ensures var p, job, t := PhaseOf(s, w), FailedRow(cfg, s, w, now), FailureEntry(cfg, s, w, now);
            var attempts := s.db.jobs[p.event].attempts;
            && (if attempts <= 3 then WillRetry(job, t, now) else GivenUp(job, t, RetriesExhausted, now))
            && (attempts == 1 ==> t.delay == 1) && (attempts == 2 ==> t.delay == 5)
            && (attempts == 3 || attempts == 0 ==> t.delay == 30)
            && Recorded(job, t, p.event, w, now, if p.failure.TimedOut? then InferenceTimeout else InferenceError, true)
  {
  }
}
