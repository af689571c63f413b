/** The audit log as a second source of truth: each job's entries form an unbroken chain, and
    reading them back rebuilds the job's row. */
module IngestionAudit {
  import opened Wrappers
  import opened IngestionModel

  /** The audit entries of one job, in commit order. */
  function JobLog(log: seq<Transition>, e: EventId): (h: seq<Transition>)
    ensures forall i :: 0 <= i < |h| ==> h[i].event == e
  {
    if log == [] then []
    else
      var n := |log| - 1;
      JobLog(log[..n], e) + (if log[n].event == e then [log[n]] else [])
  }

  lemma JobLogSnoc(log: seq<Transition>, t: Transition, e: EventId)
    ensures JobLog(log + [t], e) == JobLog(log, e) + (if t.event == e then [t] else [])
  {
    assert (log + [t])[..|log|] == log;
  }

  /** The last entry of e at or after which no other entry of e follows ends e's own log. */
  lemma {:induction false} JobLogLast(log: seq<Transition>, e: EventId, i: nat)
    requires i < |log| && log[i].event == e
    requires forall k :: i < k < |log| ==> log[k].event != e
    ensures JobLog(log, e) != [] && JobLog(log, e)[|JobLog(log, e)| - 1] == log[i]
  {
    if i < |log| - 1 {
      JobLogLast(log[..|log| - 1], e, i);
    }
  }

  // ---------------------------------------------------------------- reading a log

  /** Entries with a reason, over the whole life of the job. */
  function Count(h: seq<Transition>, r: Reason): nat {
    if h == [] then 0
    else Count(h[..|h| - 1], r) + (if h[|h| - 1].reason == r then 1 else 0)
  }

  /** Entries with a reason since the last manual redrive. */
  function CountSince(h: seq<Transition>, r: Reason): nat {
    if h == [] || h[|h| - 1].reason.ManualRedrive? then 0
    else CountSince(h[..|h| - 1], r) + (if h[|h| - 1].reason == r then 1 else 0)
  }

  /** Seconds of scheduled back-off since the last manual redrive. */
  function BackoffSince(h: seq<Transition>): nat {
    if h == [] || h[|h| - 1].reason.ManualRedrive? then 0
    else BackoffSince(h[..|h| - 1]) + (if h[|h| - 1].reason.RetryScheduled? then h[|h| - 1].delay else 0)
  }

  /** The error evidence that the log implies: a claim keeps it, a fresh start or a success clears it. */
  function ErrorOf(h: seq<Transition>): (Option<ErrorCode>, Option<bool>) {
    if h == [] then (None, None)
    else
      var t := h[|h| - 1];
      match t.reason
      case Enqueued => (None, None)
      case ManualRedrive => (None, None)
      case ProcessingSucceeded => (None, None)
      case Claimed => ErrorOf(h[..|h| - 1])
      case _ => (t.errorCode, t.retryable)
  }

  /** The part of a job row that its log determines. */
  datatype View = View(
    state: JobState,
    attempts: nat,
    redrives: nat,
    worker: Option<WorkerId>,
    leased: bool,
    completed: bool,
    error: (Option<ErrorCode>, Option<bool>))

  function ViewOf(job: Job): View {
    View(job.state, job.attempts, job.redrives, job.worker, job.lease.Some?, job.completedAt.Some?,
         (job.errorCode, job.retryable))
  }

  /** The same, where only the state says whether the job is completed. */
  function StateView(job: Job): View {
    ViewOf(job).(completed := IsTerminal(job.state))
  }

  /** The row that the log alone implies. */
  function Rebuild(h: seq<Transition>): View
    requires h != []
  {
    var last := h[|h| - 1];
    View(last.to,
         CountSince(h, Claimed),
         Count(h, ManualRedrive),
         if last.to.Processing? then last.worker else None,
         last.to.Processing?,
         IsTerminal(last.to),
         ErrorOf(h))
  }

  /** No entry is missing: the first starts from nothing, every other from where the last ended. */
  predicate Chain(h: seq<Transition>) {
    && (h != [] ==> h[0].from == None)
    && (forall i :: 0 < i < |h| ==> h[i].from == Some(h[i - 1].to))
  }

  /** The edges of the job state machine, one per reason. */
  predicate Legal(t: Transition) {
    match t.reason
    case Enqueued => t.from.None? && t.to.Queued?
    case Claimed => (t.from == Some(Queued) || t.from == Some(Retrying)) && t.to.Processing? && t.worker.Some?
    case LeaseRecovered => t.from == Some(Processing) && t.to.Retrying?
    case ProcessingSucceeded => t.from == Some(Processing) && t.to.Succeeded?
    case PermanentFailure => t.from == Some(Processing) && t.to.DeadLetter?
    case RetriesExhausted => t.from == Some(Processing) && t.to.DeadLetter?
    case RetryScheduled => t.from == Some(Processing) && t.to.Retrying?
    case ManualRedrive => t.from == Some(DeadLetter) && t.to.Queued?
  }

  /** The evidence of an entry: a failure says whether it may be retried, by its reason, and only a
      scheduled retry has a delay. */
  predicate Evidence(t: Transition) {
    ErrorEvidence(t) && (t.reason.RetryScheduled? || t.delay == 0)
  }

  predicate ErrorEvidence(t: Transition) {
    match t.reason
    case PermanentFailure =>
      && t.retryable == Some(false)
      && (|| t.errorCode == Some(ExtractorIncompatible) || t.errorCode == Some(SchemaInvalid)
          || t.errorCode == Some(PermanentIngestionError) || t.errorCode == Some(ValidationError))
    case RetriesExhausted => t.retryable == Some(true) && InferenceFailed(t.errorCode)
    case RetryScheduled => t.retryable == Some(true) && InferenceFailed(t.errorCode)
    case LeaseRecovered => t.retryable == Some(true) && t.errorCode == Some(LeaseExpired)
    case ManualRedrive => true
    case _ => t.retryable.None? && t.errorCode.None?
  }

  predicate InferenceFailed(code: Option<ErrorCode>) {
    code == Some(InferenceTimeout) || code == Some(InferenceError)
  }

  /** The back-off that a attempts can have scheduled at most. */
  function BackoffBudget(a: nat): nat {
    if a == 0 then 0 else if a == 1 then 1 else if a == 2 then 6 else 36
  }

  function Min(a: int, b: int): int {
    if a < b then a else b
  }

  /** How many attempts a job can have, in the form that one more entry preserves. */
  ghost predicate WithinAttempts(h: seq<Transition>)
    requires h != []
  {
    var to, attempts := h[|h| - 1].to, CountSince(h, Claimed);
    && (to.Queued? ==> attempts == 0)
    && (to.Processing? ==> attempts >= 1)
    && attempts <= (if to.Queued? || to.Retrying? then 3 else 4) + CountSince(h, LeaseRecovered)
  }

  /** The retry policy as a property of a log, in the same form. */
  ghost predicate WithinBudget(h: seq<Transition>)
    requires h != [] && WithinAttempts(h)
  {
    var to := h[|h| - 1].to;
    // Attempts whose outcome may already have been scheduled for retry.
    var spent := CountSince(h, Claimed) - if to.Processing? then 1 else 0;
    && CountSince(h, RetryScheduled) <= Min(spent, 3)
    && BackoffSince(h) <= BackoffBudget(spent)
    && Count(h, ProcessingSucceeded) == (if to.Succeeded? then 1 else 0)
  }

  /** What the audit table promises about one job. */
  ghost predicate Audited(job: Job, h: seq<Transition>) {
    && h != []
    && Chain(h)
    && (forall i :: 0 <= i < |h| ==> Legal(h[i]))
    && ViewOf(job) == Rebuild(h)
    && WithinAttempts(h)
    && WithinBudget(h)
  }

  /** Every job of the table is audited, and no other event has entries. */
  ghost predicate AuditedAt(db: Db, e: EventId) {
    if e in db.jobs then Audited(db.jobs[e], JobLog(db.log, e)) else JobLog(db.log, e) == []
  }

  ghost predicate AllAudited(db: Db) {
    forall e: EventId :: AuditedAt(db, e)
  }

  /** Writing one row with its entry keeps the table audited when that row stays audited. */
  lemma WriteKeepsAudit(db: Db, e: EventId, job: Job, t: Transition)
    requires AllAudited(db) && t.event == e
    requires Audited(job, JobLog(db.log, e) + [t])
    ensures AllAudited(Write(db, e, job, t))
  {
    forall x: EventId
      ensures AuditedAt(Write(db, e, job, t), x)
    {
      assert AuditedAt(db, x);
      JobLogSnoc(db.log, t, x);
      assert x != e ==> JobLog(db.log + [t], x) == JobLog(db.log, x);
    }
  }

  // ---------------------------------------------------------------- one more entry

  /** How every transaction changes a job row together with its entry t, whatever state it finds. */
  ghost predicate RowWritten(job: Job, job': Job, t: Transition) {
    && Legal(t) && Evidence(t) && t.from.Some?
    && (t.reason.Claimed? ==> t.from == Some(job.state) && job.availableAt <= t.at)
    && job'.state == t.to
    && job'.attempts == (if t.reason.Claimed? then job.attempts + 1
                         else if t.reason.ManualRedrive? then 0 else job.attempts)
    && job'.redrives == job.redrives + (if t.reason.ManualRedrive? then 1 else 0)
    && job'.worker == (if t.to.Processing? then t.worker else None)
    && job'.lease.Some? == t.to.Processing?
    && (IsTerminal(t.to) ==> job'.completedAt.Some?)
    && (job'.errorCode, job'.retryable) ==
       (match t.reason
        case Claimed => (job.errorCode, job.retryable)
        case ProcessingSucceeded => (None, None)
        case ManualRedrive => (None, None)
        case _ => (t.errorCode, t.retryable))
    && job'.availableAt == (if t.to.Queued? || t.to.Retrying? then t.at + t.delay else job.availableAt)
    && (t.reason.RetryScheduled? ==>
          job.attempts <= |RETRY_DELAYS_SECONDS| && t.delay == RetryDelay(job.attempts))
  }

  /** A transaction that found the row in the state that its entry says. */
  ghost predicate RowFollows(job: Job, job': Job, t: Transition) {
    && RowWritten(job, job', t)
    && t.from == Some(job.state)
    && (!IsTerminal(t.to) ==> job'.completedAt == if t.reason.ManualRedrive? then None else job.completedAt)
  }

  /** Reading a log with one more entry. */
  lemma CountSnoc(h: seq<Transition>, t: Transition, r: Reason)
    ensures Count(h + [t], r) == Count(h, r) + (if t.reason == r then 1 else 0)
    ensures CountSince(h + [t], r) ==
            if t.reason.ManualRedrive? then 0 else CountSince(h, r) + (if t.reason == r then 1 else 0)
  {
    assert (h + [t])[..|h|] == h;
  }

  lemma BackoffSnoc(h: seq<Transition>, t: Transition)
    ensures BackoffSince(h + [t]) ==
            if t.reason.ManualRedrive? then 0 else BackoffSince(h) + (if t.reason.RetryScheduled? then t.delay else 0)
  {
    assert (h + [t])[..|h|] == h;
  }

  lemma ErrorSnoc(h: seq<Transition>, t: Transition)
    ensures t.reason.Claimed? ==> ErrorOf(h + [t]) == ErrorOf(h)
  {
    assert (h + [t])[..|h|] == h;
  }

  lemma ChainSnoc(h: seq<Transition>, t: Transition)
    requires Chain(h) && t.from == (if h == [] then None else Some(h[|h| - 1].to))
    ensures Chain(h + [t])
  {
  }

  lemma RebuildSnoc(job: Job, h: seq<Transition>, job': Job, t: Transition)
    requires h != [] && StateView(job) == Rebuild(h) && RowWritten(job, job', t)
    ensures StateView(job') == Rebuild(h + [t])
  {
    CountSnoc(h, t, Claimed);
    CountSnoc(h, t, ManualRedrive);
    ErrorSnoc(h, t);
  }

  lemma AttemptsSnoc(job: Job, h: seq<Transition>, job': Job, t: Transition)
    requires h != [] && StateView(job) == Rebuild(h) && WithinAttempts(h) && RowWritten(job, job', t)
    ensures WithinAttempts(h + [t])
  {
    CountSnoc(h, t, Claimed);
    CountSnoc(h, t, LeaseRecovered);
  }

  lemma BudgetSnoc(job: Job, h: seq<Transition>, job': Job, t: Transition)
    requires h != [] && StateView(job) == Rebuild(h) && WithinAttempts(h) && WithinBudget(h)
    requires RowFollows(job, job', t) && WithinAttempts(h + [t])
    ensures WithinBudget(h + [t])
  {
    CountSnoc(h, t, Claimed);
    CountSnoc(h, t, RetryScheduled);
    CountSnoc(h, t, ProcessingSucceeded);
    BackoffSnoc(h, t);
  }

  /** A row that follows its entry stays audited. */
  lemma AuditedSnoc(job: Job, h: seq<Transition>, job': Job, t: Transition)
    requires Audited(job, h) && RowFollows(job, job', t)
    ensures Audited(job', h + [t])
  {
    assert StateView(job) == ViewOf(job);
    assert Chain(h + [t]) by { ChainSnoc(h, t); }
    assert StateView(job') == Rebuild(h + [t]) by { RebuildSnoc(job, h, job', t); }
    assert WithinAttempts(h + [t]) by { AttemptsSnoc(job, h, job', t); }
    assert WithinBudget(h + [t]) by { BudgetSnoc(job, h, job', t); }
  }

  // ---------------------------------------------------------------- one transaction each

  /** A transaction that follows the discipline keeps the whole table audited. */
  lemma FollowKeepsAudit(db: Db, e: EventId, job': Job, t: Transition)
    requires AllAudited(db) && e in db.jobs && t.event == e && RowFollows(db.jobs[e], job', t)
    ensures AllAudited(Write(db, e, job', t))
  {
    assert AuditedAt(db, e);
    AuditedSnoc(db.jobs[e], JobLog(db.log, e), job', t);
    WriteKeepsAudit(db, e, job', t);
  }

  lemma NewJobAudited(job: Job, t: Transition)
    requires ViewOf(job) == View(Queued, 0, 0, None, false, false, (None, None))
    requires t.reason.Enqueued? && Legal(t)
    ensures Audited(job, [t])
  {
    CountSnoc([], t, Claimed);
    CountSnoc([], t, RetryScheduled);
    CountSnoc([], t, LeaseRecovered);
    CountSnoc([], t, ProcessingSucceeded);
    CountSnoc([], t, ManualRedrive);
    BackoffSnoc([], t);
    assert [] + [t] == [t];
  }

  lemma EnqueueKeepsAudit(cfg: Config, db: Db, item: Item, batchId: nat, now: Time)
    requires AllAudited(db) && item.event !in db.jobs
    ensures AllAudited(EnqueueOne(cfg, db, item, batchId, now))
  {
    var job := NewJob(cfg, item.payload, batchId, now);
    var t := Transition(item.event, None, Queued, Enqueued, None, None, None, 0, now);
    NewJobAudited(job, t);
    assert JobLog(db.log, item.event) + [t] == [t] by { assert AuditedAt(db, item.event); }
    WriteKeepsAudit(db, item.event, job, t);
  }

  lemma ClaimKeepsAudit(cfg: Config, db: Db, e: EventId, w: WorkerId, now: Time)
    requires AllAudited(db) && Claimable(db, e, now)
    ensures AllAudited(Claim(cfg, db, e, w, now))
  {
    var db' := Claim(cfg, db, e, w, now);
    FollowKeepsAudit(db, e, db'.jobs[e], db'.log[|db.log|]);
  }

  lemma RecoverKeepsAudit(db: Db, e: EventId, now: Time)
    requires AllAudited(db) && e in db.jobs && db.jobs[e].state.Processing?
    ensures AllAudited(RecoverOne(db, e, now))
  {
    var db' := RecoverOne(db, e, now);
    FollowKeepsAudit(db, e, db'.jobs[e], db'.log[|db.log|]);
  }

  lemma SucceedKeepsAudit(db: Db, e: EventId, w: WorkerId, v: Verdict, now: Time)
    requires AllAudited(db) && e in db.jobs && db.jobs[e].state.Processing?
    ensures AllAudited(Succeed(db, e, w, v, now))
  {
    var db' := Succeed(db, e, w, v, now);
    var staged := Stage(db, e, v).(outbox := db.outbox + StagedRows(e, v));
    assert AllAudited(staged) by {
      assert forall x: EventId :: AuditedAt(db, x) ==> AuditedAt(staged, x);
    }
    FollowKeepsAudit(staged, e, db'.jobs[e], db'.log[|db.log|]);
  }

  lemma FailKeepsAudit(db: Db, e: EventId, w: WorkerId, f: Failure, now: Time)
    requires AllAudited(db) && e in db.jobs && db.jobs[e].state.Processing?
    ensures AllAudited(Fail(db, e, w, f, now))
  {
    var db' := Fail(db, e, w, f, now);
    FollowKeepsAudit(db, e, db'.jobs[e], db'.log[|db.log|]);
  }

  lemma RedriveKeepsAudit(db: Db, e: EventId, now: Time)
    requires AllAudited(db) && e in db.jobs && db.jobs[e].state.DeadLetter?
    ensures AllAudited(RedriveOne(db, e, now))
  {
    var db' := RedriveOne(db, e, now);
    FollowKeepsAudit(db, e, db'.jobs[e], db'.log[|db.log|]);
  }

  // ---------------------------------------------------------------- batch transactions

  lemma {:induction false} EnqueueAllKeepsAudit(cfg: Config, db: Db, batch: seq<Item>, ids: seq<EventId>,
                                                batchId: nat, now: Time)
    requires AllAudited(db) && Distinct(ids)
    requires forall e :: e in ids ==> Mentions(batch, e) && e !in db.jobs
    ensures AllAudited(EnqueueAll(cfg, db, batch, ids, batchId, now))
    ensures forall e :: e in EnqueueAll(cfg, db, batch, ids, batchId, now).jobs <==> e in db.jobs || e in ids
  {
    if ids != [] {
      var n := |ids| - 1;
      EnqueueAllKeepsAudit(cfg, db, batch, ids[..n], batchId, now);
      EnqueueKeepsAudit(cfg, EnqueueAll(cfg, db, batch, ids[..n], batchId, now),
                        Item(ids[n], LastPayload(batch, ids[n])), batchId, now);
      assert ids == ids[..n] + [ids[n]];
    }
  }

  lemma {:induction false} RecoverAllKeepsAudit(db: Db, rows: seq<EventId>, now: Time)
    requires AllAudited(db) && Distinct(rows)
    requires forall e :: e in rows ==> e in db.jobs && db.jobs[e].state.Processing?
    ensures AllAudited(RecoverAll(db, rows, now))
    ensures forall e :: e in db.jobs && e !in rows ==> RecoverAll(db, rows, now).jobs[e] == db.jobs[e]
  {
    if rows != [] {
      var n := |rows| - 1;
      RecoverAllKeepsAudit(db, rows[..n], now);
      RecoverKeepsAudit(RecoverAll(db, rows[..n], now), rows[n], now);
    }
  }

  lemma {:induction false} RedriveAllKeepsAudit(db: Db, ids: seq<EventId>, now: Time)
    requires AllAudited(db) && Distinct(ids)
    requires forall e :: e in ids ==> e in db.jobs && db.jobs[e].state.DeadLetter?
    ensures AllAudited(RedriveAll(db, ids, now))
    ensures forall e :: e in db.jobs && e !in ids ==> RedriveAll(db, ids, now).jobs[e] == db.jobs[e]
  {
    if ids != [] {
      var n := |ids| - 1;
      RedriveAllKeepsAudit(db, ids[..n], now);
      RedriveKeepsAudit(RedriveAll(db, ids[..n], now), ids[n], now);
    }
  }
}
