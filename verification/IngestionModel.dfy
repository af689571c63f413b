/** The durable ingestion tables and the transactions that change them, as functions on values.

    Every function here is one committed database transaction (or one row of a batch
    transaction).  The class in IngestionStore performs the same work by updating fields, and
    its methods are proved equal to these functions; IngestionRuns interleaves them.

    UUIDs, payloads and digests are opaque: only their equality matters, so they are numbers. */
module IngestionModel {
  import opened Text
  import opened Wrappers

  type EventId = nat
  type WorkerId = nat
  type Payload = nat
  type Digest = nat
  type Time = int

  datatype JobState = Queued | Processing | Retrying | Succeeded | DeadLetter

  datatype ErrorCode =
    | ExtractorIncompatible
    | SchemaInvalid
    | PermanentIngestionError
    | ValidationError
    | InferenceTimeout
    | InferenceError
    | LeaseExpired

  datatype Reason =
    | Enqueued
    | Claimed
    | LeaseRecovered
    | ProcessingSucceeded
    | PermanentFailure
    | RetriesExhausted
    | RetryScheduled
    | ManualRedrive

  datatype Verdict = Normal | Attack

  /** One row of ingestion_jobs; the event identifier is the key of the table. */
  datatype Job = Job(
    batch: nat,
    payload: Payload,
    payloadHash: Digest,
    state: JobState,
    attempts: nat,
    createdAt: Time,
    availableAt: Time,
    lease: Option<Time>,
    worker: Option<WorkerId>,
    errorCode: Option<ErrorCode>,
    retryable: Option<bool>,
    redrives: nat,
    completedAt: Option<Time>)

  /** One row of the append-only audit table; at is the time that its transaction read. */
  datatype Transition = Transition(
    event: EventId,
    from: Option<JobState>,
    to: JobState,
    reason: Reason,
    errorCode: Option<ErrorCode>,
    retryable: Option<bool>,
    worker: Option<WorkerId>,
    delay: nat,
    at: Time)

  datatype Prediction = Prediction(event: EventId, verdict: Verdict)

  datatype EventKind = PredictionCreated | AlertCreated

  datatype OutboxRow = OutboxRow(event: EventId, kind: EventKind)

  /** The tables.  The effect tables are sequences, so that "at most one row" is a theorem. */
  datatype Db = Db(
    jobs: map<EventId, Job>,
    observations: seq<EventId>,
    predictions: seq<Prediction>,
    alerts: seq<EventId>,
    outbox: seq<OutboxRow>,
    log: seq<Transition>)

  const EMPTY := Db(map[], [], [], [], [], [])

  /** The deployment: queue capacity, the payload digest and the length of a worker lease. */
  datatype Config = Config(queueLimit: nat, hash: Payload -> Digest, leaseSeconds: nat)

  predicate IsActive(s: JobState) {
    s.Queued? || s.Processing? || s.Retrying?
  }

  predicate IsTerminal(s: JobState) {
    s.Succeeded? || s.DeadLetter?
  }

  function ActiveIds(jobs: map<EventId, Job>): set<EventId> {
    set e | e in jobs && IsActive(jobs[e].state)
  }

  /** Write one job row and append its audit entry, in one transaction. */
  function Write(db: Db, e: EventId, job: Job, t: Transition): Db {
    db.(jobs := db.jobs[e := job], log := db.log + [t])
  }

  // ---------------------------------------------------------------- enqueue

  datatype Item = Item(event: EventId, payload: Payload)

  datatype EnqueueError = IdempotencyConflict | QueueFull

  datatype Reply = Reply(event: EventId, state: JobState, accepted: bool)

  /** Item i repeats an earlier identifier of the batch with another digest, or disagrees with
      the stored job. */
  predicate ConflictAt(hash: Payload -> Digest, jobs: map<EventId, Job>, batch: seq<Item>, i: nat)
    requires i < |batch|
  {
    || (exists j :: 0 <= j < i && batch[j].event == batch[i].event
                    && hash(batch[j].payload) != hash(batch[i].payload))
    || (batch[i].event in jobs && jobs[batch[i].event].payloadHash != hash(batch[i].payload))
  }

  predicate Conflicting(hash: Payload -> Digest, jobs: map<EventId, Job>, batch: seq<Item>) {
    exists i :: 0 <= i < |batch| && ConflictAt(hash, jobs, batch, i)
  }

  predicate Mentions(batch: seq<Item>, e: EventId) {
    exists i :: 0 <= i < |batch| && batch[i].event == e
  }

  /** The identifiers that the table does not hold yet, each once, in order of appearance. */
  function NewIds(jobs: map<EventId, Job>, batch: seq<Item>): (ids: seq<EventId>)
    ensures forall e :: e in ids <==> e !in jobs && Mentions(batch, e)
    ensures forall i, j :: 0 <= i < j < |ids| ==> ids[i] != ids[j]
  {
    if batch == [] then []
    else
      var n := |batch| - 1;
      var ids := NewIds(jobs, batch[..n]);
      assert forall e :: Mentions(batch, e) <==> Mentions(batch[..n], e) || batch[n].event == e by {
        assert forall i :: 0 <= i < n ==> batch[..n][i] == batch[i];
      }
      if batch[n].event in jobs || batch[n].event in ids then ids else ids + [batch[n].event]
  }

  /** The item stands at index i, and its event nowhere after. */
  predicate IsLastItem(batch: seq<Item>, i: nat, item: Item)
    requires i < |batch|
  {
    batch[i] == item && forall j :: i < j < |batch| ==> batch[j].event != item.event
  }

  /** The payload that a dictionary built from the batch keeps for e: the last one. */
  function LastPayload(batch: seq<Item>, e: EventId): (p: Payload)
    requires Mentions(batch, e)
    ensures Item(e, p) in batch
    ensures exists i :: 0 <= i < |batch| && IsLastItem(batch, i, Item(e, p))
  {
    var n := |batch| - 1;
    if batch[n].event == e then
      assert IsLastItem(batch, n, batch[n]);
      batch[n].payload
    else
      assert Mentions(batch[..n], e) by {
        var i :| 0 <= i < |batch| && batch[i].event == e;
        assert batch[..n][i].event == e;
      }
      var p := LastPayload(batch[..n], e);
      assert exists i :: 0 <= i < |batch| && IsLastItem(batch, i, Item(e, p)) by {
        var i :| 0 <= i < n && IsLastItem(batch[..n], i, Item(e, p));
        assert forall j :: i < j < n ==> batch[j] == batch[..n][j];
        assert IsLastItem(batch, i, Item(e, p));
      }
      p
  }

  function NewJob(cfg: Config, payload: Payload, batchId: nat, now: Time): Job {
    Job(batchId, payload, cfg.hash(payload), Queued, 0, now, now, None, None, None, None, 0, None)
  }

  function EnqueueOne(cfg: Config, db: Db, item: Item, batchId: nat, now: Time): Db {
    Write(db, item.event, NewJob(cfg, item.payload, batchId, now),
          Transition(item.event, None, Queued, Enqueued, None, None, None, 0, now))
  }

  function EnqueueAll(cfg: Config, db: Db, batch: seq<Item>, ids: seq<EventId>, batchId: nat, now: Time): Db
    requires forall e :: e in ids ==> Mentions(batch, e)
  {
    if ids == [] then db
    else
      var n := |ids| - 1;
      EnqueueOne(cfg, EnqueueAll(cfg, db, batch, ids[..n], batchId, now),
                 Item(ids[n], LastPayload(batch, ids[n])), batchId, now)
  }

  function ActiveCount(jobs: map<EventId, Job>): nat {
    |ActiveIds(jobs)|
  }

  function EnqueueVerdict(cfg: Config, db: Db, batch: seq<Item>): Option<EnqueueError> {
    if Conflicting(cfg.hash, db.jobs, batch) then Some(IdempotencyConflict)
    else if ActiveCount(db.jobs) + |NewIds(db.jobs, batch)| > cfg.queueLimit then Some(QueueFull)
    else None
  }

  /** The state after enqueue_observations: the whole batch or nothing. */
  function Enqueue(cfg: Config, db: Db, batch: seq<Item>, batchId: nat, now: Time): Db {
    if EnqueueVerdict(cfg, db, batch).Some? then db
    else EnqueueAll(cfg, db, batch, NewIds(db.jobs, batch), batchId, now)
  }

  /** Item i introduces an identifier that neither the table nor the batch has shown before. */
  predicate IsFirstOccurrence(jobs: map<EventId, Job>, batch: seq<Item>, i: nat)
    requires i < |batch|
  {
    batch[i].event !in jobs && forall j :: 0 <= j < i ==> batch[j].event != batch[i].event
  }

  function ReplyAt(jobs: map<EventId, Job>, batch: seq<Item>, i: nat): Reply
    requires i < |batch|
  {
    var e := batch[i].event;
    Reply(e, if e in jobs then jobs[e].state else Queued, IsFirstOccurrence(jobs, batch, i))
  }

  function Replies(jobs: map<EventId, Job>, batch: seq<Item>): seq<Reply> {
    seq(|batch|, i requires 0 <= i < |batch| => ReplyAt(jobs, batch, i))
  }

  // ---------------------------------------------------------------- claim and recovery

  predicate Claimable(db: Db, e: EventId, now: Time) {
    && e in db.jobs
    && (db.jobs[e].state.Queued? || db.jobs[e].state.Retrying?)
    && db.jobs[e].availableAt <= now
  }

  function Claim(cfg: Config, db: Db, e: EventId, w: WorkerId, now: Time): Db
    requires e in db.jobs
  {
    var job := db.jobs[e];
    Write(db, e,
          job.(state := Processing, attempts := job.attempts + 1, worker := Some(w),
          lease := Some(now + cfg.leaseSeconds)),
          Transition(e, Some(job.state), Processing, Claimed, None, None, Some(w), 0, now))
  }

  predicate LeaseLapsed(jobs: map<EventId, Job>, e: EventId, now: Time) {
    && e in jobs
    && jobs[e].state.Processing?
    && jobs[e].lease.Some?
    && jobs[e].lease.value < now
  }

  /** rows lists exactly the jobs that the recovery query selects, each once. */
  ghost predicate IsLapsedListing(jobs: map<EventId, Job>, now: Time, rows: seq<EventId>) {
    && (forall e :: e in rows <==> LeaseLapsed(jobs, e, now))
    && (forall i, j :: 0 <= i < j < |rows| ==> rows[i] != rows[j])
  }

  function RecoverOne(db: Db, e: EventId, now: Time): Db
    requires e in db.jobs
  {
    var job := db.jobs[e];
    Write(db, e,
          job.(state := Retrying, availableAt := now, lease := None, worker := None,
          errorCode := Some(LeaseExpired), retryable := Some(true)),
          Transition(e, Some(Processing), Retrying, LeaseRecovered, Some(LeaseExpired), Some(true),
                     job.worker, 0, now))
  }

  function RecoverAll(db: Db, rows: seq<EventId>, now: Time): (r: Db)
    requires forall e :: e in rows ==> e in db.jobs
    ensures r.jobs.Keys == db.jobs.Keys
  {
    if rows == [] then db
    else
      var n := |rows| - 1;
      RecoverOne(RecoverAll(db, rows[..n], now), rows[n], now)
  }

  // ---------------------------------------------------------------- processing

  /** What an attempt raised.  Messages are reduced to the two searches that classify_failure does. */
  datatype Failure =
    | Permanent(mentionsExtractor: bool, mentionsSchema: bool)
    | InvalidValue
    | TimedOut
    | OtherError

  function ClassifyFailure(f: Failure): (ErrorCode, bool) {
    match f
    case Permanent(extractor, schema) =>
      if extractor then (ExtractorIncompatible, false)
      else if schema then (SchemaInvalid, false)
      else (PermanentIngestionError, false)
    case InvalidValue => (ValidationError, false)
    case TimedOut => (InferenceTimeout, true)
    case OtherError => (InferenceError, true)
  }

  const RETRY_DELAYS_SECONDS: seq<nat> := [1, 5, 30]

  /** RETRY_DELAYS_SECONDS[attempts - 1], where index -1 reads the last element. */
  function RetryDelay(attempts: nat): nat
    requires attempts <= |RETRY_DELAYS_SECONDS|
  {
    RETRY_DELAYS_SECONDS[if attempts == 0 then |RETRY_DELAYS_SECONDS| - 1 else attempts - 1]
  }

  /** The rows that stage_observation adds for a verdict. */
  function StagedRows(e: EventId, v: Verdict): seq<OutboxRow> {
    [OutboxRow(e, PredictionCreated)] + (if v.Attack? then [OutboxRow(e, AlertCreated)] else [])
  }

  function Stage(db: Db, e: EventId, v: Verdict): Db {
    db.(observations := db.observations + [e],
        predictions := db.predictions + [Prediction(e, v)],
        alerts := db.alerts + (if v.Attack? then [e] else []))
  }

  /** The success transaction: effects, outbox rows, audit entry and job row together. */
  function Succeed(db: Db, e: EventId, w: WorkerId, v: Verdict, now: Time): Db
    requires e in db.jobs
  {
    var staged := Stage(db, e, v);
    Write(staged.(outbox := staged.outbox + StagedRows(e, v)), e,
          db.jobs[e].(state := Succeeded, completedAt := Some(now), lease := None, worker := None,
          errorCode := None, retryable := None),
          Transition(e, Some(Processing), Succeeded, ProcessingSucceeded, None, None, Some(w), 0, now))
  }

  /** The failure transaction.  It reads the row afresh and checks neither its state nor its owner. */
  function Fail(db: Db, e: EventId, w: WorkerId, f: Failure, now: Time): Db
    requires e in db.jobs
  {
    var (code, retryable) := ClassifyFailure(f);
    var job := db.jobs[e].(errorCode := Some(code), retryable := Some(retryable),
                           lease := None, worker := None);
    if !retryable || job.attempts > |RETRY_DELAYS_SECONDS| then
      Write(db, e, job.(state := DeadLetter, completedAt := Some(now)),
            Transition(e, Some(Processing), DeadLetter,
                       if !retryable then PermanentFailure else RetriesExhausted,
                       Some(code), Some(retryable), Some(w), 0, now))
    else
      var delay := RetryDelay(job.attempts);
      Write(db, e, job.(state := Retrying, availableAt := now + delay),
            Transition(e, Some(Processing), Retrying, RetryScheduled,
                       Some(code), Some(true), Some(w), delay, now))
  }

  // ---------------------------------------------------------------- redrive

  datatype Refusal =
    | NotFound
    | AlreadySucceeded
    | NotDeadLetter
    | ActiveLease
    | HashConflict
    | PredictionExists
    | ObservationExists
    | StillIncompatible
    | NotEligible

  predicate HasPrediction(db: Db, e: EventId) {
    exists i :: 0 <= i < |db.predictions| && db.predictions[i].event == e
  }

  /** evaluate_redrive; compat is the optional extractor compatibility check. */
  function EvaluateRedrive(cfg: Config, db: Db, e: EventId, compat: Option<Payload -> bool>, now: Time)
    : Option<Refusal>
  {
    if e !in db.jobs then Some(NotFound)
    else
      var row := db.jobs[e];
      if row.state.Succeeded? then Some(AlreadySucceeded)
      else if !row.state.DeadLetter? then Some(NotDeadLetter)
      else if row.lease.Some? && row.lease.value > now then Some(ActiveLease)
      else if cfg.hash(row.payload) != row.payloadHash then Some(HashConflict)
      else if HasPrediction(db, e) then Some(PredictionExists)
      else if e in db.observations then Some(ObservationExists)
      else if row.retryable == Some(true) then None
      else if row.errorCode == Some(ExtractorIncompatible) && compat.Some? then
        if compat.value(row.payload) then None else Some(StillIncompatible)
      else Some(NotEligible)
  }

  datatype RedriveError = EvidenceMissing | NoEvents | RepeatedEvents | Refused

  /** The arguments of redrive_events. */
  datatype RedriveRequest = RedriveRequest(
    ids: seq<EventId>,
    operator: string,
    reason: string,
    compat: Option<Payload -> bool>,
    dryRun: bool)

  predicate AnyRefused(cfg: Config, db: Db, request: RedriveRequest, now: Time) {
    exists e :: e in request.ids && EvaluateRedrive(cfg, db, e, request.compat, now).Some?
  }

  predicate Distinct(ids: seq<EventId>) {
    forall i, j :: 0 <= i < j < |ids| ==> ids[i] != ids[j]
  }

  function RedriveVerdict(cfg: Config, db: Db, request: RedriveRequest, now: Time): Option<RedriveError> {
    if IsBlank(request.operator) || IsBlank(request.reason) then Some(EvidenceMissing)
    else if request.ids == [] then Some(NoEvents)
    else if !Distinct(request.ids) then Some(RepeatedEvents)
    else if !request.dryRun && AnyRefused(cfg, db, request, now) then Some(Refused)
    else None
  }

  function Redriven(job: Job, now: Time): Job {
    job.(state := Queued, attempts := 0, availableAt := now, completedAt := None, worker := None,
         lease := None, errorCode := None, retryable := None, redrives := job.redrives + 1)
  }

  function RedriveOne(db: Db, e: EventId, now: Time): Db
    requires e in db.jobs
  {
    var job := db.jobs[e];
    Write(db, e, Redriven(job, now),
          Transition(e, Some(DeadLetter), Queued, ManualRedrive, job.errorCode, job.retryable, None, 0, now))
  }

  function RedriveAll(db: Db, ids: seq<EventId>, now: Time): (r: Db)
    requires forall e :: e in ids ==> e in db.jobs
    ensures r.jobs.Keys == db.jobs.Keys
  {
    if ids == [] then db
    else
      var n := |ids| - 1;
      RedriveOne(RedriveAll(db, ids[..n], now), ids[n], now)
  }

  /** One line of the report per listed event. */
  datatype ReportLine = ReportLine(event: EventId, refusal: Option<Refusal>)

  function RedriveReport(cfg: Config, db: Db, request: RedriveRequest, now: Time): seq<ReportLine> {
    seq(|request.ids|, i requires 0 <= i < |request.ids| =>
      ReportLine(request.ids[i], EvaluateRedrive(cfg, db, request.ids[i], request.compat, now)))
  }

  /** The state after redrive_events: every listed job or none. */
  function Redrive(cfg: Config, db: Db, request: RedriveRequest, now: Time): Db {
    if RedriveVerdict(cfg, db, request, now).Some? || request.dryRun then db
    else
      assert forall e :: e in request.ids ==> EvaluateRedrive(cfg, db, e, request.compat, now).None?;
      RedriveAll(db, request.ids, now)
  }
}
