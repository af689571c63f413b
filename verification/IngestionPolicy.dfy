/** What the retry policy and the capacity check promise over whole runs. */
module IngestionPolicy {
  import opened Finite
  import opened IngestionModel
  import opened IngestionAudit
  import opened IngestionRuns
  import opened IngestionLedger
  import opened IngestionTrail

  // ---------------------------------------------------------------- claims and retries

  /** With outcomes on time, two workers never hold unrecovered claims of one job. */
  lemma ClaimsAreExclusive(cfg: Config, run: seq<Event>, v: WorkerId, w: WorkerId)
    requires OnTime(cfg, run)
    ensures var s := Exec(cfg, run);
            var p, q := PhaseOf(s, v), PhaseOf(s, w);
            !p.Idle? && !q.Idle? && p.event == q.event
            && !ClaimOver(s.db.log, p.event, p.mark) && !ClaimOver(s.db.log, q.event, q.mark)
            ==> v == w
  {
    RunIsSound(cfg, run);
    var s := Exec(cfg, run);
    var p, q := PhaseOf(s, v), PhaseOf(s, w);
    if !p.Idle? && !q.Idle? && p.event == q.event
       && !ClaimOver(s.db.log, p.event, p.mark) && !ClaimOver(s.db.log, q.event, q.mark)
    {
      HeldRow(s.db, v, p);
      HeldRow(s.db, w, q);
    }
  }

  /** The worker is about to record a failure of a job that exists, in whatever state. */
  ghost predicate RecordsFailure(s: System, w: WorkerId) {
    var p := PhaseOf(s, w);
    p.Failing? && p.event in s.db.jobs
  }

  /** Claims of a job since its last redrive. */
  function ClaimsSince(db: Db, e: EventId): nat {
    CountSince(JobLog(db.log, e), Claimed)
  }

  /** What a failure commit does to a booked job. */
  lemma FailureOfJob(cfg: Config, db: Db, e: EventId, w: WorkerId, f: Failure, now: Time)
    requires BookedAt(cfg, db, e) && e in db.jobs
    ensures var job, job' := db.jobs[e], Fail(db, e, w, f, now).jobs[e];
            && job.attempts == ClaimsSince(db, e)
            && (job.state.Processing? ==> job.attempts >= 1)
            && (job'.state.Retrying? <==> ClassifyFailure(f).1 && ClaimsSince(db, e) <= 3)
            && (job'.state.DeadLetter? <==> !ClassifyFailure(f).1 || ClaimsSince(db, e) >= 4)
            && (job'.state.Retrying? ==> job'.availableAt == now + RetryDelay(job.attempts))
  {
  }

  lemma FailureStep(cfg: Config, s: System, w: WorkerId, now: Time)
    requires RecordsFailure(s, w)
    ensures var p := PhaseOf(s, w);
            Next(cfg, s, CommitFailure(w, now)).db == Fail(s.db, p.event, w, p.failure, now)
  {
  }

  /** Main theorem: in every run, a failure is final exactly when it is permanent or comes after the
      fourth claim since the last redrive; the third failed attempt still schedules a retry. */
  lemma FourthFailureIsFinal(cfg: Config, run: seq<Event>, w: WorkerId, now: Time)
    requires RecordsFailure(Exec(cfg, run), w)
    ensures var s := Exec(cfg, run);
            var p := PhaseOf(s, w);
            var job' := Next(cfg, s, CommitFailure(w, now)).db.jobs[p.event];
            var retryable := ClassifyFailure(p.failure).1;
            && (job'.state.DeadLetter? <==> !retryable || ClaimsSince(s.db, p.event) >= 4)
            && (job'.state.Retrying? <==> retryable && ClaimsSince(s.db, p.event) <= 3)
  {
    var s := Exec(cfg, run);
    var p := PhaseOf(s, w);
    assert BookedAt(cfg, s.db, p.event) by { RunKeepsBooks(cfg, run); }
    FailureOfJob(cfg, s.db, p.event, w, p.failure, now);
    FailureStep(cfg, s, w, now);
  }

  /** Main theorem: in every run, a scheduled retry reads its delay at an index between 0 and 2 exactly
      when the job was claimed since its last redrive; otherwise it reads the last delay, at -1. */
  lemma RetryDelayIndexIff(cfg: Config, run: seq<Event>, w: WorkerId, now: Time)
    requires RecordsFailure(Exec(cfg, run), w)
    ensures var s := Exec(cfg, run);
            var e := PhaseOf(s, w).event;
            var job' := Next(cfg, s, CommitFailure(w, now)).db.jobs[e];
            job'.state.Retrying? ==>
              var i := s.db.jobs[e].attempts - 1;
              && (0 <= i <= 2 <==> ClaimsSince(s.db, e) >= 1)
              && (0 <= i <= 2 ==> job'.availableAt == now + RETRY_DELAYS_SECONDS[i])
              && (!(0 <= i <= 2) ==> i == -1 && job'.availableAt == now + RETRY_DELAYS_SECONDS[2])
  {
    var s := Exec(cfg, run);
    var p := PhaseOf(s, w);
    assert BookedAt(cfg, s.db, p.event) by { RunKeepsBooks(cfg, run); }
    FailureOfJob(cfg, s.db, p.event, w, p.failure, now);
    FailureStep(cfg, s, w, now);
  }

  /** So the index is in range in every run whose failing row is processing, which is what a worker
      finds that has not been overtaken. */
  lemma RetryDelayIndexInRange(cfg: Config, run: seq<Event>, w: WorkerId, now: Time)
    requires RecordsFailure(Exec(cfg, run), w)
    requires Exec(cfg, run).db.jobs[PhaseOf(Exec(cfg, run), w).event].state.Processing?
    ensures var s := Exec(cfg, run);
            var e := PhaseOf(s, w).event;
            var job' := Next(cfg, s, CommitFailure(w, now)).db.jobs[e];
            job'.state.Retrying? ==>
              var i := s.db.jobs[e].attempts - 1;
              0 <= i <= 2 && job'.availableAt == now + RETRY_DELAYS_SECONDS[i]
  {
    var s := Exec(cfg, run);
    var p := PhaseOf(s, w);
    assert BookedAt(cfg, s.db, p.event) by { RunKeepsBooks(cfg, run); }
    FailureOfJob(cfg, s.db, p.event, w, p.failure, now);
    FailureStep(cfg, s, w, now);
  }

  // ---------------------------------------------------------------- capacity

  function RedriveCounts(jobs: map<EventId, Job>): map<EventId, nat> {
    map e | e in jobs :: jobs[e].redrives
  }

  ghost function Redrives(jobs: map<EventId, Job>): nat {
    Total(RedriveCounts(jobs))
  }

  lemma WriteActive(jobs: map<EventId, Job>, e: EventId, job: Job)
    ensures ActiveCount(jobs[e := job]) ==
            ActiveCount(jobs) - (if e in jobs && IsActive(jobs[e].state) then 1 else 0)
            + (if IsActive(job.state) then 1 else 0)
  {
    var before := ActiveIds(jobs);
    assert ActiveIds(jobs[e := job]) == if IsActive(job.state) then before - {e} + {e} else before - {e};
  }

  lemma WriteRedrives(jobs: map<EventId, Job>, e: EventId, job: Job)
    ensures Redrives(jobs[e := job]) == Redrives(jobs) - (if e in jobs then jobs[e].redrives else 0) + job.redrives
  {
    assert RedriveCounts(jobs[e := job]) == RedriveCounts(jobs)[e := job.redrives];
    TotalUpdate(RedriveCounts(jobs), e, job.redrives);
  }

  lemma WriteCounts(jobs: map<EventId, Job>, e: EventId, job: Job)
    ensures ActiveCount(jobs[e := job]) ==
            ActiveCount(jobs) - (if e in jobs && IsActive(jobs[e].state) then 1 else 0)
            + (if IsActive(job.state) then 1 else 0)
    ensures Redrives(jobs[e := job]) == Redrives(jobs) - (if e in jobs then jobs[e].redrives else 0) + job.redrives
  {
    WriteActive(jobs, e, job);
    WriteRedrives(jobs, e, job);
  }

  lemma {:induction false} EnqueueAllCounts(cfg: Config, db: Db, batch: seq<Item>, ids: seq<EventId>, batchId: nat,
                                            now: Time)
    requires Distinct(ids)
    requires forall e :: e in ids ==> Mentions(batch, e) && e !in db.jobs
    ensures var jobs := EnqueueAll(cfg, db, batch, ids, batchId, now).jobs;
            && (forall e :: e in jobs <==> e in db.jobs || e in ids)
            && ActiveCount(jobs) == ActiveCount(db.jobs) + |ids|
            && Redrives(jobs) == Redrives(db.jobs)
  {
    if ids != [] {
      var n := |ids| - 1;
      EnqueueAllCounts(cfg, db, batch, ids[..n], batchId, now);
      var job := NewJob(cfg, LastPayload(batch, ids[n]), batchId, now);
      WriteCounts(EnqueueAll(cfg, db, batch, ids[..n], batchId, now).jobs, ids[n], job);
      assert ids == ids[..n] + [ids[n]];
    }
  }

  lemma {:induction false} RecoverAllCounts(db: Db, rows: seq<EventId>, now: Time)
    requires Distinct(rows)
    requires forall e :: e in rows ==> e in db.jobs && db.jobs[e].state.Processing?
    ensures var jobs := RecoverAll(db, rows, now).jobs;
            && ActiveCount(jobs) == ActiveCount(db.jobs) && Redrives(jobs) == Redrives(db.jobs)
            && forall e :: e in db.jobs && e !in rows ==> jobs[e] == db.jobs[e]
  {
    if rows != [] {
      var n := |rows| - 1;
      RecoverAllCounts(db, rows[..n], now);
      var mid := RecoverAll(db, rows[..n], now);
      WriteCounts(mid.jobs, rows[n], RecoverOne(mid, rows[n], now).jobs[rows[n]]);
    }
  }

  lemma {:induction false} RedriveAllCounts(db: Db, ids: seq<EventId>, now: Time)
    requires Distinct(ids)
    requires forall e :: e in ids ==> e in db.jobs && db.jobs[e].state.DeadLetter?
    ensures var jobs := RedriveAll(db, ids, now).jobs;
            && ActiveCount(jobs) == ActiveCount(db.jobs) + |ids| && Redrives(jobs) == Redrives(db.jobs) + |ids|
            && forall e :: e in db.jobs && e !in ids ==> jobs[e] == db.jobs[e]
  {
    if ids != [] {
      var n := |ids| - 1;
      RedriveAllCounts(db, ids[..n], now);
      var mid := RedriveAll(db, ids[..n], now);
      WriteCounts(mid.jobs, ids[n], RedriveOne(mid, ids[n], now).jobs[ids[n]]);
    }
  }

  /** The redrive requeues its events. */
  ghost predicate RedriveCommits(cfg: Config, db: Db, request: RedriveRequest, now: Time) {
    RedriveVerdict(cfg, db, request, now).None? && !request.dryRun
  }

  lemma RedriveEventsCounts(cfg: Config, db: Db, request: RedriveRequest, now: Time)
    requires RedriveCommits(cfg, db, request, now)
    ensures var jobs := Redrive(cfg, db, request, now).jobs;
            && ActiveCount(jobs) == ActiveCount(db.jobs) + |request.ids|
            && Redrives(jobs) == Redrives(db.jobs) + |request.ids|
  {
    assert forall e :: e in request.ids ==> EvaluateRedrive(cfg, db, e, request.compat, now).None?;
    RedriveAllCounts(db, request.ids, now);
  }

  lemma RedriveStepCounts(cfg: Config, s: System, request: RedriveRequest, now: Time)
    ensures var jobs := Next(cfg, s, RedriveEvents(request, now)).db.jobs;
            if RedriveCommits(cfg, s.db, request, now) then
              && ActiveCount(jobs) == ActiveCount(s.db.jobs) + |request.ids|
              && Redrives(jobs) == Redrives(s.db.jobs) + |request.ids|
            else jobs == s.db.jobs
  {
    if RedriveCommits(cfg, s.db, request, now) {
      RedriveEventsCounts(cfg, s.db, request, now);
    }
  }

  lemma EnqueueCounts(cfg: Config, db: Db, batch: seq<Item>, batchId: nat, now: Time)
    ensures var jobs := Enqueue(cfg, db, batch, batchId, now).jobs;
            && (jobs == db.jobs || ActiveCount(jobs) <= cfg.queueLimit)
            && Redrives(jobs) == Redrives(db.jobs)
  {
    if EnqueueVerdict(cfg, db, batch).None? {
      EnqueueAllCounts(cfg, db, batch, NewIds(db.jobs, batch), batchId, now);
    }
  }

  lemma RecoverCounts(db: Db, rows: seq<EventId>, now: Time)
    requires IsLapsedListing(db.jobs, now, rows)
    ensures ActiveCount(RecoverAll(db, rows, now).jobs) == ActiveCount(db.jobs)
    ensures Redrives(RecoverAll(db, rows, now).jobs) == Redrives(db.jobs)
  {
    assert forall e :: e in rows ==> LeaseLapsed(db.jobs, e, now);
    RecoverAllCounts(db, rows, now);
  }

  /** A failure commit that turns a job that was done for, succeeded or dead, into a retrying one. */
  ghost predicate Revives(s: System, ev: Event) {
    ev.CommitFailure? &&
    var p := PhaseOf(s, ev.worker);
    && p.Failing? && p.event in s.db.jobs
    && IsTerminal(s.db.jobs[p.event].state)
    && ClassifyFailure(p.failure).1 && s.db.jobs[p.event].attempts <= |RETRY_DELAYS_SECONDS|
  }

  /** An outcome activates a job exactly when it revives one. */
  lemma OutcomeCounts(cfg: Config, s: System, ev: Event)
    requires ev.CommitSuccess? || ev.CommitFailure?
    ensures var jobs := Next(cfg, s, ev).db.jobs;
            && (if Revives(s, ev) then ActiveCount(jobs) == ActiveCount(s.db.jobs) + 1
                else ActiveCount(jobs) <= ActiveCount(s.db.jobs))
            && Redrives(jobs) == Redrives(s.db.jobs)
  {
    var db' := Next(cfg, s, ev).db;
    if db' != s.db {
      var e := PhaseOf(s, ev.worker).event;
      assert db'.jobs == s.db.jobs[e := db'.jobs[e]];
      WriteCounts(s.db.jobs, e, db'.jobs[e]);
    }
  }

  lemma ClaimCounts(cfg: Config, db: Db, e: EventId, w: WorkerId, now: Time)
    requires Claimable(db, e, now)
    ensures var jobs := Claim(cfg, db, e, w, now).jobs;
            ActiveCount(jobs) == ActiveCount(db.jobs) && Redrives(jobs) == Redrives(db.jobs)
  {
    WriteCounts(db.jobs, e, Claim(cfg, db, e, w, now).jobs[e]);
  }

  /** What a step does to the number of active jobs and to the sum of redrive counts: redrives and
      revivals add active jobs, and nothing else does beyond the limit. */
  lemma StepCounts(cfg: Config, s: System, ev: Event)
    ensures var jobs := Next(cfg, s, ev).db.jobs;
            if ev.RedriveEvents? && RedriveCommits(cfg, s.db, ev.request, ev.now) then
              && ActiveCount(jobs) == ActiveCount(s.db.jobs) + |ev.request.ids|
              && Redrives(jobs) == Redrives(s.db.jobs) + |ev.request.ids|
            else
              && (if Revives(s, ev) then ActiveCount(jobs) == ActiveCount(s.db.jobs) + 1
                  else ActiveCount(jobs) <= ActiveCount(s.db.jobs) || ActiveCount(jobs) <= cfg.queueLimit)
              && Redrives(jobs) == Redrives(s.db.jobs)
  {
    match ev
    case EnqueueBatch(batch, batchId, now) => EnqueueCounts(cfg, s.db, batch, batchId, now);
    case ClaimNext(w, e, now) =>
      if PhaseOf(s, w).Idle? && Claimable(s.db, e, now) {
        ClaimCounts(cfg, s.db, e, w, now);
      }
    case CommitSuccess(w, answer, now) => OutcomeCounts(cfg, s, ev);
    case CommitFailure(w, now) => OutcomeCounts(cfg, s, ev);
    case RecoverLeases(rows, now) =>
      if IsLapsedListing(s.db.jobs, now, rows) {
        RecoverCounts(s.db, rows, now);
      }
    case RedriveEvents(request, now) => RedriveStepCounts(cfg, s, request, now);
    case PredictDirectly(items) => StageAllTables(s.db, items);
    case _ =>
  }

  /** The failure commits of a run that revived a job. */
  ghost function Revivals(cfg: Config, run: seq<Event>): nat {
    if |run| == 0 then 0
    else
      var before := run[..|run| - 1];
      Revivals(cfg, before) + (if Revives(Exec(cfg, before), run[|run| - 1]) then 1 else 0)
  }

  /** Active jobs exceed the limit by redrives and by so many revivals at most. */
  ghost predicate WithinCapacity(cfg: Config, db: Db, revivals: nat) {
    ActiveCount(db.jobs) <= cfg.queueLimit + Redrives(db.jobs) + revivals
  }

  lemma NextKeepsCapacity(cfg: Config, s: System, ev: Event, revivals: nat)
    requires WithinCapacity(cfg, s.db, revivals)
    ensures WithinCapacity(cfg, Next(cfg, s, ev).db, revivals + (if Revives(s, ev) then 1 else 0))
  {
    StepCounts(cfg, s, ev);
  }

  /** Main theorem: in every run, active jobs exceed the queue limit only by redrives, which skip the
      check that enqueue makes, and by revived jobs. */
  lemma {:induction false} CapacityHolds(cfg: Config, run: seq<Event>)
    ensures WithinCapacity(cfg, Exec(cfg, run).db, Revivals(cfg, run))
  {
    if |run| == 0 {
      assert ActiveIds(START.db.jobs) == {};
    } else {
      var before := run[..|run| - 1];
      CapacityHolds(cfg, before);
      NextKeepsCapacity(cfg, Exec(cfg, before), run[|run| - 1], Revivals(cfg, before));
    }
  }

  /** No outcome of a guarded run revives a job. */
  lemma {:induction false} GuardedRevivesNothing(cfg: Config, run: seq<Event>)
    requires Guarded(cfg, run)
    ensures Revivals(cfg, run) == 0
  {
    if |run| == 0 {
    } else {
      var before, ev := run[..|run| - 1], run[|run| - 1];
      GuardedRevivesNothing(cfg, before);
      if Revives(Exec(cfg, before), ev) {
        FailureStep(cfg, Exec(cfg, before), ev.worker, ev.now);
        assert false;
      }
    }
  }

  ghost predicate WithinLimit(cfg: Config, db: Db) {
    ActiveCount(db.jobs) <= cfg.queueLimit
  }

  /** The check that redrive would need, and that an operator can make before the call. */
  ghost predicate RedriveFits(cfg: Config, db: Db, request: RedriveRequest) {
    ActiveCount(db.jobs) + |request.ids| <= cfg.queueLimit
  }

  /** Exactly when a redrive that commits leaves the table within the queue limit. */
  lemma RedriveKeepsLimitIff(cfg: Config, db: Db, request: RedriveRequest, now: Time)
    requires RedriveCommits(cfg, db, request, now)
    ensures WithinLimit(cfg, Redrive(cfg, db, request, now)) <==> RedriveFits(cfg, db, request)
  {
    RedriveEventsCounts(cfg, db, request, now);
  }

  /** The limit holds after every step of the run. */
  ghost predicate LimitAlwaysHeld(cfg: Config, run: seq<Event>) {
    WithinLimit(cfg, Exec(cfg, run).db) && (|run| == 0 || LimitAlwaysHeld(cfg, run[..|run| - 1]))
  }

  /** A step that adds active jobs without asking finds room for them. */
  ghost predicate FindsRoom(cfg: Config, s: System, ev: Event) {
    && (ev.RedriveEvents? && RedriveCommits(cfg, s.db, ev.request, ev.now) ==> RedriveFits(cfg, s.db, ev.request))
    && (Revives(s, ev) ==> ActiveCount(s.db.jobs) < cfg.queueLimit)
  }

  /** So does every such step of the run. */
  ghost predicate AllFindRoom(cfg: Config, run: seq<Event>) {
    |run| == 0
    || (AllFindRoom(cfg, run[..|run| - 1]) && FindsRoom(cfg, Exec(cfg, run[..|run| - 1]), run[|run| - 1]))
  }

  lemma StepKeepsLimitIff(cfg: Config, s: System, ev: Event)
    requires WithinLimit(cfg, s.db)
    ensures WithinLimit(cfg, Next(cfg, s, ev).db) <==> FindsRoom(cfg, s, ev)
  {
    StepCounts(cfg, s, ev);
  }

  /** Main theorem: a run keeps the active jobs within the queue limit throughout exactly when each
      redrive that committed, and each failure that revived a job, found room. */
  lemma {:induction false} LimitHeldIff(cfg: Config, run: seq<Event>)
    ensures LimitAlwaysHeld(cfg, run) <==> AllFindRoom(cfg, run)
  {
    if |run| == 0 {
      assert ActiveIds(START.db.jobs) == {};
    } else {
      var before := run[..|run| - 1];
      LimitHeldIff(cfg, before);
      if LimitAlwaysHeld(cfg, before) {
        StepKeepsLimitIff(cfg, Exec(cfg, before), run[|run| - 1]);
      }
    }
  }

  // ---------------------------------------------------------------- termination

  /** Claims that a job can still see while nothing but workers touches it. */
  function ClaimsLeft(job: Job): nat {
    if job.attempts < 4 then 4 - job.attempts
    else if job.state.Queued? || job.state.Retrying? then 1
    else 0
  }

  function PhaseWork(p: Phase): nat {
    match p
    case Idle => 0
    case Holding(_, _) => 3
    case Staged(_, _, _) => 2
    case Failing(_, _, _) => 1
  }

  function AllClaimsLeft(jobs: map<EventId, Job>): map<EventId, nat> {
    map e | e in jobs :: ClaimsLeft(jobs[e])
  }

  function PhaseWorks(phases: map<WorkerId, Phase>): map<WorkerId, nat> {
    map w | w in phases :: PhaseWork(phases[w])
  }

  /** Bounds the steps left before every worker is idle and no job is claimable: a claim leads to at
      most three steps of its worker. */
  ghost function Work(s: System): nat {
    4 * Total(AllClaimsLeft(s.db.jobs)) + Total(PhaseWorks(s.phases))
  }

  predicate IsWorkerEvent(ev: Event) {
    ev.ClaimNext? || ev.BeginAttempt? || ev.CommitSuccess? || ev.CommitFailure? || ev.Crash?
  }

  lemma WorkOfWrite(s: System, s': System, e: EventId, w: WorkerId)
    requires e in s'.db.jobs && w in s'.phases
    requires s'.db.jobs == s.db.jobs[e := s'.db.jobs[e]]
    requires s'.phases == s.phases[w := s'.phases[w]]
    ensures Work(s') == Work(s) + PhaseWork(s'.phases[w]) - PhaseWork(PhaseOf(s, w))
                        + 4 * (ClaimsLeft(s'.db.jobs[e]) - (if e in s.db.jobs then ClaimsLeft(s.db.jobs[e]) else 0))
  {
    assert AllClaimsLeft(s'.db.jobs) == AllClaimsLeft(s.db.jobs)[e := ClaimsLeft(s'.db.jobs[e])];
    TotalUpdate(AllClaimsLeft(s.db.jobs), e, ClaimsLeft(s'.db.jobs[e]));
    assert PhaseWorks(s'.phases) == PhaseWorks(s.phases)[w := PhaseWork(s'.phases[w])];
    TotalUpdate(PhaseWorks(s.phases), w, PhaseWork(s'.phases[w]));
  }

  lemma WorkOfPhase(s: System, w: WorkerId, p: Phase)
    ensures Work(s.(phases := s.phases[w := p])) == Work(s) + PhaseWork(p) - PhaseWork(PhaseOf(s, w))
  {
    var phases' := s.phases[w := p];
    assert PhaseWorks(phases') == PhaseWorks(s.phases)[w := PhaseWork(p)];
    TotalUpdate(PhaseWorks(s.phases), w, PhaseWork(p));
  }

  lemma OutcomeUsesWork(cfg: Config, s: System, ev: Event)
    requires (ev.CommitSuccess? && PhaseOf(s, ev.worker).Staged?)
             || (ev.CommitFailure? && PhaseOf(s, ev.worker).Failing?)
    ensures Work(Next(cfg, s, ev)) < Work(s)
  {
    var s', w := Next(cfg, s, ev), ev.worker;
    var e := PhaseOf(s, w).event;
    if s'.db == s.db {
      WorkOfPhase(s, w, s'.phases[w]);
    } else {
      assert s'.db.jobs == s.db.jobs[e := s'.db.jobs[e]];
      WorkOfWrite(s, s', e, w);
    }
  }

  /** Each worker step that changes anything uses up some of the work left, a stale one included. */
  lemma WorkerStepUsesWork(cfg: Config, s: System, ev: Event)
    requires IsWorkerEvent(ev)
    ensures Next(cfg, s, ev) == s || Work(Next(cfg, s, ev)) < Work(s)
  {
    var s' := Next(cfg, s, ev);
    if s' != s {
      match ev
      case ClaimNext(w, e, now) => WorkOfWrite(s, s', e, w);
      case BeginAttempt(w, blocked, inference) => WorkOfPhase(s, w, s'.phases[w]);
      case CommitSuccess(w, answer, now) => OutcomeUsesWork(cfg, s, ev);
      case CommitFailure(w, now) => OutcomeUsesWork(cfg, s, ev);
      case Crash(w) => WorkOfPhase(s, w, Idle);
    }
  }

  lemma PredictionKeepsWork(cfg: Config, s: System, items: seq<Prediction>)
    ensures Work(Next(cfg, s, PredictDirectly(items))) == Work(s)
  {
    StageAllTables(s.db, items);
  }

  /** One for a worker event that changes the state. */
  ghost function Effect(cfg: Config, s: System, ev: Event): nat {
    if IsWorkerEvent(ev) && Next(cfg, s, ev) != s then 1 else 0
  }

  lemma StepUsesWork(cfg: Config, s: System, ev: Event)
    requires IsWorkerEvent(ev) || ev.PredictDirectly?
    ensures Effect(cfg, s, ev) + Work(Next(cfg, s, ev)) <= Work(s)
  {
    if IsWorkerEvent(ev) {
      WorkerStepUsesWork(cfg, s, ev);
    } else {
      PredictionKeepsWork(cfg, s, ev.items);
    }
  }

  /** The state after continuing from s. */
  ghost function ExecFrom(cfg: Config, s: System, tail: seq<Event>): System {
    if |tail| == 0 then s else Next(cfg, ExecFrom(cfg, s, tail[..|tail| - 1]), tail[|tail| - 1])
  }

  /** Worker events of tail that change the state when it continues from s. */
  ghost function EffectiveSteps(cfg: Config, s: System, tail: seq<Event>): nat {
    if |tail| == 0 then 0
    else
      var before := tail[..|tail| - 1];
      EffectiveSteps(cfg, s, before) + Effect(cfg, ExecFrom(cfg, s, before), tail[|tail| - 1])
  }

  lemma {:induction false} ContinuedRun(cfg: Config, run: seq<Event>, tail: seq<Event>)
    ensures Exec(cfg, run + tail) == ExecFrom(cfg, Exec(cfg, run), tail)
  {
    if |tail| == 0 {
      assert run + tail == run;
    } else {
      var n := |tail| - 1;
      ContinuedRun(cfg, run, tail[..n]);
      assert run + tail == (run + tail[..n]) + [tail[n]];
      ExecSnoc(cfg, run + tail[..n], tail[n]);
    }
  }

  lemma {:induction false} WorkersFinishFrom(cfg: Config, s: System, tail: seq<Event>)
    requires forall i :: 0 <= i < |tail| ==> IsWorkerEvent(tail[i]) || tail[i].PredictDirectly?
    ensures EffectiveSteps(cfg, s, tail) + Work(ExecFrom(cfg, s, tail)) <= Work(s)
  {
    if |tail| == 0 {
    } else {
      var n := |tail| - 1;
      WorkersFinishFrom(cfg, s, tail[..n]);
      StepUsesWork(cfg, ExecFrom(cfg, s, tail[..n]), tail[n]);
    }
  }

  /** Main theorem: once enqueue, redrive and recovery stop, the workers change the state at most
      Work times, in every continuation of every run, direct predictions in between or not. */
  lemma WorkersFinish(cfg: Config, run: seq<Event>, tail: seq<Event>)
    requires forall i :: 0 <= i < |tail| ==> IsWorkerEvent(tail[i]) || tail[i].PredictDirectly?
    ensures EffectiveSteps(cfg, Exec(cfg, run), tail) + Work(Exec(cfg, run + tail)) <= Work(Exec(cfg, run))
  {
    WorkersFinishFrom(cfg, Exec(cfg, run), tail);
    ContinuedRun(cfg, run, tail);
  }
}
