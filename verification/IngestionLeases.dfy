/** When the lease premise holds: a worker that commits its outcome before its own lease ends has
    not been recovered, so long as the clock that all transactions read never runs backwards. */
module IngestionLeases {
  import opened Wrappers
  import opened IngestionModel
  import opened IngestionEffects
  import opened IngestionRuns
  import opened IngestionRequests

  function TimeOf(ev: Event): Option<Time> {
    match ev
    case EnqueueBatch(_, _, now) => Some(now)
    case ClaimNext(_, _, now) => Some(now)
    case CommitSuccess(_, _, now) => Some(now)
    case CommitFailure(_, now) => Some(now)
    case RecoverLeases(_, now) => Some(now)
    case RedriveEvents(_, now) => Some(now)
    case _ => None
  }

  /** The latest time that any transaction of the run has read. */
  function Clock(run: seq<Event>): Option<Time> {
    if run == [] then None
    else if TimeOf(run[|run| - 1]).Some? then TimeOf(run[|run| - 1])
    else Clock(run[..|run| - 1])
  }

  ghost predicate Claims(s: System, ev: Event, w: WorkerId) {
    ev.ClaimNext? && ev.worker == w && PhaseOf(s, w).Idle? && Claimable(s.db, ev.pick, ev.now)
  }

  /** When the lease of the worker's last claim ends. */
  ghost function LeaseEnd(cfg: Config, run: seq<Event>, w: WorkerId): Time {
    if |run| == 0 then 0
    else
      var before, ev := run[..|run| - 1], run[|run| - 1];
      if Claims(Exec(cfg, before), ev, w) then ev.now + cfg.leaseSeconds else LeaseEnd(cfg, before, w)
  }

  ghost predicate NotBefore(clock: Option<Time>, ev: Event) {
    clock.Some? && TimeOf(ev).Some? ==> clock.value <= TimeOf(ev).value
  }

  /** The claim was used up by a success whose answer was lost. */
  ghost predicate ClaimSpent(log: seq<Transition>, e: EventId, mark: nat) {
    exists i :: mark <= i < |log| && log[i].event == e && log[i].reason.ProcessingSucceeded?
  }

  /** An outcome is committed before the lease it was claimed under ends, and not after its own
      success. */
  ghost predicate WithinLease(s: System, ev: Event, leaseEnd: Time)
    requires ev.CommitSuccess? || ev.CommitFailure?
  {
    var p := PhaseOf(s, ev.worker);
    p.Idle? || (ev.now <= leaseEnd && !ClaimSpent(s.db.log, p.event, p.mark))
  }

  ghost predicate Punctual(cfg: Config, run: seq<Event>) {
    |run| == 0 ||
    var before, ev := run[..|run| - 1], run[|run| - 1];
    && Punctual(cfg, before)
    && NotBefore(Clock(before), ev)
    && (ev.CommitSuccess? || ev.CommitFailure? ==> WithinLease(Exec(cfg, before), ev, LeaseEnd(cfg, before, ev.worker)))
  }

  /** A claim that was recovered is past its lease; one that is not over still shows its lease in the
      row. */
  ghost predicate TimelyAt(s: System, w: WorkerId, leaseEnd: Time, clock: Option<Time>) {
    var p := PhaseOf(s, w);
    p.Idle? ||
    if ClaimOver(s.db.log, p.event, p.mark) then
      ClaimSpent(s.db.log, p.event, p.mark) || (clock.Some? && leaseEnd < clock.value)
    else p.event in s.db.jobs && s.db.jobs[p.event].lease == Some(leaseEnd)
  }

  lemma {:induction false} RecoverAllRows(db: Db, rows: seq<EventId>, now: Time)
    requires forall e :: e in rows ==> e in db.jobs
    ensures var db' := RecoverAll(db, rows, now);
            && db.log <= db'.log
            && (forall e :: e in db.jobs && e !in rows ==> db'.jobs[e] == db.jobs[e])
            && (forall i :: |db.log| <= i < |db'.log| ==> db'.log[i].event in rows)
  {
    if rows != [] {
      RecoverAllRows(db, rows[..|rows| - 1], now);
    }
  }

  lemma {:induction false} RecoverEndsClaims(db: Db, rows: seq<EventId>, now: Time, e: EventId)
    requires (forall x :: x in rows ==> x in db.jobs) && e in rows
    ensures ClaimOver(RecoverAll(db, rows, now).log, e, |db.log|)
  {
    var n := |rows| - 1;
    RecoverAllRows(db, rows[..n], now);
    var mid, db' := RecoverAll(db, rows[..n], now), RecoverAll(db, rows, now);
    if e == rows[n] {
      assert db'.log[|mid.log|].event == e && db'.log[|mid.log|].reason.LeaseRecovered?;
    } else {
      RecoverEndsClaims(db, rows[..n], now, e);
      var i :| |db.log| <= i < |mid.log| && mid.log[i].event == e && EndsClaim(mid.log[i].reason);
      assert db'.log[i] == mid.log[i];
    }
  }

  /** The transaction neither writes the job nor records anything about it. */
  ghost predicate Untouched(db: Db, db': Db, e: EventId) {
    && e in db.jobs && e in db'.jobs && db'.jobs[e] == db.jobs[e]
    && forall i :: |db.log| <= i < |db'.log| ==> db'.log[i].event != e
  }

  /** A step that neither writes nor recovers the job leaves its claim as it was. */
  lemma UntouchedStaysTimely(s: System, s': System, w: WorkerId, leaseEnd: Time, clock: Option<Time>,
                             clock': Option<Time>)
    requires TimelyAt(s, w, leaseEnd, clock) && ClaimsHeld(s)
    requires PhaseOf(s, w) == PhaseOf(s', w) && !PhaseOf(s, w).Idle?
    requires s.db.log <= s'.db.log
    requires clock.Some? ==> clock'.Some? && clock.value <= clock'.value
    requires var p := PhaseOf(s, w);
             !ClaimOver(s.db.log, p.event, p.mark) ==> Untouched(s.db, s'.db, p.event)
    ensures TimelyAt(s', w, leaseEnd, clock')
  {
    var p := PhaseOf(s, w);
    if i :| p.mark <= i < |s.db.log| && s.db.log[i].event == p.event && EndsClaim(s.db.log[i].reason) {
      assert s'.db.log[i] == s.db.log[i];
    } else {
      assert forall i :: 0 <= i < |s.db.log| ==> s'.db.log[i] == s.db.log[i];
    }
  }

  lemma EnqueueLeavesJobs(cfg: Config, db: Db, batch: seq<Item>, batchId: nat, now: Time, e: EventId)
    ensures var db' := Enqueue(cfg, db, batch, batchId, now);
            db.log <= db'.log && (e in db.jobs ==> Untouched(db, db', e))
  {
    if EnqueueVerdict(cfg, db, batch).None? {
      EnqueueAllRows(cfg, db, batch, NewIds(db.jobs, batch), batchId, now);
      EnqueueAllLog(cfg, db, batch, NewIds(db.jobs, batch), batchId, now);
    }
  }

  lemma RedriveLeavesProcessing(cfg: Config, db: Db, request: RedriveRequest, now: Time, e: EventId)
    ensures var db' := Redrive(cfg, db, request, now);
            db.log <= db'.log && (e in db.jobs && db.jobs[e].state.Processing? ==> Untouched(db, db', e))
  {
    if RedriveVerdict(cfg, db, request, now).None? && !request.dryRun {
      assert forall x :: x in request.ids ==> EvaluateRedrive(cfg, db, x, request.compat, now).None?;
      RedriveAllRows(db, request.ids, now);
      RedriveAllLog(db, request.ids, now);
    }
  }

  lemma ClaimLeavesProcessing(cfg: Config, db: Db, x: EventId, w: WorkerId, now: Time, e: EventId)
    requires Claimable(db, x, now) && e in db.jobs && db.jobs[e].state.Processing?
    ensures Untouched(db, Claim(cfg, db, x, w, now), e)
  {
  }

  /** An outcome of one worker leaves the job that another worker's claim holds. */
  lemma OutcomeLeavesOther(cfg: Config, s: System, ev: Event, w: WorkerId)
    requires Sound(s) && OutcomeOnTime(s, ev) && (ev.CommitSuccess? || ev.CommitFailure?) && ev.worker != w
    requires !PhaseOf(s, w).Idle? && !ClaimOver(s.db.log, PhaseOf(s, w).event, PhaseOf(s, w).mark)
    ensures Untouched(s.db, Next(cfg, s, ev).db, PhaseOf(s, w).event)
  {
    HeldRow(s.db, w, PhaseOf(s, w));
    OtherOutcome(s, ev, w);
  }

  /** What a step of somebody else does to a job that an unrecovered claim holds: nothing. */
  lemma ForeignStep(cfg: Config, s: System, ev: Event, w: WorkerId)
    requires Sound(s) && OutcomeOnTime(s, ev) && !PhaseOf(s, w).Idle?
    requires PhaseOf(Next(cfg, s, ev), w) == PhaseOf(s, w) && !ev.RecoverLeases?
    requires (ev.CommitSuccess? || ev.CommitFailure?) && ev.worker == w ==> Next(cfg, s, ev).db == s.db
    ensures s.db.log <= Next(cfg, s, ev).db.log
    ensures var p := PhaseOf(s, w);
            !ClaimOver(s.db.log, p.event, p.mark) ==> Untouched(s.db, Next(cfg, s, ev).db, p.event)
  {
    var p := PhaseOf(s, w);
    if !ClaimOver(s.db.log, p.event, p.mark) {
      HeldRow(s.db, w, p);
    }
    match ev
    case EnqueueBatch(batch, batchId, now) => EnqueueLeavesJobs(cfg, s.db, batch, batchId, now, p.event);
    case RedriveEvents(request, now) => RedriveLeavesProcessing(cfg, s.db, request, now, p.event);
    case PredictDirectly(items) => StageAllTables(s.db, items);
    case ClaimNext(v, x, now) =>
      if Next(cfg, s, ev) != s && !ClaimOver(s.db.log, p.event, p.mark) {
        ClaimLeavesProcessing(cfg, s.db, x, v, now, p.event);
      }
    case CommitSuccess(v, answer, now) =>
      if v != w && !ClaimOver(s.db.log, p.event, p.mark) {
        OutcomeLeavesOther(cfg, s, ev, w);
      }
    case CommitFailure(v, now) =>
      if v != w && !ClaimOver(s.db.log, p.event, p.mark) {
        OutcomeLeavesOther(cfg, s, ev, w);
      }
    case _ =>
  }

  /** Two workers whose claims are not recovered hold different jobs. */
  lemma OtherOutcome(s: System, ev: Event, w: WorkerId)
    requires Sound(s) && OutcomeOnTime(s, ev) && (ev.CommitSuccess? || ev.CommitFailure?)
    ensures var p, q := PhaseOf(s, w), PhaseOf(s, ev.worker);
            ev.worker != w && !p.Idle? && !q.Idle? && !ClaimOver(s.db.log, p.event, p.mark) ==> p.event != q.event
  {
    var p, q := PhaseOf(s, w), PhaseOf(s, ev.worker);
    if !p.Idle? && !q.Idle? && !ClaimOver(s.db.log, p.event, p.mark) {
      HeldRow(s.db, w, p);
      HeldRow(s.db, ev.worker, q);
    }
  }

  /** Recovery takes back exactly the claims whose lease has ended. */
  lemma RecoveryStaysTimely(s: System, rows: seq<EventId>, now: Time, w: WorkerId, leaseEnd: Time, clock: Option<Time>)
    requires Sound(s) && IsLapsedListing(s.db.jobs, now, rows)
    requires TimelyAt(s, w, leaseEnd, clock) && (clock.Some? ==> clock.value <= now)
    ensures TimelyAt(s.(db := RecoverAll(s.db, rows, now)), w, leaseEnd, Some(now))
  {
    var s' := s.(db := RecoverAll(s.db, rows, now));
    var p := PhaseOf(s, w);
    if !p.Idle? {
      assert forall e :: e in rows ==> LeaseLapsed(s.db.jobs, e, now);
      RecoverAllRows(s.db, rows, now);
      if !ClaimOver(s.db.log, p.event, p.mark) && p.event in rows {
        assert LeaseLapsed(s.db.jobs, p.event, now);
        RecoverEndsClaims(s.db, rows, now, p.event);
        var i :| |s.db.log| <= i < |s'.db.log| && s'.db.log[i].event == p.event && EndsClaim(s'.db.log[i].reason);
        assert ClaimHeld(s.db, w, p);
        assert ClaimOver(s'.db.log, p.event, p.mark);
      } else {
        UntouchedStaysTimely(s, s', w, leaseEnd, clock, Some(now));
      }
    }
  }

  lemma SuccessSpendsClaim(cfg: Config, s: System, w: WorkerId, answer: Answer, now: Time)
    requires Sound(s) && StoresResults(s, CommitSuccess(w, answer, now))
    ensures var p := PhaseOf(s, w);
            ClaimSpent(Next(cfg, s, CommitSuccess(w, answer, now)).db.log, p.event, p.mark)
  {
    var p, log := PhaseOf(s, w), Next(cfg, s, CommitSuccess(w, answer, now)).db.log;
    assert ClaimHeld(s.db, w, p);
    assert log[|s.db.log|].event == p.event && log[|s.db.log|].reason.ProcessingSucceeded?;
  }

  function ClockAfter(clock: Option<Time>, ev: Event): Option<Time> {
    if TimeOf(ev).Some? then TimeOf(ev) else clock
  }

  predicate IsStepOf(ev: Event, w: WorkerId) {
    (ev.ClaimNext? || ev.BeginAttempt? || ev.CommitSuccess? || ev.CommitFailure? || ev.Crash?) && ev.worker == w
  }

  /** The worker's own steps: a new claim has the new lease, an attempt keeps its claim, an outcome
      gives it up or spends it. */
  lemma OwnStepStaysTimely(cfg: Config, s: System, ev: Event, w: WorkerId, leaseEnd: Time, clock: Option<Time>)
    requires Sound(s) && TimelyAt(s, w, leaseEnd, clock) && NotBefore(clock, ev) && IsStepOf(ev, w)
    ensures TimelyAt(Next(cfg, s, ev), w, if Claims(s, ev, w) then ev.now + cfg.leaseSeconds else leaseEnd,
                     ClockAfter(clock, ev))
  {
    if ev.CommitSuccess? && StoresResults(s, ev) {
      SuccessSpendsClaim(cfg, s, w, ev.answer, ev.now);
    }
  }

  lemma OtherStepStaysTimely(cfg: Config, s: System, ev: Event, w: WorkerId, leaseEnd: Time, clock: Option<Time>)
    requires Sound(s) && OutcomeOnTime(s, ev) && TimelyAt(s, w, leaseEnd, clock) && NotBefore(clock, ev)
    requires !IsStepOf(ev, w) && !ev.RecoverLeases?
    ensures TimelyAt(Next(cfg, s, ev), w, leaseEnd, ClockAfter(clock, ev))
  {
    var s' := Next(cfg, s, ev);
    assert PhaseOf(s', w) == PhaseOf(s, w);
    if !PhaseOf(s, w).Idle? {
      ForeignStep(cfg, s, ev, w);
      UntouchedStaysTimely(s, s', w, leaseEnd, clock, ClockAfter(clock, ev));
    }
  }

  lemma StepStaysTimely(cfg: Config, s: System, ev: Event, w: WorkerId, leaseEnd: Time, clock: Option<Time>)
    requires Sound(s) && OutcomeOnTime(s, ev) && TimelyAt(s, w, leaseEnd, clock) && NotBefore(clock, ev)
    ensures TimelyAt(Next(cfg, s, ev), w, if Claims(s, ev, w) then ev.now + cfg.leaseSeconds else leaseEnd,
                     ClockAfter(clock, ev))
  {
    if IsStepOf(ev, w) {
      OwnStepStaysTimely(cfg, s, ev, w, leaseEnd, clock);
    } else if !ev.RecoverLeases? {
      OtherStepStaysTimely(cfg, s, ev, w, leaseEnd, clock);
    } else if IsLapsedListing(s.db.jobs, ev.now, ev.rows) {
      RecoveryStaysTimely(s, ev.rows, ev.now, w, leaseEnd, clock);
    }
  }

  /** Main theorem: if the clock never runs backwards, every outcome is committed before the lease of
      its claim ends, and none follows a success of the same claim whose answer was lost, then no
      outcome commits after its claim is over: the premise of the audit, retry, capacity and
      termination theorems holds. */
  lemma {:induction false} PunctualRunsAreOnTime(cfg: Config, run: seq<Event>)
    requires Punctual(cfg, run)
    ensures OnTime(cfg, run)
    ensures forall w :: TimelyAt(Exec(cfg, run), w, LeaseEnd(cfg, run, w), Clock(run))
  {
    if |run| != 0 {
      var before, ev := run[..|run| - 1], run[|run| - 1];
      PunctualRunsAreOnTime(cfg, before);
      RunIsSound(cfg, before);
      var s := Exec(cfg, before);
      if ev.CommitSuccess? || ev.CommitFailure? {
        assert TimelyAt(s, ev.worker, LeaseEnd(cfg, before, ev.worker), Clock(before));
      }
      forall w
        ensures TimelyAt(Exec(cfg, run), w, LeaseEnd(cfg, run, w), Clock(run))
      {
        StepStaysTimely(cfg, s, ev, w, LeaseEnd(cfg, before, w), Clock(before));
      }
    }
  }
}
