/** When a job may be claimed and when it is taken back, over whole runs, told from the audit log and
    its times alone. */
module IngestionSchedule {
  import opened Wrappers
  import opened IngestionModel
  import opened IngestionAudit
  import opened IngestionRuns
  import opened IngestionLedger
  import opened IngestionTrail
  import opened IngestionLeases

  // ---------------------------------------------------------------- claims

  /** The job's last entry left it waiting, and its delay is over. */
  predicate Due(h: seq<Transition>, now: Time) {
    && h != []
    && (h[|h| - 1].to.Queued? || h[|h| - 1].to.Retrying?)
    && h[|h| - 1].at + h[|h| - 1].delay <= now
  }

  lemma ClaimableIffDue(cfg: Config, db: Db, e: EventId, now: Time)
    requires BookedAt(cfg, db, e)
    ensures Claimable(db, e, now) <==> Due(JobLog(db.log, e), now)
  {
    if e in db.jobs {
      BookedRow(cfg, db, e);
    }
  }

  /** Main theorem: in every run, a worker that is free claims a job exactly when the last entry of its
      log left it waiting and the delay of that entry is over: no earlier, and no later than asked. */
  lemma ClaimTakesEffectIff(cfg: Config, run: seq<Event>, w: WorkerId, e: EventId, now: Time)
    requires PhaseOf(Exec(cfg, run), w).Idle?
    ensures var s := Exec(cfg, run);
            Next(cfg, s, ClaimNext(w, e, now)) != s <==> Due(JobLog(s.db.log, e), now)
  {
    var s := Exec(cfg, run);
    assert BookedAt(cfg, s.db, e) by { RunKeepsBooks(cfg, run); }
    ClaimableIffDue(cfg, s.db, e, now);
    ClaimHasEffect(cfg, s, w, e, now);
  }

  lemma ClaimHasEffect(cfg: Config, s: System, w: WorkerId, e: EventId, now: Time)
    requires PhaseOf(s, w).Idle?
    ensures Next(cfg, s, ClaimNext(w, e, now)) != s <==> Claimable(s.db, e, now)
  {
    if Claimable(s.db, e, now) {
      assert |Next(cfg, s, ClaimNext(w, e, now)).db.log| == |s.db.log| + 1;
    }
  }

  /** Main theorem: in every run, a claim directly follows the entry that left the job waiting, and
      comes no earlier than the time of that entry plus its delay. */
  lemma ClaimsWaitForSchedule(cfg: Config, run: seq<Event>, e: EventId, j: nat)
    requires var h := JobLog(Exec(cfg, run).db.log, e);
             j < |h| && h[j].reason.Claimed?
    ensures var h := JobLog(Exec(cfg, run).db.log, e);
            && 0 < j
            && (h[j - 1].to.Queued? || h[j - 1].to.Retrying?)
            && h[j - 1].at + h[j - 1].delay <= h[j].at
  {
    var h := JobLog(Exec(cfg, run).db.log, e);
    assert BookedAt(cfg, Exec(cfg, run).db, e) by { RunKeepsBooks(cfg, run); }
    assert ClaimWaits(h, j);
  }

  // ---------------------------------------------------------------- a clock that does not go back

  /** No transaction reads an earlier time than one before it. */
  ghost predicate ClockForward(run: seq<Event>) {
    run == [] || (ClockForward(run[..|run| - 1]) && NotBefore(Clock(run[..|run| - 1]), run[|run| - 1]))
  }

  /** The entries of the log are in the order of their times, none after the clock. */
  ghost predicate TimesAscend(log: seq<Transition>, clock: Option<Time>) {
    && (forall i, j :: 0 <= i < j < |log| ==> InOrder(log[i], log[j]))
    && (forall i :: 0 <= i < |log| ==> NotAfter(log[i], clock))
  }

  predicate InOrder(a: Transition, b: Transition) {
    a.at <= b.at
  }

  predicate NotAfter(t: Transition, clock: Option<Time>) {
    clock.Some? && t.at <= clock.value
  }

  /** Everything that a transaction appends carries the time that it read. */
  ghost predicate AppendsAt(log: seq<Transition>, log': seq<Transition>, now: Option<Time>) {
    log <= log' && forall i :: |log| <= i < |log'| ==> now == Some(log'[i].at)
  }

  lemma StepAppendsAt(cfg: Config, s: System, ev: Event)
    ensures AppendsAt(s.db.log, Next(cfg, s, ev).db.log, TimeOf(ev))
  {
    match ev
    case EnqueueBatch(batch, batchId, now) =>
      if EnqueueVerdict(cfg, s.db, batch).None? {
        EnqueueAllLog(cfg, s.db, batch, NewIds(s.db.jobs, batch), batchId, now);
      }
    case RecoverLeases(rows, now) =>
      if IsLapsedListing(s.db.jobs, now, rows) {
        assert forall e :: e in rows ==> LeaseLapsed(s.db.jobs, e, now);
        RecoverAllLog(s.db, rows, now);
      }
    case RedriveEvents(request, now) => RedriveAppendsAt(cfg, s.db, request, now);
    case PredictDirectly(items) => StageAllTables(s.db, items);
    case _ =>
  }

  lemma RedriveAppendsAt(cfg: Config, db: Db, request: RedriveRequest, now: Time)
    ensures AppendsAt(db.log, Redrive(cfg, db, request, now).log, Some(now))
  {
    if RedriveVerdict(cfg, db, request, now).None? && !request.dryRun {
      assert forall e :: e in request.ids ==> EvaluateRedrive(cfg, db, e, request.compat, now).None?;
      RedriveAllLog(db, request.ids, now);
      assert Redrive(cfg, db, request, now) == RedriveAll(db, request.ids, now);
    } else {
      assert Redrive(cfg, db, request, now) == db;
    }
  }

  lemma AppendKeepsTimes(log: seq<Transition>, log': seq<Transition>, clock: Option<Time>, ev: Event)
    requires TimesAscend(log, clock) && AppendsAt(log, log', TimeOf(ev)) && NotBefore(clock, ev)
    ensures TimesAscend(log', ClockAfter(clock, ev))
  {
    var clock' := ClockAfter(clock, ev);
    forall i | 0 <= i < |log'|
      ensures NotAfter(log'[i], clock')
    {
      if i < |log| {
        assert log'[i] == log[i] && NotAfter(log[i], clock);
      }
    }
    forall i, j | 0 <= i < j < |log'|
      ensures InOrder(log'[i], log'[j])
    {
      if j < |log| {
        assert log'[i] == log[i] && log'[j] == log[j];
      } else if i < |log| {
        assert log'[i] == log[i] && NotAfter(log[i], clock);
      }
    }
  }

  lemma PrefixAscends(log: seq<Transition>, clock: Option<Time>)
    requires TimesAscend(log, clock) && log != []
    ensures TimesAscend(log[..|log| - 1], clock)
  {
    var before := log[..|log| - 1];
    forall i, j | 0 <= i < j < |before|
      ensures InOrder(before[i], before[j])
    {
      assert InOrder(log[i], log[j]);
    }
    forall i | 0 <= i < |before|
      ensures NotAfter(before[i], clock)
    {
      assert NotAfter(log[i], clock);
    }
  }

  lemma MemberIsNotAfterLast(log: seq<Transition>, clock: Option<Time>, t: Transition)
    requires TimesAscend(log, clock) && t in log
    ensures t.at <= log[|log| - 1].at
  {
    var i :| 0 <= i < |log| && log[i] == t;
    assert i < |log| - 1 ==> InOrder(log[i], log[|log| - 1]);
  }

  lemma {:induction false} LogTimesAscend(cfg: Config, run: seq<Event>)
    requires ClockForward(run)
    ensures TimesAscend(Exec(cfg, run).db.log, Clock(run))
  {
    if |run| != 0 {
      var before, ev := run[..|run| - 1], run[|run| - 1];
      LogTimesAscend(cfg, before);
      StepAppendsAt(cfg, Exec(cfg, before), ev);
      AppendKeepsTimes(Exec(cfg, before).db.log, Exec(cfg, run).db.log, Clock(before), ev);
    }
  }

  lemma {:induction false} JobTimesAscend(log: seq<Transition>, clock: Option<Time>, e: EventId)
    requires TimesAscend(log, clock)
    ensures TimesAscend(JobLog(log, e), clock)
  {
    if log != [] {
      var before, last := log[..|log| - 1], log[|log| - 1];
      PrefixAscends(log, clock);
      JobTimesAscend(before, clock, e);
      assert NotAfter(last, clock);
      var h := JobLog(before, e);
      forall i | 0 <= i < |h|
        ensures h[i].at <= last.at
      {
        JobLogMembers(before, e);
        MemberIsNotAfterLast(log, clock, h[i]);
      }
      OneMoreAscends(h, last, clock);
    }
  }

  lemma OneMoreAscends(h: seq<Transition>, t: Transition, clock: Option<Time>)
    requires TimesAscend(h, clock) && clock.Some? && t.at <= clock.value
    requires forall i :: 0 <= i < |h| ==> h[i].at <= t.at
    ensures TimesAscend(h + [t], clock)
  {
  }

  lemma {:induction false} JobLogMembers(log: seq<Transition>, e: EventId)
    ensures forall i :: 0 <= i < |JobLog(log, e)| ==> JobLog(log, e)[i] in log
  {
    if log != [] {
      JobLogMembers(log[..|log| - 1], e);
    }
  }

  /** In an audited log, the entry after a scheduled retry is a claim. */
  lemma RetryIsClaimedNext(h: seq<Transition>, i: nat)
    requires Chain(h) && (forall k :: 0 <= k < |h| ==> Legal(h[k]))
    requires i + 1 < |h| && h[i].reason.RetryScheduled?
    ensures h[i + 1].reason.Claimed?
  {
    assert Legal(h[i]) && Legal(h[i + 1]);
    assert h[i + 1].from == Some(h[i + 1 - 1].to);
  }

  /** Main theorem: in a guarded run whose clock does not go back, no claim of a job ever comes before
      the end of any back-off scheduled for it earlier. */
  lemma BackoffIsHonoured(cfg: Config, run: seq<Event>, e: EventId, i: nat, j: nat)
    requires Guarded(cfg, run) && ClockForward(run)
    requires var h := JobLog(Exec(cfg, run).db.log, e);
             i < j < |h| && h[i].reason.RetryScheduled? && h[j].reason.Claimed?
    ensures var h := JobLog(Exec(cfg, run).db.log, e);
            h[i].at + h[i].delay <= h[j].at
  {
    var db := Exec(cfg, run).db;
    var h := JobLog(db.log, e);
    assert AuditedAt(db, e) by { TrailAfter(cfg, run); }
    RetryIsClaimedNext(h, i);
    ClaimsWaitForSchedule(cfg, run, e, i + 1);
    assert TimesAscend(h, Clock(run)) by {
      LogTimesAscend(cfg, run);
      JobTimesAscend(db.log, Clock(run), e);
    }
    assert i + 1 < j ==> InOrder(h[i + 1], h[j]);
  }

  /** A punctual deployment has such runs: PunctualRunsAreOnTime and OnTimeIsGuarded give the rest. */
  lemma {:induction false} PunctualClockForward(cfg: Config, run: seq<Event>)
    requires Punctual(cfg, run)
    ensures ClockForward(run)
  {
    if |run| != 0 {
      PunctualClockForward(cfg, run[..|run| - 1]);
    }
  }

  // ---------------------------------------------------------------- recovery

  /** The job's last entry is a claim, and the lease of that claim has ended. */
  predicate Lapsed(cfg: Config, h: seq<Transition>, now: Time) {
    h != [] && h[|h| - 1].to.Processing? && h[|h| - 1].at + cfg.leaseSeconds < now
  }

  lemma LeaseLapsedIff(cfg: Config, db: Db, e: EventId, now: Time)
    requires BookedAt(cfg, db, e)
    ensures LeaseLapsed(db.jobs, e, now) <==> Lapsed(cfg, JobLog(db.log, e), now)
  {
    if e in db.jobs {
      BookedRow(cfg, db, e);
    }
  }

  /** Main theorem: in every run, recovery takes back exactly the jobs whose last entry is a claim
      that is older than the lease. */
  lemma RecoveryTakesBackIff(cfg: Config, run: seq<Event>, rows: seq<EventId>, now: Time)
    ensures var db := Exec(cfg, run).db;
            IsLapsedListing(db.jobs, now, rows) <==>
            Distinct(rows) && forall e: EventId :: e in rows <==> Lapsed(cfg, JobLog(db.log, e), now)
  {
    var db := Exec(cfg, run).db;
    forall e: EventId
      ensures LeaseLapsed(db.jobs, e, now) <==> Lapsed(cfg, JobLog(db.log, e), now)
    {
      assert BookedAt(cfg, db, e) by { RunKeepsBooks(cfg, run); }
      LeaseLapsedIff(cfg, db, e, now);
    }
  }
}
