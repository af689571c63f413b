/** The audit trail over whole runs, and exactly when it survives.

    The outcome transactions of a worker check neither the state nor the owner of the row they write.
    Guarded says that no run needed that check; the main theorem says that this is exactly when the
    audit trail holds. */
module IngestionTrail {
  import opened Wrappers
  import opened IngestionModel
  import opened IngestionAudit
  import opened IngestionRuns
  import opened IngestionEffects
  import opened IngestionLedger

  // ---------------------------------------------------------------- the missing check

  /** An outcome that changes the tables finds its row processing. */
  ghost predicate FindsProcessing(cfg: Config, s: System, ev: Event) {
    (ev.CommitSuccess? || ev.CommitFailure?) && Next(cfg, s, ev).db != s.db ==>
      var e := PhaseOf(s, ev.worker).event;
      e in s.db.jobs && s.db.jobs[e].state.Processing?
  }

  /** Every outcome of the run passed the check that the code leaves out. */
  ghost predicate Guarded(cfg: Config, run: seq<Event>) {
    |run| == 0
    || (Guarded(cfg, run[..|run| - 1]) && FindsProcessing(cfg, Exec(cfg, run[..|run| - 1]), run[|run| - 1]))
  }

  /** Under the lease premise the check would always pass. */
  lemma {:induction false} OnTimeIsGuarded(cfg: Config, run: seq<Event>)
    requires OnTime(cfg, run)
    ensures Guarded(cfg, run)
  {
    if |run| != 0 {
      var before, ev := run[..|run| - 1], run[|run| - 1];
      OnTimeIsGuarded(cfg, before);
      RunIsSound(cfg, before);
      OnTimeFindsProcessing(cfg, Exec(cfg, before), ev);
    }
  }

  lemma OnTimeFindsProcessing(cfg: Config, s: System, ev: Event)
    requires Sound(s) && OutcomeOnTime(s, ev)
    ensures FindsProcessing(cfg, s, ev)
  {
    if (ev.CommitSuccess? || ev.CommitFailure?) && !PhaseOf(s, ev.worker).Idle? {
      HeldRow(s.db, ev.worker, PhaseOf(s, ev.worker));
    }
  }

  /** Exactly when a failure commit keeps the audit trail: when the row is still processing, which is
      the check that the transaction leaves out. */
  lemma FailureAuditedIff(db: Db, e: EventId, w: WorkerId, f: Failure, now: Time)
    requires AllAudited(db) && e in db.jobs
    ensures AllAudited(Fail(db, e, w, f, now)) <==> db.jobs[e].state.Processing?
  {
    if db.jobs[e].state.Processing? {
      FailKeepsAudit(db, e, w, f, now);
    } else {
      StaleEntryBreaksChain(db, Fail(db, e, w, f, now), e);
    }
  }

  /** The same for a success commit. */
  lemma SuccessAuditedIff(db: Db, e: EventId, w: WorkerId, v: Verdict, now: Time)
    requires AllAudited(db) && e in db.jobs
    ensures AllAudited(Succeed(db, e, w, v, now)) <==> db.jobs[e].state.Processing?
  {
    if db.jobs[e].state.Processing? {
      SucceedKeepsAudit(db, e, w, v, now);
    } else {
      StaleEntryBreaksChain(db, Succeed(db, e, w, v, now), e);
    }
  }

  lemma StaleEntryBreaksChain(db: Db, db': Db, e: EventId)
    requires AllAudited(db) && e in db.jobs && !db.jobs[e].state.Processing? && e in db'.jobs
    requires |db'.log| == |db.log| + 1 && db'.log[..|db.log|] == db.log
    requires db'.log[|db.log|].event == e && db'.log[|db.log|].from == Some(Processing)
    ensures !Chain(JobLog(db'.log, e)) && !AuditedAt(db', e)
  {
    assert AuditedAt(db, e);
    var h, t := JobLog(db.log, e), db'.log[|db.log|];
    JobLogSnoc(db.log, t, e);
    assert db'.log == db.log + [t];
    var g := JobLog(db'.log, e);
    assert g[|h|].from != Some(g[|h| - 1].to);
  }

  // ---------------------------------------------------------------- whole runs

  lemma RecoverLeasesKeepsAudit(db: Db, rows: seq<EventId>, now: Time)
    requires AllAudited(db) && IsLapsedListing(db.jobs, now, rows)
    ensures AllAudited(RecoverAll(db, rows, now))
  {
    assert forall e :: e in rows ==> LeaseLapsed(db.jobs, e, now);
    RecoverAllKeepsAudit(db, rows, now);
  }

  lemma RedriveEventsKeepsAudit(cfg: Config, db: Db, request: RedriveRequest, now: Time)
    requires AllAudited(db)
    ensures AllAudited(Redrive(cfg, db, request, now))
  {
    if RedriveVerdict(cfg, db, request, now).None? && !request.dryRun {
      assert forall e :: e in request.ids ==> EvaluateRedrive(cfg, db, e, request.compat, now).None?;
      RedriveAllKeepsAudit(db, request.ids, now);
    }
  }

  lemma PredictKeepsAudit(db: Db, items: seq<Prediction>)
    requires AllAudited(db)
    ensures AllAudited(StageAll(db, items))
  {
    StageAllTables(db, items);
    assert forall e: EventId :: AuditedAt(db, e) ==> AuditedAt(StageAll(db, items), e);
  }

  lemma OutcomeKeepsAudit(cfg: Config, s: System, ev: Event)
    requires AllAudited(s.db) && FindsProcessing(cfg, s, ev) && (ev.CommitSuccess? || ev.CommitFailure?)
    ensures AllAudited(Next(cfg, s, ev).db)
  {
    if Next(cfg, s, ev).db != s.db {
      var p := PhaseOf(s, ev.worker);
      if ev.CommitSuccess? {
        SucceedKeepsAudit(s.db, p.event, ev.worker, p.verdict, ev.now);
      } else {
        FailKeepsAudit(s.db, p.event, ev.worker, p.failure, ev.now);
      }
    }
  }

  lemma StepKeepsAudit(cfg: Config, s: System, ev: Event)
    requires AllAudited(s.db) && FindsProcessing(cfg, s, ev)
    ensures AllAudited(Next(cfg, s, ev).db)
  {
    match ev
    case EnqueueBatch(batch, batchId, now) =>
      if EnqueueVerdict(cfg, s.db, batch).None? {
        EnqueueAllKeepsAudit(cfg, s.db, batch, NewIds(s.db.jobs, batch), batchId, now);
      }
    case ClaimNext(w, e, now) =>
      if Claimable(s.db, e, now) {
        ClaimKeepsAudit(cfg, s.db, e, w, now);
      }
    case CommitSuccess(w, answer, now) => OutcomeKeepsAudit(cfg, s, ev);
    case CommitFailure(w, now) => OutcomeKeepsAudit(cfg, s, ev);
    case RecoverLeases(rows, now) =>
      if IsLapsedListing(s.db.jobs, now, rows) {
        RecoverLeasesKeepsAudit(s.db, rows, now);
      }
    case RedriveEvents(request, now) => RedriveEventsKeepsAudit(cfg, s.db, request, now);
    case PredictDirectly(items) => PredictKeepsAudit(s.db, items);
    case _ =>
  }

  /** An outcome that finds its row in another state breaks that job's chain. */
  lemma UnguardedBreaksChain(cfg: Config, s: System, ev: Event)
    requires AllAudited(s.db) && !FindsProcessing(cfg, s, ev)
    ensures !Chain(JobLog(Next(cfg, s, ev).db.log, PhaseOf(s, ev.worker).event))
  {
    StaleEntryBreaksChain(s.db, Next(cfg, s, ev).db, PhaseOf(s, ev.worker).event);
  }

  lemma LogGrows(cfg: Config, s: System, ev: Event)
    ensures s.db.log <= Next(cfg, s, ev).db.log
  {
    if !StoresResults(s, ev) {
      QuietUnlessStoring(cfg, s, ev);
    } else if ev.PredictDirectly? {
      StageAllTables(s.db, ev.items);
    }
  }

  lemma {:induction false} JobLogGrows(log: seq<Transition>, log': seq<Transition>, e: EventId)
    requires log <= log'
    ensures JobLog(log, e) <= JobLog(log', e)
  {
    if |log'| > |log| {
      JobLogGrows(log, log'[..|log'| - 1], e);
    } else {
      assert log' == log;
    }
  }

  /** A broken chain stays broken, because the log only grows. */
  lemma BrokenStaysBroken(log: seq<Transition>, log': seq<Transition>, e: EventId)
    requires log <= log' && !Chain(JobLog(log, e))
    ensures !Chain(JobLog(log', e))
  {
    var h, g := JobLog(log, e), JobLog(log', e);
    JobLogGrows(log, log', e);
    if h != [] && h[0].from == None {
      var i :| 0 < i < |h| && h[i].from != Some(h[i - 1].to);
      assert g[i].from != Some(g[i - 1].to);
    }
  }

  ghost predicate SomeChainBroken(db: Db) {
    exists e: EventId :: !Chain(JobLog(db.log, e))
  }

  lemma AuditedHasChains(db: Db)
    requires AllAudited(db)
    ensures !SomeChainBroken(db)
  {
    forall e: EventId
      ensures Chain(JobLog(db.log, e))
    {
      assert AuditedAt(db, e);
    }
  }

  lemma {:induction false} TrailAfter(cfg: Config, run: seq<Event>)
    ensures Guarded(cfg, run) ==> AllAudited(Exec(cfg, run).db)
    ensures !Guarded(cfg, run) ==> SomeChainBroken(Exec(cfg, run).db)
  {
    if |run| == 0 {
      assert forall e: EventId :: AuditedAt(START.db, e);
    } else {
      var before, ev := run[..|run| - 1], run[|run| - 1];
      var s := Exec(cfg, before);
      TrailAfter(cfg, before);
      if Guarded(cfg, before) && FindsProcessing(cfg, s, ev) {
        StepKeepsAudit(cfg, s, ev);
      } else if Guarded(cfg, before) {
        UnguardedBreaksChain(cfg, s, ev);
      } else {
        var e :| !Chain(JobLog(s.db.log, e));
        LogGrows(cfg, s, ev);
        BrokenStaysBroken(s.db.log, Next(cfg, s, ev).db.log, e);
      }
    }
  }

  /** Main theorem: the audit trail of a run holds exactly when every outcome that changed the tables
      found its row processing: the check that the outcome transactions leave out. */
  lemma AuditedIffGuarded(cfg: Config, run: seq<Event>)
    ensures AllAudited(Exec(cfg, run).db) <==> Guarded(cfg, run)
  {
    TrailAfter(cfg, run);
    if AllAudited(Exec(cfg, run).db) {
      AuditedHasChains(Exec(cfg, run).db);
    }
  }

  lemma AuditedRow(db: Db, e: EventId)
    requires AllAudited(db) && e in db.jobs
    ensures var job, h := db.jobs[e], JobLog(db.log, e);
            && h != [] && Chain(h) && (forall i :: 0 <= i < |h| ==> Legal(h[i]))
            && ViewOf(job) == Rebuild(h)
            && CountSince(h, RetryScheduled) <= 3
            && BackoffSince(h) <= 36
            && job.attempts <= 4 + CountSince(h, LeaseRecovered)
  {
    assert AuditedAt(db, e);
  }

  /** Main theorem: in a guarded run every job's log is an unbroken chain of legal transitions that
      rebuilds the row, and it respects the retry policy. */
  lemma AuditTrail(cfg: Config, run: seq<Event>, e: EventId)
    requires Guarded(cfg, run) && e in Exec(cfg, run).db.jobs
    ensures var job := Exec(cfg, run).db.jobs[e];
            var h := JobLog(Exec(cfg, run).db.log, e);
            && h != [] && Chain(h) && (forall i :: 0 <= i < |h| ==> Legal(h[i]))
            && ViewOf(job) == Rebuild(h)
            && CountSince(h, RetryScheduled) <= 3
            && BackoffSince(h) <= 36
            && job.attempts <= 4 + CountSince(h, LeaseRecovered)
  {
    TrailAfter(cfg, run);
    AuditedRow(Exec(cfg, run).db, e);
  }

  lemma AnnouncedIffSucceeded(db: Db, e: EventId)
    requires EffectsAt(db, e)
    ensures OutboxRow(e, PredictionCreated) in OwnRows(db.outbox, e) <==> Successes(db, e) == 1
    ensures Successes(db, e) <= 1
  {
    if Successes(db, e) == 1 {
      assert OwnRows(db.outbox, e)[0] == OutboxRow(e, PredictionCreated);
    }
  }

  /** A booked job that reads succeeded has a recorded success. */
  lemma SucceededIsRecorded(cfg: Config, db: Db, e: EventId)
    requires BookedAt(cfg, db, e) && e in db.jobs && db.jobs[e].state.Succeeded?
    ensures Successes(db, e) >= 1
  {
    var h := JobLog(db.log, e);
    assert Legal(h[|h| - 1]) && h[|h| - 1].reason.ProcessingSucceeded?;
  }

  /** In every run, a job that reads succeeded has its announcement published. */
  lemma SucceededIsPublished(cfg: Config, run: seq<Event>, e: EventId)
    requires e in Exec(cfg, run).db.jobs && Exec(cfg, run).db.jobs[e].state.Succeeded?
    ensures OutboxRow(e, PredictionCreated) in Exec(cfg, run).db.outbox
  {
    var db := Exec(cfg, run).db;
    assert BookedAt(cfg, db, e) by { RunKeepsBooks(cfg, run); }
    assert EffectsAt(db, e) by { ExactlyOnceEffects(cfg, run); }
    SucceededIsRecorded(cfg, db, e);
    AnnouncedIffSucceeded(db, e);
    OwnRowsIff(db.outbox, OutboxRow(e, PredictionCreated));
  }

  /** In a guarded run a job reads succeeded exactly when its announcement was published, so the row
      never disagrees with the effects. */
  lemma SucceededIffPublished(cfg: Config, run: seq<Event>, e: EventId)
    requires Guarded(cfg, run)
    ensures var db := Exec(cfg, run).db;
            (e in db.jobs && db.jobs[e].state.Succeeded?) <==> OutboxRow(e, PredictionCreated) in db.outbox
  {
    var db := Exec(cfg, run).db;
    assert AuditedAt(db, e) by { TrailAfter(cfg, run); }
    assert EffectsAt(db, e) by { ExactlyOnceEffects(cfg, run); }
    OwnRowsIff(db.outbox, OutboxRow(e, PredictionCreated));
    AnnouncedIffSucceeded(db, e);
  }
}
