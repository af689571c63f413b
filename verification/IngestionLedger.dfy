/** What the audit log says of the job table in every run, with no premise at all.

    A stale outcome breaks the chain of a job's log, but every entry is still a legal edge and still
    carries what it does to the row: the log rebuilds the whole row except a completed_at that a
    revived job keeps. */
module IngestionLedger {
  import opened Wrappers
  import opened IngestionModel
  import opened IngestionAudit
  import opened IngestionRuns

  /** A claim directly follows the entry that scheduled the job, and waits for its delay. */
  ghost predicate ClaimWaits(h: seq<Transition>, j: nat)
    requires j < |h|
  {
    h[j].reason.Claimed? ==>
      && 0 < j
      && (h[j - 1].to.Queued? || h[j - 1].to.Retrying?)
      && h[j - 1].at + h[j - 1].delay <= h[j].at
  }

  /** When the job may be claimed, and until when its claim is leased, as the last entry says. */
  ghost predicate Scheduled(cfg: Config, job: Job, last: Transition) {
    && (last.to.Queued? || last.to.Retrying? ==> job.availableAt == last.at + last.delay)
    && job.lease == if last.to.Processing? then Some(last.at + cfg.leaseSeconds) else None
  }

  /** What every transaction keeps of one job, stale outcomes included. */
  ghost predicate Booked(cfg: Config, job: Job, h: seq<Transition>) {
    && h != []
    && (forall i :: 0 <= i < |h| ==> Legal(h[i]) && Evidence(h[i]))
    && (forall i :: 0 <= i < |h| ==> ClaimWaits(h, i))
    && StateView(job) == Rebuild(h)
    && (IsTerminal(job.state) ==> job.completedAt.Some?)
    && Scheduled(cfg, job, h[|h| - 1])
    && WithinAttempts(h)
  }

  ghost predicate BookedAt(cfg: Config, db: Db, e: EventId) {
    if e in db.jobs then Booked(cfg, db.jobs[e], JobLog(db.log, e)) else JobLog(db.log, e) == []
  }

  ghost predicate AllBooked(cfg: Config, db: Db) {
    forall e: EventId :: BookedAt(cfg, db, e)
  }

  // ---------------------------------------------------------------- one transaction each

  lemma WriteKeepsBooks(cfg: Config, db: Db, e: EventId, job: Job, t: Transition)
    requires AllBooked(cfg, db) && t.event == e
    requires Booked(cfg, job, JobLog(db.log, e) + [t])
    ensures AllBooked(cfg, Write(db, e, job, t))
  {
    forall x: EventId
      ensures BookedAt(cfg, Write(db, e, job, t), x)
    {
      assert BookedAt(cfg, db, x);
      JobLogSnoc(db.log, t, x);
      assert x != e ==> JobLog(db.log + [t], x) == JobLog(db.log, x);
    }
  }

  ghost predicate LeaseWritten(cfg: Config, job: Job, t: Transition) {
    t.to.Processing? ==> job.lease == Some(t.at + cfg.leaseSeconds)
  }

  /** One more entry, if it is a claim, waits as the row says. */
  lemma WaitsSnoc(cfg: Config, job: Job, h: seq<Transition>, job': Job, t: Transition)
    requires Booked(cfg, job, h) && RowWritten(job, job', t)
    ensures forall i :: 0 <= i < |h + [t]| ==> ClaimWaits(h + [t], i)
  {
    forall i | 0 <= i < |h + [t]|
      ensures ClaimWaits(h + [t], i)
    {
      if i < |h| {
        assert ClaimWaits(h, i);
      }
    }
  }

  lemma BookedSnoc(cfg: Config, job: Job, h: seq<Transition>, job': Job, t: Transition)
    requires Booked(cfg, job, h) && RowWritten(job, job', t) && LeaseWritten(cfg, job', t)
    ensures Booked(cfg, job', h + [t])
  {
    assert StateView(job') == Rebuild(h + [t]) by { RebuildSnoc(job, h, job', t); }
    assert WithinAttempts(h + [t]) by { AttemptsSnoc(job, h, job', t); }
    WaitsSnoc(cfg, job, h, job', t);
  }

  /** A transaction on an existing row keeps the books, whatever state it finds the row in. */
  lemma RewriteKeepsBooks(cfg: Config, db: Db, e: EventId, job': Job, t: Transition)
    requires AllBooked(cfg, db) && e in db.jobs && t.event == e
    requires RowWritten(db.jobs[e], job', t) && LeaseWritten(cfg, job', t)
    ensures AllBooked(cfg, Write(db, e, job', t))
  {
    assert BookedAt(cfg, db, e);
    BookedSnoc(cfg, db.jobs[e], JobLog(db.log, e), job', t);
    WriteKeepsBooks(cfg, db, e, job', t);
  }

  /** A table whose jobs and log are the same is booked alike. */
  lemma SameBooks(cfg: Config, db: Db, db': Db)
    requires AllBooked(cfg, db) && db'.jobs == db.jobs && db'.log == db.log
    ensures AllBooked(cfg, db')
  {
    assert forall e: EventId :: BookedAt(cfg, db, e) ==> BookedAt(cfg, db', e);
  }

  lemma EnqueueKeepsBooks(cfg: Config, db: Db, item: Item, batchId: nat, now: Time)
    requires AllBooked(cfg, db) && item.event !in db.jobs
    ensures AllBooked(cfg, EnqueueOne(cfg, db, item, batchId, now))
  {
    var job := NewJob(cfg, item.payload, batchId, now);
    var t := Transition(item.event, None, Queued, Enqueued, None, None, None, 0, now);
    assert Booked(cfg, job, [t]) by { NewJobAudited(job, t); }
    assert JobLog(db.log, item.event) + [t] == [t] by { assert BookedAt(cfg, db, item.event); }
    WriteKeepsBooks(cfg, db, item.event, job, t);
  }

  lemma ClaimKeepsBooks(cfg: Config, db: Db, e: EventId, w: WorkerId, now: Time)
    requires AllBooked(cfg, db) && Claimable(db, e, now)
    ensures AllBooked(cfg, Claim(cfg, db, e, w, now))
  {
    var db' := Claim(cfg, db, e, w, now);
    RewriteKeepsBooks(cfg, db, e, db'.jobs[e], db'.log[|db.log|]);
  }

  lemma SucceedKeepsBooks(cfg: Config, db: Db, e: EventId, w: WorkerId, v: Verdict, now: Time)
    requires AllBooked(cfg, db) && e in db.jobs
    ensures AllBooked(cfg, Succeed(db, e, w, v, now))
  {
    var db' := Succeed(db, e, w, v, now);
    var staged := Stage(db, e, v).(outbox := db.outbox + StagedRows(e, v));
    SameBooks(cfg, db, staged);
    RewriteKeepsBooks(cfg, staged, e, db'.jobs[e], db'.log[|db.log|]);
  }

  lemma FailKeepsBooks(cfg: Config, db: Db, e: EventId, w: WorkerId, f: Failure, now: Time)
    requires AllBooked(cfg, db) && e in db.jobs
    ensures AllBooked(cfg, Fail(db, e, w, f, now))
  {
    var db' := Fail(db, e, w, f, now);
    RewriteKeepsBooks(cfg, db, e, db'.jobs[e], db'.log[|db.log|]);
  }

  lemma RecoverKeepsBooks(cfg: Config, db: Db, e: EventId, now: Time)
    requires AllBooked(cfg, db) && e in db.jobs
    ensures AllBooked(cfg, RecoverOne(db, e, now))
  {
    var db' := RecoverOne(db, e, now);
    RewriteKeepsBooks(cfg, db, e, db'.jobs[e], db'.log[|db.log|]);
  }

  lemma RedriveKeepsBooks(cfg: Config, db: Db, e: EventId, now: Time)
    requires AllBooked(cfg, db) && e in db.jobs
    ensures AllBooked(cfg, RedriveOne(db, e, now))
  {
    var db' := RedriveOne(db, e, now);
    RewriteKeepsBooks(cfg, db, e, db'.jobs[e], db'.log[|db.log|]);
  }

  lemma {:induction false} EnqueueAllKeepsBooks(cfg: Config, db: Db, batch: seq<Item>, ids: seq<EventId>,
                                                batchId: nat, now: Time)
    requires AllBooked(cfg, db) && Distinct(ids)
    requires forall e :: e in ids ==> Mentions(batch, e) && e !in db.jobs
    ensures AllBooked(cfg, EnqueueAll(cfg, db, batch, ids, batchId, now))
    ensures forall e :: e in EnqueueAll(cfg, db, batch, ids, batchId, now).jobs <==> e in db.jobs || e in ids
  {
    if ids != [] {
      var n := |ids| - 1;
      EnqueueAllKeepsBooks(cfg, db, batch, ids[..n], batchId, now);
      EnqueueKeepsBooks(cfg, EnqueueAll(cfg, db, batch, ids[..n], batchId, now),
                        Item(ids[n], LastPayload(batch, ids[n])), batchId, now);
      assert ids == ids[..n] + [ids[n]];
    }
  }

  lemma {:induction false} RecoverAllKeepsBooks(cfg: Config, db: Db, rows: seq<EventId>, now: Time)
    requires AllBooked(cfg, db) && forall e :: e in rows ==> e in db.jobs
    ensures AllBooked(cfg, RecoverAll(db, rows, now))
  {
    if rows != [] {
      var n := |rows| - 1;
      RecoverAllKeepsBooks(cfg, db, rows[..n], now);
      RecoverKeepsBooks(cfg, RecoverAll(db, rows[..n], now), rows[n], now);
    }
  }

  lemma {:induction false} RedriveAllKeepsBooks(cfg: Config, db: Db, ids: seq<EventId>, now: Time)
    requires AllBooked(cfg, db) && forall e :: e in ids ==> e in db.jobs
    ensures AllBooked(cfg, RedriveAll(db, ids, now))
  {
    if ids != [] {
      var n := |ids| - 1;
      RedriveAllKeepsBooks(cfg, db, ids[..n], now);
      RedriveKeepsBooks(cfg, RedriveAll(db, ids[..n], now), ids[n], now);
    }
  }

  // ---------------------------------------------------------------- every run

  lemma RedriveEventsKeepsBooks(cfg: Config, db: Db, request: RedriveRequest, now: Time)
    requires AllBooked(cfg, db)
    ensures AllBooked(cfg, Redrive(cfg, db, request, now))
  {
    if RedriveVerdict(cfg, db, request, now).None? && !request.dryRun {
      assert forall e :: e in request.ids ==> EvaluateRedrive(cfg, db, e, request.compat, now).None?;
      RedriveAllKeepsBooks(cfg, db, request.ids, now);
    }
  }

  lemma RecoverLeasesKeepsBooks(cfg: Config, db: Db, rows: seq<EventId>, now: Time)
    requires AllBooked(cfg, db) && IsLapsedListing(db.jobs, now, rows)
    ensures AllBooked(cfg, RecoverAll(db, rows, now))
  {
    assert forall e :: e in rows ==> LeaseLapsed(db.jobs, e, now);
    RecoverAllKeepsBooks(cfg, db, rows, now);
  }

  lemma OutcomeKeepsBooks(cfg: Config, s: System, ev: Event)
    requires AllBooked(cfg, s.db) && (ev.CommitSuccess? || ev.CommitFailure?)
    ensures AllBooked(cfg, Next(cfg, s, ev).db)
  {
    if Next(cfg, s, ev).db != s.db {
      var p := PhaseOf(s, ev.worker);
      if ev.CommitSuccess? {
        SucceedKeepsBooks(cfg, s.db, p.event, ev.worker, p.verdict, ev.now);
      } else {
        FailKeepsBooks(cfg, s.db, p.event, ev.worker, p.failure, ev.now);
      }
    }
  }

  lemma NextKeepsBooks(cfg: Config, s: System, ev: Event)
    requires AllBooked(cfg, s.db)
    ensures AllBooked(cfg, Next(cfg, s, ev).db)
  {
    match ev
    case EnqueueBatch(batch, batchId, now) =>
      if EnqueueVerdict(cfg, s.db, batch).None? {
        EnqueueAllKeepsBooks(cfg, s.db, batch, NewIds(s.db.jobs, batch), batchId, now);
      }
    case ClaimNext(w, e, now) =>
      if Claimable(s.db, e, now) {
        ClaimKeepsBooks(cfg, s.db, e, w, now);
      }
    case CommitSuccess(w, answer, now) => OutcomeKeepsBooks(cfg, s, ev);
    case CommitFailure(w, now) => OutcomeKeepsBooks(cfg, s, ev);
    case RecoverLeases(rows, now) =>
      if IsLapsedListing(s.db.jobs, now, rows) {
        RecoverLeasesKeepsBooks(cfg, s.db, rows, now);
      }
    case RedriveEvents(request, now) => RedriveEventsKeepsBooks(cfg, s.db, request, now);
    case PredictDirectly(items) =>
      StageAllTables(s.db, items);
      SameBooks(cfg, s.db, Next(cfg, s, ev).db);
    case _ =>
  }

  lemma {:induction false} RunKeepsBooks(cfg: Config, run: seq<Event>)
    ensures AllBooked(cfg, Exec(cfg, run).db)
  {
    if |run| == 0 {
      assert forall e: EventId :: BookedAt(cfg, START.db, e);
    } else {
      RunKeepsBooks(cfg, run[..|run| - 1]);
      NextKeepsBooks(cfg, Exec(cfg, run[..|run| - 1]), run[|run| - 1]);
    }
  }

  lemma BookedRow(cfg: Config, db: Db, e: EventId)
    requires BookedAt(cfg, db, e) && e in db.jobs
    ensures var job, h := db.jobs[e], JobLog(db.log, e);
            && h != [] && (forall i :: 0 <= i < |h| ==> Legal(h[i]) && Evidence(h[i]))
            && StateView(job) == Rebuild(h)
            && Scheduled(cfg, job, h[|h| - 1])
            && (IsTerminal(job.state) ==> job.completedAt.Some?)
            && (job.state.Processing? ==> job.attempts >= 1)
            && job.attempts <= 4 + CountSince(h, LeaseRecovered)
  {
  }

  /** Main theorem: in every run whatsoever, each entry of a job's log is a legal transition with the
      evidence of its reason, the log rebuilds the row (its state, attempts, redrives, owner, lease,
      error evidence and, when it waits, its time), and attempts exceed four only by lease recoveries. */
  lemma LogRebuildsRow(cfg: Config, run: seq<Event>, e: EventId)
    requires e in Exec(cfg, run).db.jobs
    ensures var job := Exec(cfg, run).db.jobs[e];
            var h := JobLog(Exec(cfg, run).db.log, e);
            && h != [] && (forall i :: 0 <= i < |h| ==> Legal(h[i]) && Evidence(h[i]))
            && StateView(job) == Rebuild(h)
            && Scheduled(cfg, job, h[|h| - 1])
            && (IsTerminal(job.state) ==> job.completedAt.Some?)
            && (job.state.Processing? ==> job.attempts >= 1)
            && job.attempts <= 4 + CountSince(h, LeaseRecovered)
  {
    RunKeepsBooks(cfg, run);
    BookedRow(cfg, Exec(cfg, run).db, e);
  }
}
