/** Every interleaving of the ingestion transactions.

    Workers, the enqueuer, the operator and lease recovery share the tables of IngestionModel.
    One event is one committed transaction, or one worker-local step between two of them, so that
    crashes and stale workers interleave freely.  A disabled event changes nothing; hence every
    sequence of events is a run, and a theorem about all sequences is about all runs. */
module IngestionRuns {
  import opened Wrappers
  import opened IngestionModel
  import opened IngestionAudit

  /** Where a worker stands inside process_one.  The mark is the length of the audit log right
      after the claim; it is history, used only to say when a claim has been recovered. */
  datatype Phase =
    | Idle
    | Holding(event: EventId, mark: nat)
    | Staged(event: EventId, mark: nat, verdict: Verdict)
    | Failing(event: EventId, mark: nat, failure: Failure)

  datatype System = System(db: Db, phases: map<WorkerId, Phase>)

  const START := System(EMPTY, map[])

  /** How a commit ends for the worker: it took effect and the worker knows, it took effect but the
      answer was lost, or the database rejected it.  The worker takes the last two for a failure. */
  datatype Answer = Committed | Unanswered | Rejected

  datatype Event =
    | EnqueueBatch(batch: seq<Item>, batchId: nat, now: Time)
    | ClaimNext(worker: WorkerId, pick: EventId, now: Time)
    | BeginAttempt(worker: WorkerId, blocked: Option<Failure>, inference: Result<Verdict, Failure>)
    | CommitSuccess(worker: WorkerId, answer: Answer, now: Time)
    | CommitFailure(worker: WorkerId, now: Time)
    | Crash(worker: WorkerId)
    | RecoverLeases(rows: seq<EventId>, now: Time)
    | RedriveEvents(request: RedriveRequest, now: Time)
    | PredictDirectly(items: seq<Prediction>)

  function PhaseOf(s: System, w: WorkerId): Phase {
    if w in s.phases then s.phases[w] else Idle
  }

  /** The second transaction of process_one up to its commit. */
  function Begin(db: Db, e: EventId, mark: nat, blocked: Option<Failure>, inference: Result<Verdict, Failure>): Phase {
    if e !in db.jobs || !db.jobs[e].state.Processing? then Idle
    else if blocked.Some? then Failing(e, mark, blocked.value)
    else if e in db.observations then Failing(e, mark, InvalidValue)
    else
      match inference
      case Ok(v) => Staged(e, mark, v)
      case Err(f) => Failing(e, mark, f)
  }

  /** persist_observations: a synchronous batch outside the queue, all rows or none. */
  function StageAll(db: Db, items: seq<Prediction>): Db {
    if items == [] then db
    else
      var n := |items| - 1;
      Stage(StageAll(db, items[..n]), items[n].event, items[n].verdict)
  }

  ghost predicate Stageable(db: Db, items: seq<Prediction>) {
    && (forall i :: 0 <= i < |items| ==> items[i].event !in db.observations)
    && (forall i, j :: 0 <= i < j < |items| ==> items[i].event != items[j].event)
  }

  ghost function Next(cfg: Config, s: System, ev: Event): System {
    match ev
    case EnqueueBatch(batch, batchId, now) => s.(db := Enqueue(cfg, s.db, batch, batchId, now))
    case ClaimNext(w, e, now) =>
      if PhaseOf(s, w).Idle? && Claimable(s.db, e, now) then
        var db := Claim(cfg, s.db, e, w, now);
        System(db, s.phases[w := Holding(e, |db.log|)])
      else s
    case BeginAttempt(w, blocked, inference) =>
      var p := PhaseOf(s, w);
      if p.Holding? then s.(phases := s.phases[w := Begin(s.db, p.event, p.mark, blocked, inference)]) else s
    case CommitSuccess(w, answer, now) =>
      var p := PhaseOf(s, w);
      if !p.Staged? then s
      else if answer.Rejected? || p.event !in s.db.jobs || p.event in s.db.observations then
        // The primary key of observations, or the database, rejects the transaction.
        s.(phases := s.phases[w := Failing(p.event, p.mark, OtherError)])
      else
        System(Succeed(s.db, p.event, w, p.verdict, now),
               s.phases[w := if answer.Committed? then Idle else Failing(p.event, p.mark, OtherError)])
    case CommitFailure(w, now) =>
      var p := PhaseOf(s, w);
      if !p.Failing? then s
      else if p.event !in s.db.jobs then s.(phases := s.phases[w := Idle])
      else System(Fail(s.db, p.event, w, p.failure, now), s.phases[w := Idle])
    case Crash(w) =>
      if PhaseOf(s, w).Idle? then s else s.(phases := s.phases[w := Idle])
    case RecoverLeases(rows, now) =>
      if IsLapsedListing(s.db.jobs, now, rows) then s.(db := RecoverAll(s.db, rows, now)) else s
    case RedriveEvents(request, now) => s.(db := Redrive(cfg, s.db, request, now))
    case PredictDirectly(items) =>
      if Stageable(s.db, items) then s.(db := StageAll(s.db, items)) else s
  }

  /** The state after a run. */
  ghost function Exec(cfg: Config, run: seq<Event>): System {
    if |run| == 0 then START else Next(cfg, Exec(cfg, run[..|run| - 1]), run[|run| - 1])
  }

  lemma ExecSnoc(cfg: Config, run: seq<Event>, ev: Event)
    ensures Exec(cfg, run + [ev]) == Next(cfg, Exec(cfg, run), ev)
  {
    assert (run + [ev])[..|run|] == run;
  }

  // ---------------------------------------------------------------- the lease premise

  predicate EndsClaim(r: Reason) {
    r.LeaseRecovered? || r.ProcessingSucceeded?
  }

  /** The claim of e whose entry is log[mark - 1] has been taken back by lease recovery, or used up by
      a success whose answer was lost. */
  ghost predicate ClaimOver(log: seq<Transition>, e: EventId, mark: nat) {
    exists i :: mark <= i < |log| && log[i].event == e && EndsClaim(log[i].reason)
  }

  /** The premise, for one event: an outcome does not commit after its own claim is over.  The code
      does not enforce it: the outcome transactions check neither state nor worker_id. */
  ghost predicate OutcomeOnTime(s: System, ev: Event) {
    (ev.CommitSuccess? || ev.CommitFailure?) ==>
      var p := PhaseOf(s, ev.worker);
      p.Idle? || !ClaimOver(s.db.log, p.event, p.mark)
  }

  /** The premise, for a whole run. */
  ghost predicate OnTime(cfg: Config, run: seq<Event>) {
    |run| == 0
    || (OnTime(cfg, run[..|run| - 1]) && OutcomeOnTime(Exec(cfg, run[..|run| - 1]), run[|run| - 1]))
  }

  /** log[mark - 1] is the claim of e by w, and e has had no entry since. */
  ghost predicate ClaimIsLatest(log: seq<Transition>, w: WorkerId, e: EventId, mark: nat) {
    && 1 <= mark <= |log|
    && log[mark - 1].event == e
    && log[mark - 1].reason.Claimed?
    && log[mark - 1].worker == Some(w)
    && (forall i :: mark <= i < |log| ==> log[i].event != e)
  }

  /** A worker inside process_one holds the latest claim of its job, unless that was recovered. */
  ghost predicate ClaimHeld(db: Db, w: WorkerId, p: Phase) {
    p.Idle? || ((p.event in db.jobs) && p.mark <= |db.log| &&
                (ClaimOver(db.log, p.event, p.mark) || ClaimIsLatest(db.log, w, p.event, p.mark)))
  }

  ghost predicate ClaimsHeld(s: System) {
    forall w :: w in s.phases ==> ClaimHeld(s.db, w, s.phases[w])
  }

  ghost predicate Sound(s: System) {
    AllAudited(s.db) && ClaimsHeld(s)
  }

  /** An unrecovered claim is visible in the row: the job is processing, for this worker. */
  lemma HeldRow(db: Db, w: WorkerId, p: Phase)
    requires AllAudited(db) && !p.Idle? && ClaimHeld(db, w, p)
    requires !ClaimOver(db.log, p.event, p.mark)
    ensures p.event in db.jobs
    ensures db.jobs[p.event].state.Processing? && db.jobs[p.event].worker == Some(w)
    ensures 1 <= db.jobs[p.event].attempts
  {
    assert AuditedAt(db, p.event);
    var h := JobLog(db.log, p.event);
    JobLogLast(db.log, p.event, p.mark - 1);
    assert Legal(h[|h| - 1]);
  }

  /** A transaction that only appends entries keeps a claim, if it recovers the claim's job or
      does not write it. */
  lemma AppendKeepsClaim(db: Db, db': Db, w: WorkerId, p: Phase)
    requires ClaimHeld(db, w, p)
    requires db.log <= db'.log && db.jobs.Keys <= db'.jobs.Keys
    requires !p.Idle? && !ClaimOver(db.log, p.event, p.mark) ==>
               forall i :: |db.log| <= i < |db'.log| && db'.log[i].event == p.event ==> EndsClaim(db'.log[i].reason)
    ensures ClaimHeld(db', w, p)
  {
    if !p.Idle? {
      if i :| p.mark <= i < |db.log| && db.log[i].event == p.event && EndsClaim(db.log[i].reason) {
        assert db'.log[i] == db.log[i];
      } else if i :| |db.log| <= i < |db'.log| && db'.log[i].event == p.event {
        assert ClaimOver(db'.log, p.event, p.mark);
      } else {
        assert ClaimIsLatest(db.log, w, p.event, p.mark);
        assert forall i :: 0 <= i < |db.log| ==> db'.log[i] == db.log[i];
      }
    }
  }

  // ---------------------------------------------------------------- what batches append

  lemma {:induction false} EnqueueAllLog(cfg: Config, db: Db, batch: seq<Item>, ids: seq<EventId>, batchId: nat,
                                         now: Time)
    requires forall e :: e in ids ==> Mentions(batch, e)
    ensures var db' := EnqueueAll(cfg, db, batch, ids, batchId, now);
            && db.log <= db'.log
            && forall i :: |db.log| <= i < |db'.log| ==> db'.log[i].event in ids && db'.log[i].at == now
  {
    if ids != [] {
      EnqueueAllLog(cfg, db, batch, ids[..|ids| - 1], batchId, now);
    }
  }

  lemma {:induction false} RecoverAllLog(db: Db, rows: seq<EventId>, now: Time)
    requires forall e :: e in rows ==> e in db.jobs
    ensures var db' := RecoverAll(db, rows, now);
            && db.log <= db'.log
            && forall i :: |db.log| <= i < |db'.log| ==>
                             && db'.log[i].event in rows && db'.log[i].reason.LeaseRecovered?
                             && db'.log[i].at == now
  {
    if rows != [] {
      RecoverAllLog(db, rows[..|rows| - 1], now);
    }
  }

  lemma {:induction false} RedriveAllLog(db: Db, ids: seq<EventId>, now: Time)
    requires forall e :: e in ids ==> e in db.jobs
    ensures var db' := RedriveAll(db, ids, now);
            && db.log <= db'.log
            && forall i :: |db.log| <= i < |db'.log| ==> db'.log[i].event in ids && db'.log[i].at == now
  {
    if ids != [] {
      RedriveAllLog(db, ids[..|ids| - 1], now);
    }
  }

  lemma {:induction false} StageAllTables(db: Db, items: seq<Prediction>)
    ensures StageAll(db, items).jobs == db.jobs && StageAll(db, items).log == db.log
    ensures StageAll(db, items).outbox == db.outbox
  {
    if items != [] {
      StageAllTables(db, items[..|items| - 1]);
    }
  }

  // ---------------------------------------------------------------- soundness under the premise

  /** A step that touches only rows whose job is not processing, or recovers them, keeps all claims. */
  lemma ForeignStepKeepsClaims(s: System, db': Db)
    requires Sound(s)
    requires s.db.log <= db'.log && s.db.jobs.Keys <= db'.jobs.Keys
    requires forall i :: |s.db.log| <= i < |db'.log| ==>
                           || db'.log[i].reason.LeaseRecovered?
                           || db'.log[i].event !in s.db.jobs
                           || !s.db.jobs[db'.log[i].event].state.Processing?
    ensures ClaimsHeld(System(db', s.phases))
  {
    forall w | w in s.phases
      ensures ClaimHeld(db', w, s.phases[w])
    {
      var p := s.phases[w];
      if !p.Idle? && !ClaimOver(s.db.log, p.event, p.mark) {
        HeldRow(s.db, w, p);
      }
      AppendKeepsClaim(s.db, db', w, p);
    }
  }

  /** A worker's own on-time outcome leaves the other workers' claims in place, and ends its own. */
  lemma OutcomeKeepsClaims(s: System, w: WorkerId, db': Db, p': Phase)
    requires Sound(s) && !PhaseOf(s, w).Idle?
    requires !ClaimOver(s.db.log, PhaseOf(s, w).event, PhaseOf(s, w).mark)
    requires db'.jobs.Keys == s.db.jobs.Keys && |db'.log| == |s.db.log| + 1 && s.db.log <= db'.log
    requires db'.log[|s.db.log|].event == PhaseOf(s, w).event
    requires p'.Idle? || (p'.event == PhaseOf(s, w).event && p'.mark == PhaseOf(s, w).mark
                          && EndsClaim(db'.log[|s.db.log|].reason))
    ensures ClaimsHeld(System(db', s.phases[w := p']))
  {
    HeldRow(s.db, w, PhaseOf(s, w));
    assert ClaimHeld(s.db, w, PhaseOf(s, w));
    forall v | v in s.phases && v != w
      ensures ClaimHeld(db', v, s.phases[v])
    {
      var p := s.phases[v];
      if !p.Idle? && !ClaimOver(s.db.log, p.event, p.mark) {
        HeldRow(s.db, v, p);
      }
      AppendKeepsClaim(s.db, db', v, p);
    }
  }

  lemma ClaimKeepsSound(cfg: Config, s: System, w: WorkerId, e: EventId, now: Time)
    requires Sound(s) && PhaseOf(s, w).Idle? && Claimable(s.db, e, now)
    ensures Sound(Next(cfg, s, ClaimNext(w, e, now)))
  {
    var db' := Claim(cfg, s.db, e, w, now);
    ClaimKeepsAudit(cfg, s.db, e, w, now);
    ForeignStepKeepsClaims(s, db');
    assert ClaimIsLatest(db'.log, w, e, |db'.log|);
  }

  lemma RedriveKeepsSound(cfg: Config, s: System, request: RedriveRequest, now: Time)
    requires Sound(s)
    ensures Sound(s.(db := Redrive(cfg, s.db, request, now)))
  {
    if RedriveVerdict(cfg, s.db, request, now).None? && !request.dryRun {
      assert forall e :: e in request.ids ==> EvaluateRedrive(cfg, s.db, e, request.compat, now).None?;
      RedriveAllKeepsAudit(s.db, request.ids, now);
      RedriveAllLog(s.db, request.ids, now);
      ForeignStepKeepsClaims(s, RedriveAll(s.db, request.ids, now));
    }
  }

  lemma EnqueueKeepsSound(cfg: Config, s: System, batch: seq<Item>, batchId: nat, now: Time)
    requires Sound(s)
    ensures Sound(s.(db := Enqueue(cfg, s.db, batch, batchId, now)))
  {
    if EnqueueVerdict(cfg, s.db, batch).None? {
      var ids := NewIds(s.db.jobs, batch);
      EnqueueAllKeepsAudit(cfg, s.db, batch, ids, batchId, now);
      EnqueueAllLog(cfg, s.db, batch, ids, batchId, now);
      ForeignStepKeepsClaims(s, EnqueueAll(cfg, s.db, batch, ids, batchId, now));
    }
  }

  lemma RecoverKeepsSound(s: System, rows: seq<EventId>, now: Time)
    requires Sound(s) && IsLapsedListing(s.db.jobs, now, rows)
    ensures Sound(s.(db := RecoverAll(s.db, rows, now)))
  {
    RecoverAllKeepsAudit(s.db, rows, now);
    RecoverAllLog(s.db, rows, now);
    ForeignStepKeepsClaims(s, RecoverAll(s.db, rows, now));
  }

  lemma PredictKeepsSound(s: System, items: seq<Prediction>)
    requires Sound(s)
    ensures Sound(s.(db := StageAll(s.db, items)))
  {
    StageAllTables(s.db, items);
    assert forall e: EventId :: AuditedAt(s.db, e) ==> AuditedAt(StageAll(s.db, items), e);
    ForeignStepKeepsClaims(s, StageAll(s.db, items));
  }

  lemma OutcomeKeepsSound(cfg: Config, s: System, ev: Event)
    requires Sound(s) && OutcomeOnTime(s, ev)
    requires ev.CommitSuccess? || ev.CommitFailure?
    ensures Sound(Next(cfg, s, ev))
  {
    var w := ev.worker;
    var p := PhaseOf(s, w);
    var s' := Next(cfg, s, ev);
    if s'.db != s.db {
      HeldRow(s.db, w, p);
      if ev.CommitSuccess? {
        SucceedKeepsAudit(s.db, p.event, w, p.verdict, ev.now);
      } else {
        FailKeepsAudit(s.db, p.event, w, p.failure, ev.now);
      }
      OutcomeKeepsClaims(s, w, s'.db, s'.phases[w]);
    }
  }

  /** Every transaction whose outcome, if any, is on time keeps the table audited. */
  lemma NextKeepsSound(cfg: Config, s: System, ev: Event)
    requires Sound(s) && OutcomeOnTime(s, ev)
    ensures Sound(Next(cfg, s, ev))
  {
    match ev
    case EnqueueBatch(batch, batchId, now) => EnqueueKeepsSound(cfg, s, batch, batchId, now);
    case ClaimNext(w, e, now) =>
      if PhaseOf(s, w).Idle? && Claimable(s.db, e, now) {
        ClaimKeepsSound(cfg, s, w, e, now);
      }
    case BeginAttempt(w, blocked, inference) =>
    case CommitSuccess(w, answer, now) => OutcomeKeepsSound(cfg, s, ev);
    case CommitFailure(w, now) => OutcomeKeepsSound(cfg, s, ev);
    case Crash(w) =>
    case RecoverLeases(rows, now) =>
      if IsLapsedListing(s.db.jobs, now, rows) {
        RecoverKeepsSound(s, rows, now);
      }
    case RedriveEvents(request, now) => RedriveKeepsSound(cfg, s, request, now);
    case PredictDirectly(items) =>
      if Stageable(s.db, items) {
        PredictKeepsSound(s, items);
      }
  }

  lemma {:induction false} RunIsSound(cfg: Config, run: seq<Event>)
    requires OnTime(cfg, run)
    ensures Sound(Exec(cfg, run))
  {
    if |run| == 0 {
      assert forall e: EventId :: AuditedAt(START.db, e);
    } else {
      RunIsSound(cfg, run[..|run| - 1]);
      NextKeepsSound(cfg, Exec(cfg, run[..|run| - 1]), run[|run| - 1]);
    }
  }
}
