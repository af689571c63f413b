/** The ingestion service as it runs: rows updated in place, loops that build dictionaries and
    lists.  Each method is proved equal to the transaction of IngestionModel that it performs. */
module IngestionStore {
  import opened Wrappers
  import opened IngestionModel
  import opened IngestionRuns
  import opened Text

  /** The predictions of a batch; a failed inference has none, and then the batch is not stored. */
  function Inferred(ids: seq<EventId>, inference: EventId -> Result<Verdict, Failure>): (items: seq<Prediction>)
    ensures |items| == |ids| && forall i :: 0 <= i < |ids| ==> items[i].event == ids[i]
  {
    seq(|ids|, i requires 0 <= i < |ids| =>
      Prediction(ids[i], match inference(ids[i]) case Ok(v) => v case Err(_) => Normal))
  }

  lemma {:induction false} StagedEvents(db: Db, items: seq<Prediction>, e: EventId)
    ensures e in StageAll(db, items).observations <==>
            e in db.observations || exists i :: 0 <= i < |items| && items[i].event == e
  {
    if items != [] {
      var n := |items| - 1;
      StagedEvents(db, items[..n], e);
      assert forall i :: 0 <= i < n ==> items[..n][i] == items[i];
    }
  }

  /** The next item of a batch either extends what is staged so far or makes the batch unstageable. */
  lemma StageNext(db: Db, items: seq<Prediction>, i: nat)
    requires i < |items| && Stageable(db, items[..i])
    ensures var so := StageAll(db, items[..i]);
            var p := items[i];
            && (p.event in so.observations ==> !Stageable(db, items))
            && (p.event !in so.observations ==>
                  Stageable(db, items[..i + 1]) && StageAll(db, items[..i + 1]) == Stage(so, p.event, p.verdict))
  {
    assert items[..i + 1][..i] == items[..i];
    StagedEvents(db, items[..i], items[i].event);
    assert forall j :: 0 <= j < i ==> items[..i][j] == items[j];
  }

  /** The tables after the outcome of an attempt that nobody disturbs. */
  function AfterAttempt(db: Db, e: EventId, w: WorkerId, phase: Phase, answer: Answer, now: Time): Db
    requires e in db.jobs && (phase.Staged? || phase.Failing?)
  {
    var tried := if phase.Staged? && !answer.Rejected? then Succeed(db, e, w, phase.verdict, now) else db;
    if phase.Failing? then Fail(tried, e, w, phase.failure, now)
    else if !answer.Committed? then Fail(tried, e, w, OtherError, now)
    else tried
  }

  lemma AttemptAlone(cfg: Config, s: System, w: WorkerId, answer: Answer, now: Time)
    requires var p := PhaseOf(s, w);
             && (p.Staged? || p.Failing?) && p.event in s.db.jobs
             && (p.Staged? ==> p.event !in s.db.observations)
    ensures Next(cfg, Next(cfg, s, CommitSuccess(w, answer, now)), CommitFailure(w, now)).db ==
            AfterAttempt(s.db, PhaseOf(s, w).event, w, PhaseOf(s, w), answer, now)
  {
  }

  /** The four steps of process_one, taken by one worker alone. */
  lemma AloneRun(cfg: Config, db: Db, w: WorkerId, e: EventId, blocked: Option<Failure>,
                 inference: Result<Verdict, Failure>, answer: Answer, now: Time)
    requires Claimable(db, e, now)
    ensures var db1 := Claim(cfg, db, e, w, now);
            var phase := Begin(db1, e, |db1.log|, blocked, inference);
            var s1 := Next(cfg, System(db, map[]), ClaimNext(w, e, now));
            var s2 := Next(cfg, s1, BeginAttempt(w, blocked, inference));
            && (phase.Staged? || phase.Failing?)
            && (phase.Staged? ==> e !in db1.observations)
            && Next(cfg, Next(cfg, s2, CommitSuccess(w, answer, now)), CommitFailure(w, now)).db ==
               AfterAttempt(db1, e, w, phase, answer, now)
  {
    var db1 := Claim(cfg, db, e, w, now);
    var phase := Begin(db1, e, |db1.log|, blocked, inference);
    var s1 := Next(cfg, System(db, map[]), ClaimNext(w, e, now));
    assert s1 == System(db1, map[w := Holding(e, |db1.log|)]);
    var s2 := Next(cfg, s1, BeginAttempt(w, blocked, inference));
    assert s2.db == db1 && PhaseOf(s2, w) == phase;
    AttemptAlone(cfg, s2, w, answer, now);
  }

  class Store {
    const cfg: Config
    var jobs: map<EventId, Job>
    var observations: seq<EventId>
    var predictions: seq<Prediction>
    var alerts: seq<EventId>
    var outbox: seq<OutboxRow>
    var log: seq<Transition>

    constructor (cfg: Config)
      ensures this.cfg == cfg && Snapshot() == EMPTY
    {
      this.cfg := cfg;
      jobs, observations, predictions, alerts, outbox, log := map[], [], [], [], [], [];
    }

    function Snapshot(): Db
      reads this
    {
      Db(jobs, observations, predictions, alerts, outbox, log)
    }

    method RecordTransition(t: Transition)
      modifies this`log
      ensures log == old(log) + [t]
    {
      log := log + [t];
    }

    // -------------------------------------------------------------- enqueue_observations

    /** The first loop: an identifier may repeat, within the batch or against the table, only with
        an equal digest. */
    method FindConflict(batch: seq<Item>) returns (conflict: bool)
      ensures conflict <==> Conflicting(cfg.hash, jobs, batch)
    {
      var seen: map<EventId, Digest> := map[];
      for i := 0 to |batch|
        invariant forall j :: 0 <= j < i ==>
                                batch[j].event in seen && seen[batch[j].event] == cfg.hash(batch[j].payload)
        invariant forall e :: e in seen ==> exists j :: 0 <= j < i && batch[j].event == e
        invariant forall j :: 0 <= j < i ==> !ConflictAt(cfg.hash, jobs, batch, j)
      {
        var e, digest := batch[i].event, cfg.hash(batch[i].payload);
        if e in seen && seen[e] != digest {
          assert ConflictAt(cfg.hash, jobs, batch, i);
          return true;
        }
        seen := seen[e := digest];
        if e in jobs && jobs[e].payloadHash != digest {
          assert ConflictAt(cfg.hash, jobs, batch, i);
          return true;
        }
      }
      conflict := false;
    }

    /** new_by_id: an ordered dictionary that keeps the first position and the last payload. */
    method CollectNew(batch: seq<Item>) returns (order: seq<EventId>, payloads: map<EventId, Payload>)
      ensures order == NewIds(jobs, batch)
      ensures forall e :: e in order ==> Mentions(batch, e) && e in payloads && payloads[e] == LastPayload(batch, e)
    {
      order, payloads := [], map[];
      for i := 0 to |batch|
        invariant order == NewIds(jobs, batch[..i])
        invariant forall e :: e in payloads <==> e in order
        invariant forall e :: e in payloads ==> payloads[e] == LastPayload(batch[..i], e)
      {
        assert batch[..i + 1][..i] == batch[..i];
        var e := batch[i].event;
        if e !in jobs {
          if e !in payloads {
            order := order + [e];
          }
          payloads := payloads[e := batch[i].payload];
        }
      }
      assert batch[..|batch|] == batch;
    }

    method InsertNew(batch: seq<Item>, order: seq<EventId>, payloads: map<EventId, Payload>, batchId: nat, now: Time)
      returns (accepted: set<EventId>)
      requires forall e :: e in order ==> Mentions(batch, e) && e in payloads && payloads[e] == LastPayload(batch, e)
      modifies this
      ensures Snapshot() == EnqueueAll(cfg, old(Snapshot()), batch, order, batchId, now)
      ensures forall e :: e in accepted <==> e in order
    {
      accepted := {};
      for i := 0 to |order|
        invariant Snapshot() == EnqueueAll(cfg, old(Snapshot()), batch, order[..i], batchId, now)
        invariant forall e :: e in accepted <==> e in order[..i]
      {
        assert order[..i + 1][..i] == order[..i];
        var e := order[i];
        jobs := jobs[e := NewJob(cfg, payloads[e], batchId, now)];
        RecordTransition(Transition(e, None, Queued, Enqueued, None, None, None, 0, now));
        accepted := accepted + {e};
      }
      assert order[..|order|] == order;
    }

    /** The answer, built after the commit from the rows read before it. */
    method BuildReplies(existing: map<EventId, Job>, batch: seq<Item>, accepted: set<EventId>)
      returns (replies: seq<Reply>)
      requires forall e :: e in accepted <==> e !in existing && Mentions(batch, e)
      ensures replies == Replies(existing, batch)
    {
      replies := [];
      var emitted: set<EventId> := {};
      for i := 0 to |batch|
        invariant |replies| == i
        invariant forall j :: 0 <= j < i ==> replies[j] == ReplyAt(existing, batch, j)
        invariant forall j :: 0 <= j < i ==> batch[j].event in emitted
        invariant forall e :: e in emitted ==> exists j :: 0 <= j < i && batch[j].event == e
      {
        var e := batch[i].event;
        assert Mentions(batch, e);
        var isNew := e in accepted && e !in emitted;
        var state := if isNew then Queued else if e in existing then existing[e].state else Queued;
        replies := replies + [Reply(e, state, isNew)];
        emitted := emitted + {e};
      }
    }

    method EnqueueObservations(batch: seq<Item>, batchId: nat, now: Time)
      returns (r: Result<seq<Reply>, EnqueueError>)
      modifies this
      ensures Snapshot() == Enqueue(cfg, old(Snapshot()), batch, batchId, now)
      ensures r == match EnqueueVerdict(cfg, old(Snapshot()), batch)
                   case Some(error) => Err(error)
                   case None => Ok(Replies(old(jobs), batch))
    {
      var existing := jobs;
      var conflict := FindConflict(batch);
      if conflict {
        return Err(IdempotencyConflict);
      }
      var order, payloads := CollectNew(batch);
      if ActiveCount(jobs) + |order| > cfg.queueLimit {
        return Err(QueueFull);
      }
      var accepted := InsertNew(batch, order, payloads, batchId, now);
      var replies := BuildReplies(existing, batch, accepted);
      r := Ok(replies);
    }

    // -------------------------------------------------------------- claim and recovery

    /** The claim query takes the oldest claimable job. */
    method ClaimNextJob(w: WorkerId, now: Time) returns (picked: Option<EventId>)
      modifies this
      ensures picked.None? ==>
                && Snapshot() == old(Snapshot())
                && forall e :: e in jobs && (jobs[e].state.Queued? || jobs[e].state.Retrying?) ==>
                                 now < jobs[e].availableAt
      ensures picked.Some? ==>
                && Claimable(old(Snapshot()), picked.value, now) && old(jobs)[picked.value].availableAt <= now
                && (forall e :: Claimable(old(Snapshot()), e, now) ==>
                                  old(jobs)[picked.value].createdAt <= old(jobs)[e].createdAt)
                && Snapshot() == Claim(cfg, old(Snapshot()), picked.value, w, now)
    {
      var todo := jobs.Keys;
      picked := None;
      while todo != {}
        invariant todo <= jobs.Keys
        invariant picked.None? ==> forall e :: e in jobs && e !in todo ==> !Claimable(Snapshot(), e, now)
        invariant picked.Some? ==>
                    && Claimable(Snapshot(), picked.value, now)
                    && forall e :: e in jobs && e !in todo && Claimable(Snapshot(), e, now) ==>
                                     jobs[picked.value].createdAt <= jobs[e].createdAt
        decreases todo
      {
        var e :| e in todo;
        todo := todo - {e};
        if Claimable(Snapshot(), e, now) && (picked.None? || jobs[e].createdAt < jobs[picked.value].createdAt) {
          picked := Some(e);
        }
      }
      if picked.Some? {
        var e := picked.value;
        var previous := jobs[e];
        RecordTransition(Transition(e, Some(previous.state), Processing, Claimed, None, None, Some(w), 0, now));
        jobs := jobs[e := previous.(attempts := previous.attempts + 1, worker := Some(w),
                                    lease := Some(now + cfg.leaseSeconds), state := Processing)];
      }
    }

    method SelectLapsed(now: Time) returns (rows: seq<EventId>)
      ensures IsLapsedListing(jobs, now, rows)
    {
      rows := [];
      var todo := jobs.Keys;
      while todo != {}
        invariant todo <= jobs.Keys
        invariant forall e :: e in rows <==> e in jobs && e !in todo && LeaseLapsed(jobs, e, now)
        invariant forall i, j :: 0 <= i < j < |rows| ==> rows[i] != rows[j]
        decreases todo
      {
        var e :| e in todo;
        todo := todo - {e};
        if LeaseLapsed(jobs, e, now) {
          rows := rows + [e];
        }
      }
    }

    method RecoverExpiredLeases(now: Time) returns (rows: seq<EventId>)
      modifies this
      ensures IsLapsedListing(old(jobs), now, rows)
      ensures Snapshot() == RecoverAll(old(Snapshot()), rows, now)
    {
      rows := SelectLapsed(now);
      assert forall e :: e in rows ==> e in jobs by {
        assert forall e :: e in rows ==> LeaseLapsed(jobs, e, now);
      }
      for i := 0 to |rows|
        invariant forall e :: e in rows ==> e in old(jobs)
        invariant Snapshot() == RecoverAll(old(Snapshot()), rows[..i], now)
      {
        assert rows[..i + 1][..i] == rows[..i];
        var e := rows[i];
        var previousWorker := jobs[e].worker;
        jobs := jobs[e := jobs[e].(state := Retrying, availableAt := now, lease := None, worker := None,
                                   errorCode := Some(LeaseExpired), retryable := Some(true))];
        RecordTransition(Transition(e, Some(Processing), Retrying, LeaseRecovered, Some(LeaseExpired), Some(true),
                                    previousWorker, 0, now));
      }
      assert rows[..|rows|] == rows;
    }

    // -------------------------------------------------------------- redrive_events

    /** Evaluate every listed event; eligible collects those without a refusal. */
    method EvaluateAll(request: RedriveRequest, now: Time) returns (results: seq<ReportLine>, eligible: seq<EventId>)
      ensures results == RedriveReport(cfg, Snapshot(), request, now)
      ensures |eligible| < |request.ids| <==> AnyRefused(cfg, Snapshot(), request, now)
      ensures !AnyRefused(cfg, Snapshot(), request, now) ==> eligible == request.ids
    {
      results, eligible := [], [];
      for i := 0 to |request.ids|
        invariant |results| == i && |eligible| <= i
        invariant forall j :: 0 <= j < i ==>
                                results[j] == ReportLine(
                                  request.ids[j],
                                  EvaluateRedrive(cfg, Snapshot(), request.ids[j], request.compat, now))
        invariant |eligible| < i ==> AnyRefused(cfg, Snapshot(), request, now)
        invariant |eligible| == i ==> eligible == request.ids[..i]
        invariant |eligible| == i ==> forall j :: 0 <= j < i ==> results[j].refusal.None?
      {
        var e := request.ids[i];
        var refusal := EvaluateRedrive(cfg, Snapshot(), e, request.compat, now);
        results := results + [ReportLine(e, refusal)];
        if refusal.None? {
          eligible := eligible + [e];
        }
      }
      assert forall j :: 0 <= j < |results| ==>
                           results[j].refusal == EvaluateRedrive(cfg, Snapshot(), request.ids[j], request.compat, now);
    }

    method RequeueAll(eligible: seq<EventId>, now: Time)
      requires forall e :: e in eligible ==> e in jobs
      modifies this
      ensures Snapshot() == RedriveAll(old(Snapshot()), eligible, now)
    {
      for i := 0 to |eligible|
        invariant Snapshot() == RedriveAll(old(Snapshot()), eligible[..i], now)
      {
        assert eligible[..i + 1][..i] == eligible[..i];
        var e := eligible[i];
        RecordTransition(Transition(e, Some(DeadLetter), Queued, ManualRedrive,
                                    jobs[e].errorCode, jobs[e].retryable, None, 0, now));
        jobs := jobs[e := jobs[e].(state := Queued, attempts := 0, availableAt := now, completedAt := None,
                                   worker := None, lease := None, errorCode := None, retryable := None,
                                   redrives := jobs[e].redrives + 1)];
      }
      assert eligible[..|eligible|] == eligible;
    }

    method RedriveEvents(request: RedriveRequest, now: Time) returns (r: Result<seq<ReportLine>, RedriveError>)
      modifies this
      ensures Snapshot() == Redrive(cfg, old(Snapshot()), request, now)
      ensures r == match RedriveVerdict(cfg, old(Snapshot()), request, now)
                   case Some(error) => Err(error)
                   case None => Ok(RedriveReport(cfg, old(Snapshot()), request, now))
    {
      if IsBlank(request.operator) || IsBlank(request.reason) {
        return Err(EvidenceMissing);
      }
      if request.ids == [] {
        return Err(NoEvents);
      }
      if !Distinct(request.ids) {
        return Err(RepeatedEvents);
      }
      var results, eligible := EvaluateAll(request, now);
      if |eligible| < |request.ids| && !request.dryRun {
        return Err(Refused);
      }
      if !request.dryRun {
        assert forall e :: e in request.ids ==> EvaluateRedrive(cfg, Snapshot(), e, request.compat, now).None?;
        RequeueAll(eligible, now);
      }
      r := Ok(results);
    }

    // -------------------------------------------------------------- process_one

    /** stage_observation: the existence check, then the rows of one event and its announcements.  A
        failed inference leaves the observation in the session, for the caller to roll back. */
    method StageObservation(e: EventId, inference: Result<Verdict, Failure>)
      returns (r: Result<seq<OutboxRow>, Failure>)
      modifies this
      ensures e in old(observations) ==> r == Err(InvalidValue) && Snapshot() == old(Snapshot())
      ensures e !in old(observations) && inference.Err? ==>
                r == Err(inference.error)
                && Snapshot() == old(Snapshot()).(observations := old(observations) + [e])
      ensures e !in old(observations) && inference.Ok? ==>
                r == Ok(StagedRows(e, inference.value))
                && Snapshot() == Stage(old(Snapshot()), e, inference.value)
    {
      if e in observations {
        return Err(InvalidValue);
      }
      observations := observations + [e];
      if inference.Err? {
        return Err(inference.error);
      }
      var v := inference.value;
      predictions := predictions + [Prediction(e, v)];
      var events := [OutboxRow(e, PredictionCreated)];
      if v.Attack? {
        alerts := alerts + [e];
        events := events + [OutboxRow(e, AlertCreated)];
      }
      assert events == StagedRows(e, v);
      r := Ok(events);
    }

    /** persist_observations: the whole batch is stored, or the rollback undoes all of it. */
    method PersistObservations(ids: seq<EventId>, inference: EventId -> Result<Verdict, Failure>) returns (ok: bool)
      modifies this
      ensures ok <==> Stageable(old(Snapshot()), Inferred(ids, inference))
                      && forall i :: 0 <= i < |ids| ==> inference(ids[i]).Ok?
      ensures Snapshot() == if ok then StageAll(old(Snapshot()), Inferred(ids, inference)) else old(Snapshot())
    {
      var saved := Snapshot();
      ghost var items := Inferred(ids, inference);
      StageAllTables(saved, items[..0]);
      for i := 0 to |ids|
        invariant forall j :: 0 <= j < i ==> inference(ids[j]).Ok?
        invariant Stageable(saved, items[..i]) && Snapshot() == StageAll(saved, items[..i])
      {
        StageNext(saved, items, i);
        StageAllTables(saved, items[..i]);
        var staged := StageObservation(ids[i], inference(ids[i]));
        if staged.Err? {
          observations, predictions, alerts := saved.observations, saved.predictions, saved.alerts;
          return false;
        }
      }
      assert items[..|ids|] == items;
      ok := true;
    }

    /** The outbox rows, the audit entry and the job row of one success, in the session that staged it. */
    method CommitProcessed(e: EventId, w: WorkerId, v: Verdict, now: Time)
      requires e in jobs && e !in observations
      modifies this
      ensures Snapshot() == Succeed(old(Snapshot()), e, w, v, now)
    {
      var staged := StageObservation(e, Ok(v));
      var events := staged.value;
      ghost var before := Snapshot();
      for i := 0 to |events|
        invariant Snapshot() == before.(outbox := before.outbox + events[..i])
      {
        assert events[..i + 1] == events[..i] + [events[i]];
        outbox := outbox + [events[i]];
      }
      assert events[..|events|] == events;
      RecordTransition(Transition(e, Some(Processing), Succeeded, ProcessingSucceeded, None, None, Some(w), 0, now));
      jobs := jobs[e := jobs[e].(state := Succeeded, completedAt := Some(now), lease := None, worker := None,
                                 errorCode := None, retryable := None)];
    }

    /** The exception handler of process_one; a job that is gone makes it raise again. */
    method RecordFailure(e: EventId, w: WorkerId, f: Failure, now: Time) returns (raised: bool)
      modifies this
      ensures raised <==> e !in old(jobs)
      ensures Snapshot() == if raised then old(Snapshot()) else Fail(old(Snapshot()), e, w, f, now)
    {
      raised := e !in jobs;
      if raised {
        return;
      }
      var (code, retryable) := ClassifyFailure(f);
      jobs := jobs[e := jobs[e].(errorCode := Some(code), retryable := Some(retryable), lease := None, worker := None)];
      if !retryable || jobs[e].attempts > |RETRY_DELAYS_SECONDS| {
        RecordTransition(Transition(e, Some(Processing), DeadLetter,
                                    if !retryable then PermanentFailure else RetriesExhausted,
                                    Some(code), Some(retryable), Some(w), 0, now));
        jobs := jobs[e := jobs[e].(state := DeadLetter, completedAt := Some(now))];
      } else {
        var delay := RetryDelay(jobs[e].attempts);
        RecordTransition(Transition(e, Some(Processing), Retrying, RetryScheduled,
                                    Some(code), Some(true), Some(w), delay, now));
        jobs := jobs[e := jobs[e].(state := Retrying, availableAt := now + delay)];
      }
    }

    /** process_one without interference: a claim, then the attempt, then its one outcome.  It is the
        four-event run of IngestionRuns in which this worker acts alone. */
    method ProcessOne(w: WorkerId, blocked: Option<Failure>, inference: Result<Verdict, Failure>, answer: Answer,
                      now: Time)
      returns (picked: Option<EventId>)
      modifies this
      ensures picked.None? ==> Snapshot() == old(Snapshot())
      ensures picked.Some? ==>
                Snapshot() ==
                var s1 := Next(cfg, System(old(Snapshot()), map[]), ClaimNext(w, picked.value, now));
                var s2 := Next(cfg, s1, BeginAttempt(w, blocked, inference));
                var s3 := Next(cfg, s2, CommitSuccess(w, answer, now));
                Next(cfg, s3, CommitFailure(w, now)).db
    {
      picked := ClaimNextJob(w, now);
      if picked.Some? {
        var e := picked.value;
        var phase := Begin(Snapshot(), e, |log|, blocked, inference);
        AloneRun(cfg, old(Snapshot()), w, e, blocked, inference, answer, now);
        if phase.Staged? && !answer.Rejected? {
          CommitProcessed(e, w, phase.verdict, now);
        }
        if phase.Failing? || !answer.Committed? {
          var _ := RecordFailure(e, w, if phase.Staged? then OtherError else phase.failure, now);
        }
      }
    }
  }
}
