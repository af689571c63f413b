/** What one worker brings about when nobody disturbs its attempt, from any point of any run, and what
    direct predictions store. */
module IngestionAttempts {
  import opened Wrappers
  import opened IngestionModel
  import opened IngestionAudit
  import opened IngestionRuns
  import opened IngestionEffects
  import opened IngestionLedger
  import opened IngestionPolicy
  import opened IngestionSchedule

  /** The first two steps of process_one. */
  ghost function Attempted(cfg: Config, s: System, w: WorkerId, e: EventId, blocked: Option<Failure>,
                           inference: Result<Verdict, Failure>, now: Time): System {
    Next(cfg, Next(cfg, s, ClaimNext(w, e, now)), BeginAttempt(w, blocked, inference))
  }

  /** Why an attempt fails: the checks before the inference, an observation that is stored already, or the
      inference itself. */
  function CauseOf(db: Db, e: EventId, blocked: Option<Failure>, inference: Result<Verdict, Failure>): Option<Failure> {
    if blocked.Some? then blocked
    else if e in db.observations then Some(InvalidValue)
    else if inference.Err? then Some(inference.error)
    else None
  }

  lemma AttemptAlone(cfg: Config, s: System, w: WorkerId, e: EventId, blocked: Option<Failure>,
                     inference: Result<Verdict, Failure>, now: Time)
    requires PhaseOf(s, w).Idle? && Claimable(s.db, e, now)
    ensures var s' := Attempted(cfg, s, w, e, blocked, inference, now);
            var cause := CauseOf(s.db, e, blocked, inference);
            && s'.db == Claim(cfg, s.db, e, w, now)
            && PhaseOf(s', w) == (if cause.Some? then Failing(e, |s.db.log| + 1, cause.value)
                                  else Staged(e, |s.db.log| + 1, inference.value))
  {
  }

  lemma ClaimableFromLog(cfg: Config, run: seq<Event>, e: EventId, now: Time)
    requires Due(JobLog(Exec(cfg, run).db.log, e), now)
    ensures Claimable(Exec(cfg, run).db, e, now)
  {
    assert BookedAt(cfg, Exec(cfg, run).db, e) by { RunKeepsBooks(cfg, run); }
    ClaimableIffDue(cfg, Exec(cfg, run).db, e, now);
  }

  /** The job has succeeded now, with all effects of the verdict, and the worker is free. */
  ghost predicate Completed(s: System, w: WorkerId, e: EventId, v: Verdict, now: Time) {
    && PhaseOf(s, w).Idle?
    && e in s.db.jobs && s.db.jobs[e].state.Succeeded? && s.db.jobs[e].completedAt == Some(now)
    && HasAll(EffectsOf(s.db, e), e, v, true)
  }

  lemma ClaimLeavesEffects(cfg: Config, db: Db, e: EventId, w: WorkerId, now: Time)
    requires Claimable(db, e, now)
    ensures EffectsOf(Claim(cfg, db, e, w, now), e) == EffectsOf(db, e)
  {
    QuietLeavesEffects(db, Claim(cfg, db, e, w, now), e);
  }

  lemma CommitCompletes(cfg: Config, s: System, w: WorkerId, e: EventId, v: Verdict, now: Time)
    requires PhaseOf(s, w).Staged? && PhaseOf(s, w).event == e && PhaseOf(s, w).verdict == v
    requires e in s.db.jobs && e !in s.db.observations && IsEmpty(EffectsOf(s.db, e))
    ensures Completed(Next(cfg, s, CommitSuccess(w, Committed, now)), w, e, v, now)
  {
    var db' := Succeed(s.db, e, w, v, now);
    assert Next(cfg, s, CommitSuccess(w, Committed, now)) == System(db', s.phases[w := Idle]);
    assert e in db'.jobs && db'.jobs[e].state.Succeeded? && db'.jobs[e].completedAt == Some(now);
    assert HasAll(EffectsOf(db', e), e, v, true) by {
      SucceedFillsEvent(s.db, e, w, v, now);
    }
  }

  /** Main theorem: from any point of any run, an undisturbed attempt at a job that is due, whose event
      has no stored observation and whose inference yields a verdict, ends with the job succeeded and
      exactly that verdict's results stored and announced. */
  lemma UndisturbedAttemptSucceeds(cfg: Config, run: seq<Event>, w: WorkerId, e: EventId, v: Verdict, now: Time)
    requires var s := Exec(cfg, run);
             PhaseOf(s, w).Idle? && Due(JobLog(s.db.log, e), now) && e !in s.db.observations
    ensures var s := Exec(cfg, run);
            var staged := Attempted(cfg, s, w, e, None, Ok(v), now);
            Completed(Next(cfg, staged, CommitSuccess(w, Committed, now)), w, e, v, now)
  {
    var s := Exec(cfg, run);
    ClaimableFromLog(cfg, run, e, now);
    AttemptAlone(cfg, s, w, e, None, Ok(v), now);
    assert IsEmpty(EffectsOf(s.db, e)) by {
      assert EffectsAt(s.db, e) by { ExactlyOnceEffects(cfg, run); }
      UnseenHasNothing(s.db, e);
    }
    ClaimLeavesEffects(cfg, s.db, e, w, now);
    CommitCompletes(cfg, Attempted(cfg, s, w, e, None, Ok(v), now), w, e, v, now);
  }

  /** Main theorem: if it cannot succeed, the worker is about to record its cause, and has stored nothing:
      a failed check comes before a stored observation, and that before a failed inference. */
  lemma UndisturbedAttemptFails(cfg: Config, run: seq<Event>, w: WorkerId, e: EventId, blocked: Option<Failure>,
                                inference: Result<Verdict, Failure>, now: Time)
    requires var s := Exec(cfg, run);
             && PhaseOf(s, w).Idle? && Due(JobLog(s.db.log, e), now)
             && CauseOf(s.db, e, blocked, inference).Some?
    ensures var s := Exec(cfg, run);
            var failing := Attempted(cfg, s, w, e, blocked, inference, now);
            && RecordsFailure(failing, w) && PhaseOf(failing, w).event == e
            && PhaseOf(failing, w).failure == CauseOf(s.db, e, blocked, inference).value
            && SameEffects(s.db, failing.db)
  {
    ClaimableFromLog(cfg, run, e, now);
    AttemptAlone(cfg, Exec(cfg, run), w, e, blocked, inference, now);
  }

  /** A commit whose answer is lost stores the same as one that is answered, and a rejected one nothing;
      either way the worker goes on to record a failure of the inference. */
  lemma CommitWithoutAnswer(cfg: Config, s: System, w: WorkerId, now: Time)
    requires StoresResults(s, CommitSuccess(w, Committed, now))
    ensures var known := Next(cfg, s, CommitSuccess(w, Committed, now));
            var lost := Next(cfg, s, CommitSuccess(w, Unanswered, now));
            var rejected := Next(cfg, s, CommitSuccess(w, Rejected, now));
            && lost.db == known.db && RecordsFailure(lost, w) && PhaseOf(lost, w).failure == OtherError
            && rejected.db == s.db && RecordsFailure(rejected, w) && PhaseOf(rejected, w).failure == OtherError
  {
  }

  /** A worker that finds its job taken back, finished or gone before it begins gives up without a trace. */
  lemma OvertakenAttemptGivesUp(cfg: Config, s: System, w: WorkerId, blocked: Option<Failure>,
                                inference: Result<Verdict, Failure>)
    requires PhaseOf(s, w).Holding?
    requires var e := PhaseOf(s, w).event;
             e in s.db.jobs ==> !s.db.jobs[e].state.Processing?
    ensures Next(cfg, s, BeginAttempt(w, blocked, inference)) == s.(phases := s.phases[w := Idle])
  {
  }

  // ---------------------------------------------------------------- direct predictions

  lemma ShorterIsStageable(db: Db, items: seq<Prediction>)
    requires Stageable(db, items) && items != []
    ensures Stageable(db, items[..|items| - 1])
  {
  }

  lemma LastIsUnseen(db: Db, items: seq<Prediction>)
    requires Stageable(db, items) && AllEffects(db) && items != []
    ensures IsEmpty(EffectsOf(StageAll(db, items[..|items| - 1]), items[|items| - 1].event))
  {
    var n := |items| - 1;
    var before := StageAll(db, items[..n]);
    ShorterIsStageable(db, items);
    StageAllKeepsEffects(db, items[..n]);
    assert forall k :: 0 <= k < n ==> items[..n][k] == items[k];
    assert EffectsAt(before, items[n].event);
    UnseenHasNothing(before, items[n].event);
  }

  /** The results of the prediction are stored, once each, and nothing is announced or recorded. */
  ghost predicate IsStored(db: Db, p: Prediction) {
    HasAll(EffectsOf(db, p.event), p.event, p.verdict, false)
  }

  lemma LastIsStored(db: Db, items: seq<Prediction>)
    requires Stageable(db, items) && AllEffects(db) && items != []
    ensures IsStored(StageAll(db, items), items[|items| - 1])
  {
    var before, last := StageAll(db, items[..|items| - 1]), items[|items| - 1];
    LastIsUnseen(db, items);
    StageFillsEvent(before, last.event, last.verdict);
  }

  /** Staging another event leaves what is stored. */
  lemma StoredStays(db: Db, items: seq<Prediction>, p: Prediction)
    requires items != [] && IsStored(StageAll(db, items[..|items| - 1]), p) && p.event != items[|items| - 1].event
    ensures IsStored(StageAll(db, items), p)
  {
    var last := items[|items| - 1];
    StageAdds(StageAll(db, items[..|items| - 1]), last.event, last.verdict, p.event);
  }

  lemma {:induction false} StageAllStores(db: Db, items: seq<Prediction>, i: nat)
    requires Stageable(db, items) && AllEffects(db) && i < |items|
    ensures IsStored(StageAll(db, items), items[i])
  {
    if i == |items| - 1 {
      LastIsStored(db, items);
    } else {
      var before := items[..|items| - 1];
      assert before[i] == items[i];
      ShorterIsStageable(db, items);
      StageAllStores(db, before, i);
      StoredStays(db, items, items[i]);
    }
  }

  /** Main theorem: in every run, a direct batch of distinct events that have no stored observation stores
      the results of each verdict, and announces nothing; any other batch changes nothing. */
  lemma DirectBatchIsStored(cfg: Config, run: seq<Event>, items: seq<Prediction>)
    ensures var s := Exec(cfg, run);
            var s' := Next(cfg, s, PredictDirectly(items));
            if (exists i :: 0 <= i < |items| && items[i].event in s.db.observations)
               || (exists i, j :: 0 <= i < j < |items| && items[i].event == items[j].event) then s' == s
            else forall i :: 0 <= i < |items| ==> IsStored(s'.db, items[i])
  {
    var s := Exec(cfg, run);
    if Stageable(s.db, items) {
      ExactlyOnceEffects(cfg, run);
      forall i | 0 <= i < |items|
        ensures IsStored(StageAll(s.db, items), items[i])
      {
        StageAllStores(s.db, items, i);
      }
    }
  }
}
