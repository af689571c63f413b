/** When an operator can redrive, over whole runs, told from the audit log, the stored results and the
    request alone. */
module IngestionRedrives {
  import opened Wrappers
  import opened Text
  import opened IngestionModel
  import opened IngestionAudit
  import opened IngestionRuns
  import opened IngestionLedger
  import opened IngestionEffects
  import opened IngestionRequests

  /** The job's last entry gave it up after retries ran out, or for an extractor that the operator's
      check accepts by now. */
  predicate Forgivable(t: Transition, payload: Payload, compat: Option<Payload -> bool>) {
    && t.to.DeadLetter?
    && (|| t.reason.RetriesExhausted?
        || (t.errorCode == Some(ExtractorIncompatible) && compat.Some? && compat.value(payload)))
  }

  /** The event has a dead job with a forgivable failure, and no stored observation. */
  predicate CanBeRedriven(db: Db, e: EventId, compat: Option<Payload -> bool>) {
    && e in db.jobs && e !in db.observations
    && var h := JobLog(db.log, e);
       h != [] && Forgivable(h[|h| - 1], db.jobs[e].payload, compat)
  }

  /** What holds of one event in every run and decides its refusals. */
  ghost predicate Consistent(cfg: Config, db: Db, e: EventId) {
    && BookedAt(cfg, db, e) && EffectsAt(db, e)
    && (e in db.jobs ==> db.jobs[e].payloadHash == cfg.hash(db.jobs[e].payload))
  }

  lemma RunIsConsistent(cfg: Config, run: seq<Event>, e: EventId)
    ensures Consistent(cfg, Exec(cfg, run).db, e)
  {
    RunKeepsBooks(cfg, run);
    ExactlyOnceEffects(cfg, run);
    HashesStayFaithful(cfg, run);
  }

  lemma {:induction false} OwnPredictionsIff(s: seq<Prediction>, e: EventId)
    ensures (exists i :: 0 <= i < |s| && s[i].event == e) <==> OwnPredictions(s, e) != []
  {
    if s != [] {
      var n := |s| - 1;
      OwnPredictionsIff(s[..n], e);
      if i :| 0 <= i < n && s[i].event == e {
        assert s[..n][i] == s[i];
      }
    }
  }

  /** A prediction is stored exactly with its observation. */
  lemma PredictedIffObserved(db: Db, e: EventId)
    requires EffectsAt(db, e)
    ensures HasPrediction(db, e) <==> e in db.observations
  {
    OwnPredictionsIff(db.predictions, e);
    OwnIdsIff(db.observations, e);
  }

  /** Why the job of an event cannot be redriven: the refusals that can occur at all, in the order of
      the checks. */
  function RefusalOf(db: Db, e: EventId, compat: Option<Payload -> bool>): Option<Refusal> {
    var h := JobLog(db.log, e);
    if h == [] || e !in db.jobs then Some(NotFound)
    else
      var last := h[|h| - 1];
      if last.to.Succeeded? then Some(AlreadySucceeded)
      else if last.to.Queued? || last.to.Processing? || last.to.Retrying? then Some(NotDeadLetter)
      else if e in db.observations then Some(PredictionExists)
      else if last.reason.RetriesExhausted? then None
      else if last.errorCode != Some(ExtractorIncompatible) || compat.None? then Some(NotEligible)
      else if compat.value(db.jobs[e].payload) then None
      else Some(StillIncompatible)
  }

  lemma DeadByLog(h: seq<Transition>)
    requires h != [] && Legal(h[|h| - 1]) && Evidence(h[|h| - 1]) && h[|h| - 1].to.DeadLetter?
    ensures var t := h[|h| - 1];
            && (t.reason.PermanentFailure? || t.reason.RetriesExhausted?)
            && ErrorOf(h) == (t.errorCode, t.retryable)
            && (t.retryable == Some(true) <==> t.reason.RetriesExhausted?)
  {
  }

  lemma RefusalFromRow(cfg: Config, db: Db, e: EventId, compat: Option<Payload -> bool>, now: Time)
    requires Consistent(cfg, db, e)
    ensures EvaluateRedrive(cfg, db, e, compat, now) == RefusalOf(db, e, compat)
  {
    if e in db.jobs {
      var h := JobLog(db.log, e);
      BookedRow(cfg, db, e);
      PredictedIffObserved(db, e);
      if h[|h| - 1].to.DeadLetter? {
        DeadByLog(h);
      }
    }
  }

  /** Main theorem: in every run the refusal of an event follows from its last log entry, its stored
      results and the operator's check.  A dead job never has a live lease, a broken digest or an
      observation without a prediction. */
  lemma RefusalFollowsLog(cfg: Config, run: seq<Event>, e: EventId, compat: Option<Payload -> bool>, now: Time)
    ensures EvaluateRedrive(cfg, Exec(cfg, run).db, e, compat, now) == RefusalOf(Exec(cfg, run).db, e, compat)
  {
    RunIsConsistent(cfg, run, e);
    RefusalFromRow(cfg, Exec(cfg, run).db, e, compat, now);
  }

  lemma RefusalNoneIff(cfg: Config, run: seq<Event>, e: EventId, compat: Option<Payload -> bool>)
    ensures var db := Exec(cfg, run).db;
            RefusalOf(db, e, compat).None? <==> CanBeRedriven(db, e, compat)
  {
    var db := Exec(cfg, run).db;
    RunIsConsistent(cfg, run, e);
    if e in db.jobs {
      var h := JobLog(db.log, e);
      BookedRow(cfg, db, e);
      if h[|h| - 1].to.DeadLetter? {
        DeadByLog(h);
      }
    }
  }

  lemma EligibleIff(cfg: Config, run: seq<Event>, e: EventId, compat: Option<Payload -> bool>, now: Time)
    ensures var db := Exec(cfg, run).db;
            EvaluateRedrive(cfg, db, e, compat, now).None? <==> CanBeRedriven(db, e, compat)
  {
    RefusalFollowsLog(cfg, run, e, compat, now);
    RefusalNoneIff(cfg, run, e, compat);
  }

  /** Operator and reason are given, and some events are listed, each once. */
  predicate WellFormed(request: RedriveRequest) {
    && (exists i :: 0 <= i < |request.operator| && !IsSpace(request.operator[i]))
    && (exists i :: 0 <= i < |request.reason| && !IsSpace(request.reason[i]))
    && request.ids != []
    && (forall i, j :: 0 <= i < j < |request.ids| ==> request.ids[i] != request.ids[j])
  }

  /** A live redrive without a verdict against it changes at least its first listed job. */
  lemma RedriveHasEffect(cfg: Config, db: Db, request: RedriveRequest, now: Time)
    requires !request.dryRun
    ensures Redrive(cfg, db, request, now) != db <==> RedriveVerdict(cfg, db, request, now).None?
  {
    RedriveAllOrNothing(cfg, db, request, now);
    if RedriveVerdict(cfg, db, request, now).None? {
      var e := request.ids[0];
      assert DeadWithoutResults(db, e) && Redrive(cfg, db, request, now).jobs[e] == Redriven(db.jobs[e], now);
    }
  }

  /** Main theorem: in every run, a live redrive changes the tables exactly when its request is well
      formed and every listed event can be redriven. */
  lemma RedriveTakesEffectIff(cfg: Config, run: seq<Event>, request: RedriveRequest, now: Time)
    requires !request.dryRun
    ensures var db := Exec(cfg, run).db;
            Redrive(cfg, db, request, now) != db <==>
            WellFormed(request) && forall e :: e in request.ids ==> CanBeRedriven(db, e, request.compat)
  {
    var db := Exec(cfg, run).db;
    forall e | e in request.ids
      ensures EvaluateRedrive(cfg, db, e, request.compat, now).None? <==> CanBeRedriven(db, e, request.compat)
    {
      EligibleIff(cfg, run, e, request.compat, now);
    }
    RedriveHasEffect(cfg, db, request, now);
  }

  /** A refused redrive names the first check that failed: the operator's evidence, then the list, then
      the listed jobs. */
  lemma RedriveErrorIs(cfg: Config, run: seq<Event>, request: RedriveRequest, now: Time)
    ensures var db := Exec(cfg, run).db;
            RedriveVerdict(cfg, db, request, now) ==
            if forall i :: 0 <= i < |request.operator| ==> IsSpace(request.operator[i]) then Some(EvidenceMissing)
            else if forall i :: 0 <= i < |request.reason| ==> IsSpace(request.reason[i]) then Some(EvidenceMissing)
            else if |request.ids| == 0 then Some(NoEvents)
            else if exists i, j :: 0 <= i < j < |request.ids| && request.ids[i] == request.ids[j] then
              Some(RepeatedEvents)
            else if !request.dryRun && exists e :: e in request.ids && !CanBeRedriven(db, e, request.compat) then
              Some(Refused)
            else None
  {
    var db := Exec(cfg, run).db;
    forall e | e in request.ids
      ensures EvaluateRedrive(cfg, db, e, request.compat, now).None? <==> CanBeRedriven(db, e, request.compat)
    {
      EligibleIff(cfg, run, e, request.compat, now);
    }
  }
}
