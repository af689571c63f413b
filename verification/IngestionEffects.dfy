/** Exactly-once effects.  Nothing here assumes that outcomes are on time: the existence check and
    the primary key of observations are enough, however workers crash, stall or overlap. */
module IngestionEffects {
  import opened IngestionModel
  import opened IngestionAudit
  import opened IngestionRuns

  // ---------------------------------------------------------------- the rows of one event

  function OwnIds(s: seq<EventId>, e: EventId): seq<EventId> {
    if s == [] then [] else OwnIds(s[..|s| - 1], e) + (if s[|s| - 1] == e then [e] else [])
  }

  function OwnPredictions(s: seq<Prediction>, e: EventId): seq<Prediction> {
    if s == [] then []
    else OwnPredictions(s[..|s| - 1], e) + (if s[|s| - 1].event == e then [s[|s| - 1]] else [])
  }

  function OwnRows(s: seq<OutboxRow>, e: EventId): seq<OutboxRow> {
    if s == [] then [] else OwnRows(s[..|s| - 1], e) + (if s[|s| - 1].event == e then [s[|s| - 1]] else [])
  }

  function Successes(db: Db, e: EventId): nat { Count(JobLog(db.log, e), ProcessingSucceeded) }

  /** Everything that is stored about one event, besides its job. */
  datatype Effects = Effects(
    observations: seq<EventId>,
    predictions: seq<Prediction>,
    alerts: seq<EventId>,
    outbox: seq<OutboxRow>,
    successes: nat)

  function EffectsOf(db: Db, e: EventId): Effects {
    Effects(OwnIds(db.observations, e), OwnPredictions(db.predictions, e), OwnIds(db.alerts, e),
            OwnRows(db.outbox, e), Successes(db, e))
  }

  predicate IsEmpty(x: Effects) {
    x.observations == [] && x.predictions == [] && x.alerts == [] && x.outbox == [] && x.successes == 0
  }

  /** Exactly the rows that a verdict calls for, each once; if a worker stored them from the queue,
      also the announcements and one recorded success. */
  predicate HasAll(x: Effects, e: EventId, v: Verdict, queued: bool) {
    && x.observations == [e]
    && x.predictions == [Prediction(e, v)]
    && x.alerts == (if v.Attack? then [e] else [])
    && x.outbox == (if queued then StagedRows(e, v) else [])
    && x.successes == (if queued then 1 else 0)
  }

  /** The effects of one event: all of them, each once, or none. */
  ghost predicate EffectsAt(db: Db, e: EventId) {
    var x := EffectsOf(db, e);
    IsEmpty(x) || (x.predictions != [] && HasAll(x, e, x.predictions[0].verdict, x.successes == 1))
  }

  ghost predicate AllEffects(db: Db) {
    forall e: EventId :: EffectsAt(db, e)
  }

  /** The tables that consumers can see. */
  ghost predicate SameEffects(a: Db, b: Db) {
    && a.observations == b.observations
    && a.predictions == b.predictions
    && a.alerts == b.alerts
    && a.outbox == b.outbox
  }

  /** The step stores no result, publishes nothing and records no success. */
  ghost predicate IsQuiet(db: Db, db': Db) {
    && SameEffects(db, db') && db.log <= db'.log
    && forall i :: |db.log| <= i < |db'.log| ==> !db'.log[i].reason.ProcessingSucceeded?
  }

  lemma OwnIdsSnoc(s: seq<EventId>, y: EventId, e: EventId)
    ensures OwnIds(s + [y], e) == OwnIds(s, e) + (if y == e then [e] else [])
  {
    assert (s + [y])[..|s|] == s;
  }

  lemma OwnPredictionsSnoc(s: seq<Prediction>, p: Prediction, e: EventId)
    ensures OwnPredictions(s + [p], e) == OwnPredictions(s, e) + (if p.event == e then [p] else [])
  {
    assert (s + [p])[..|s|] == s;
  }

  lemma OwnRowsSnoc(s: seq<OutboxRow>, r: OutboxRow, e: EventId)
    ensures OwnRows(s + [r], e) == OwnRows(s, e) + (if r.event == e then [r] else [])
  {
    assert (s + [r])[..|s|] == s;
  }

  lemma {:induction false} OwnIdsIff(s: seq<EventId>, e: EventId)
    ensures e in s <==> OwnIds(s, e) != []
  {
    if s != [] {
      OwnIdsIff(s[..|s| - 1], e);
      assert s == s[..|s| - 1] + [s[|s| - 1]];
    }
  }

  /** The announcement of an event is published when it is among its own outbox rows. */
  lemma {:induction false} OwnRowsIff(s: seq<OutboxRow>, r: OutboxRow)
    ensures r in s <==> r in OwnRows(s, r.event)
  {
    if s != [] {
      OwnRowsIff(s[..|s| - 1], r);
      assert s == s[..|s| - 1] + [s[|s| - 1]];
    }
  }

  // ---------------------------------------------------------------- the success count

  /** One more entry counts as a success of its own event only. */
  lemma SuccessesSnoc(log: seq<Transition>, t: Transition, e: EventId)
    ensures Count(JobLog(log + [t], e), ProcessingSucceeded) ==
            Count(JobLog(log, e), ProcessingSucceeded)
            + (if t.event == e && t.reason.ProcessingSucceeded? then 1 else 0)
  {
    JobLogSnoc(log, t, e);
    CountSnoc(JobLog(log, e), t, ProcessingSucceeded);
    if t.event != e {
      assert JobLog(log + [t], e) == JobLog(log, e);
    }
  }

  /** Entries other than successes add nothing to the count of successes. */
  lemma {:induction false} QuietLogKeepsSuccesses(log: seq<Transition>, log': seq<Transition>, e: EventId)
    requires log <= log'
    requires forall i :: |log| <= i < |log'| ==> !log'[i].reason.ProcessingSucceeded?
    ensures Count(JobLog(log', e), ProcessingSucceeded) == Count(JobLog(log, e), ProcessingSucceeded)
  {
    if |log'| > |log| {
      var shorter, t := log'[..|log'| - 1], log'[|log'| - 1];
      QuietLogKeepsSuccesses(log, shorter, e);
      assert log' == shorter + [t];
      SuccessesSnoc(shorter, t, e);
    } else {
      assert log' == log;
    }
  }

  lemma QuietLeavesEffects(db: Db, db': Db, e: EventId)
    requires IsQuiet(db, db')
    ensures EffectsOf(db', e) == EffectsOf(db, e)
  {
    QuietLogKeepsSuccesses(db.log, db'.log, e);
  }

  lemma QuietStepKeepsEffects(db: Db, db': Db)
    requires AllEffects(db) && IsQuiet(db, db')
    ensures AllEffects(db')
  {
    forall e: EventId
      ensures EffectsAt(db', e)
    {
      assert EffectsAt(db, e);
      QuietLeavesEffects(db, db', e);
    }
  }

  // ---------------------------------------------------------------- storing results

  lemma UnseenHasNothing(db: Db, e: EventId)
    requires EffectsAt(db, e) && e !in db.observations
    ensures IsEmpty(EffectsOf(db, e))
  {
    OwnIdsIff(db.observations, e);
  }

  lemma StoredIsObserved(db: Db, e: EventId)
    requires AllEffects(db) && !IsEmpty(EffectsOf(db, e))
    ensures e in db.observations
  {
    assert EffectsAt(db, e);
    OwnIdsIff(db.observations, e);
  }

  /** What staging adds to an event. */
  lemma StageAdds(db: Db, e: EventId, v: Verdict, x: EventId)
    ensures var before, after := EffectsOf(db, x), EffectsOf(Stage(db, e, v), x);
            if x != e then after == before
            else
              after == before.(observations := before.observations + [e],
                               predictions := before.predictions + [Prediction(e, v)],
                               alerts := before.alerts + (if v.Attack? then [e] else []))
  {
    OwnIdsSnoc(db.observations, e, x);
    OwnPredictionsSnoc(db.predictions, Prediction(e, v), x);
    if v.Attack? {
      OwnIdsSnoc(db.alerts, e, x);
    } else {
      assert db.alerts + [] == db.alerts;
    }
  }

  lemma StageFillsEvent(db: Db, e: EventId, v: Verdict)
    requires IsEmpty(EffectsOf(db, e))
    ensures HasAll(EffectsOf(Stage(db, e, v), e), e, v, false)
  {
    StageAdds(db, e, v, e);
  }

  lemma StageKeepsEffects(db: Db, e: EventId, v: Verdict)
    requires AllEffects(db) && e !in db.observations
    ensures AllEffects(Stage(db, e, v))
  {
    forall x: EventId
      ensures EffectsAt(Stage(db, e, v), x)
    {
      assert EffectsAt(db, x);
      if x == e {
        UnseenHasNothing(db, e);
        StageFillsEvent(db, e, v);
      } else {
        StageAdds(db, e, v, x);
      }
    }
  }

  /** The announcements of a success are rows of its own event. */
  lemma OwnStagedRows(outbox: seq<OutboxRow>, e: EventId, v: Verdict, x: EventId)
    ensures OwnRows(outbox + StagedRows(e, v), x) == OwnRows(outbox, x) + (if x == e then StagedRows(e, v) else [])
  {
    var first, second := OutboxRow(e, PredictionCreated), OutboxRow(e, AlertCreated);
    OwnRowsSnoc(outbox, first, x);
    if v.Attack? {
      OwnRowsSnoc(outbox + [first], second, x);
      assert outbox + StagedRows(e, v) == outbox + [first] + [second];
    } else {
      assert outbox + StagedRows(e, v) == outbox + [first];
    }
  }

  lemma SucceedLeavesOthers(db: Db, e: EventId, w: WorkerId, v: Verdict, now: Time, x: EventId)
    requires e in db.jobs && x != e
    ensures EffectsOf(Succeed(db, e, w, v, now), x) == EffectsOf(db, x)
  {
    StageAdds(db, e, v, x);
    OwnStagedRows(db.outbox, e, v, x);
    SuccessesSnoc(db.log, Succeed(db, e, w, v, now).log[|db.log|], x);
  }

  /** A success gives its own event all effects of its verdict. */
  lemma SucceedFillsEvent(db: Db, e: EventId, w: WorkerId, v: Verdict, now: Time)
    requires e in db.jobs && IsEmpty(EffectsOf(db, e))
    ensures HasAll(EffectsOf(Succeed(db, e, w, v, now), e), e, v, true)
  {
    StageFillsEvent(db, e, v);
    OwnStagedRows(db.outbox, e, v, e);
    SuccessesSnoc(db.log, Succeed(db, e, w, v, now).log[|db.log|], e);
  }

  /** The event had no effects and has all of them; every other event's effects are as they were. */
  ghost predicate FillsEvent(db: Db, db': Db, e: EventId, v: Verdict) {
    && IsEmpty(EffectsOf(db, e))
    && HasAll(EffectsOf(db', e), e, v, true)
    && forall x: EventId :: x != e ==> EffectsOf(db', x) == EffectsOf(db, x)
  }

  lemma SucceedIsAtomic(db: Db, e: EventId, w: WorkerId, v: Verdict, now: Time)
    requires AllEffects(db) && e in db.jobs && e !in db.observations
    ensures FillsEvent(db, Succeed(db, e, w, v, now), e, v)
  {
    assert IsEmpty(EffectsOf(db, e)) by {
      assert EffectsAt(db, e);
      UnseenHasNothing(db, e);
    }
    SucceedFillsEvent(db, e, w, v, now);
    forall x: EventId | x != e
      ensures EffectsOf(Succeed(db, e, w, v, now), x) == EffectsOf(db, x)
    {
      SucceedLeavesOthers(db, e, w, v, now, x);
    }
  }

  lemma FillsKeepsEffects(db: Db, db': Db, e: EventId, v: Verdict)
    requires AllEffects(db) && FillsEvent(db, db', e, v)
    ensures AllEffects(db')
  {
    forall x: EventId
      ensures EffectsAt(db', x)
    {
      assert EffectsAt(db, x);
    }
  }

  lemma SucceedKeepsEffects(db: Db, e: EventId, w: WorkerId, v: Verdict, now: Time)
    requires AllEffects(db) && e in db.jobs && e !in db.observations
    ensures AllEffects(Succeed(db, e, w, v, now))
  {
    SucceedIsAtomic(db, e, w, v, now);
    FillsKeepsEffects(db, Succeed(db, e, w, v, now), e, v);
  }

  lemma {:induction false} StageAllKeepsEffects(db: Db, items: seq<Prediction>)
    requires AllEffects(db) && Stageable(db, items)
    ensures AllEffects(StageAll(db, items))
    ensures forall e :: e in StageAll(db, items).observations <==>
                        e in db.observations || exists i :: 0 <= i < |items| && items[i].event == e
  {
    if items != [] {
      var n := |items| - 1;
      StageAllKeepsEffects(db, items[..n]);
      StageKeepsEffects(StageAll(db, items[..n]), items[n].event, items[n].verdict);
      assert forall i :: 0 <= i < n ==> items[..n][i] == items[i];
    }
  }

  lemma {:induction false} StageAllLeavesOthers(db: Db, items: seq<Prediction>, e: EventId)
    requires forall i :: 0 <= i < |items| ==> items[i].event != e
    ensures EffectsOf(StageAll(db, items), e) == EffectsOf(db, e)
  {
    if items != [] {
      var n := |items| - 1;
      StageAllLeavesOthers(db, items[..n], e);
      StageAdds(StageAll(db, items[..n]), items[n].event, items[n].verdict, e);
    }
  }

  // ---------------------------------------------------------------- what each batch appends

  lemma {:induction false} EnqueueAllQuiet(cfg: Config, db: Db, batch: seq<Item>, ids: seq<EventId>, batchId: nat,
                                           now: Time)
    requires forall e :: e in ids ==> Mentions(batch, e)
    ensures IsQuiet(db, EnqueueAll(cfg, db, batch, ids, batchId, now))
  {
    if ids != [] {
      EnqueueAllQuiet(cfg, db, batch, ids[..|ids| - 1], batchId, now);
    }
  }

  lemma {:induction false} RecoverAllQuiet(db: Db, rows: seq<EventId>, now: Time)
    requires forall e :: e in rows ==> e in db.jobs
    ensures IsQuiet(db, RecoverAll(db, rows, now))
  {
    if rows != [] {
      RecoverAllQuiet(db, rows[..|rows| - 1], now);
    }
  }

  lemma {:induction false} RedriveAllQuiet(db: Db, ids: seq<EventId>, now: Time)
    requires forall e :: e in ids ==> e in db.jobs
    ensures IsQuiet(db, RedriveAll(db, ids, now))
  {
    if ids != [] {
      RedriveAllQuiet(db, ids[..|ids| - 1], now);
    }
  }

  /** An event whose transaction may store results. */
  ghost predicate StoresResults(s: System, ev: Event) {
    || (ev.PredictDirectly? && Stageable(s.db, ev.items))
    || (ev.CommitSuccess? && PhaseOf(s, ev.worker).Staged? && !ev.answer.Rejected?
        && PhaseOf(s, ev.worker).event in s.db.jobs
        && PhaseOf(s, ev.worker).event !in s.db.observations)
  }

  lemma EnqueueIsQuiet(cfg: Config, db: Db, batch: seq<Item>, batchId: nat, now: Time)
    ensures IsQuiet(db, Enqueue(cfg, db, batch, batchId, now))
  {
    if EnqueueVerdict(cfg, db, batch).None? {
      EnqueueAllQuiet(cfg, db, batch, NewIds(db.jobs, batch), batchId, now);
    }
  }

  lemma RecoverIsQuiet(db: Db, rows: seq<EventId>, now: Time)
    requires IsLapsedListing(db.jobs, now, rows)
    ensures IsQuiet(db, RecoverAll(db, rows, now))
  {
    assert forall e :: e in rows ==> LeaseLapsed(db.jobs, e, now);
    RecoverAllQuiet(db, rows, now);
  }

  lemma RedriveIsQuiet(cfg: Config, db: Db, request: RedriveRequest, now: Time)
    ensures IsQuiet(db, Redrive(cfg, db, request, now))
  {
    if RedriveVerdict(cfg, db, request, now).None? && !request.dryRun {
      assert forall e :: e in request.ids ==> EvaluateRedrive(cfg, db, e, request.compat, now).None?;
      RedriveAllQuiet(db, request.ids, now);
    }
  }

  /** Every other step is quiet, a failed attempt included. */
  lemma QuietUnlessStoring(cfg: Config, s: System, ev: Event)
    requires !StoresResults(s, ev)
    ensures IsQuiet(s.db, Next(cfg, s, ev).db)
  {
    match ev
    case EnqueueBatch(batch, batchId, now) => EnqueueIsQuiet(cfg, s.db, batch, batchId, now);
    case RecoverLeases(rows, now) =>
      if IsLapsedListing(s.db.jobs, now, rows) {
        RecoverIsQuiet(s.db, rows, now);
      }
    case RedriveEvents(request, now) => RedriveIsQuiet(cfg, s.db, request, now);
    case _ =>
  }

  // ---------------------------------------------------------------- every run

  /** A success commit that stores results is the store's success operation. */
  lemma StoringSuccess(cfg: Config, s: System, w: WorkerId, answer: Answer, now: Time)
    requires StoresResults(s, CommitSuccess(w, answer, now))
    ensures var p := PhaseOf(s, w);
            Next(cfg, s, CommitSuccess(w, answer, now)).db == Succeed(s.db, p.event, w, p.verdict, now)
  {
  }

  /** A success commit takes its event from no effects at all to all of them, and no other event's
      effects change. */
  lemma SuccessIsAtomic(cfg: Config, s: System, w: WorkerId, answer: Answer, now: Time)
    requires AllEffects(s.db) && StoresResults(s, CommitSuccess(w, answer, now))
    ensures var p := PhaseOf(s, w);
            FillsEvent(s.db, Next(cfg, s, CommitSuccess(w, answer, now)).db, p.event, p.verdict)
  {
    var p := PhaseOf(s, w);
    StoringSuccess(cfg, s, w, answer, now);
    SucceedIsAtomic(s.db, p.event, w, p.verdict, now);
  }

  lemma NextKeepsEffects(cfg: Config, s: System, ev: Event)
    requires AllEffects(s.db)
    ensures AllEffects(Next(cfg, s, ev).db)
  {
    if !StoresResults(s, ev) {
      QuietUnlessStoring(cfg, s, ev);
      QuietStepKeepsEffects(s.db, Next(cfg, s, ev).db);
    } else if ev.PredictDirectly? {
      StageAllKeepsEffects(s.db, ev.items);
    } else {
      var p := PhaseOf(s, ev.worker);
      SucceedKeepsEffects(s.db, p.event, ev.worker, p.verdict, ev.now);
    }
  }

  /** Main theorem: in every run whatsoever, every event has exactly-once effects: all of them, each
      once, or none. */
  lemma {:induction false} ExactlyOnceEffects(cfg: Config, run: seq<Event>)
    ensures AllEffects(Exec(cfg, run).db)
  {
    if |run| == 0 {
      assert forall e: EventId :: EffectsAt(EMPTY, e);
    } else {
      ExactlyOnceEffects(cfg, run[..|run| - 1]);
      NextKeepsEffects(cfg, Exec(cfg, run[..|run| - 1]), run[|run| - 1]);
    }
  }

  /** No step changes the effects of an event that already has some. */
  lemma StepLeavesStored(cfg: Config, s: System, ev: Event, e: EventId)
    requires AllEffects(s.db) && !IsEmpty(EffectsOf(s.db, e))
    ensures EffectsOf(Next(cfg, s, ev).db, e) == EffectsOf(s.db, e)
  {
    if !StoresResults(s, ev) {
      QuietUnlessStoring(cfg, s, ev);
      QuietLeavesEffects(s.db, Next(cfg, s, ev).db, e);
    } else if ev.PredictDirectly? {
      StoredIsObserved(s.db, e);
      StageAllLeavesOthers(s.db, ev.items, e);
    } else {
      SuccessIsAtomic(cfg, s, ev.worker, ev.answer, ev.now);
    }
  }

  lemma OneMoreStep(cfg: Config, run: seq<Event>, ev: Event, e: EventId)
    requires !IsEmpty(EffectsOf(Exec(cfg, run).db, e))
    ensures EffectsOf(Exec(cfg, run + [ev]).db, e) == EffectsOf(Exec(cfg, run).db, e)
  {
    ExactlyOnceEffects(cfg, run);
    ExecSnoc(cfg, run, ev);
    StepLeavesStored(cfg, Exec(cfg, run), ev, e);
  }

  /** Main theorem: once an event has its effects they never change: failed attempts, retries, stale
      workers, redrives and lost answers add nothing and remove nothing. */
  lemma {:induction false} StoredStaysStored(cfg: Config, run: seq<Event>, more: seq<Event>, e: EventId)
    requires !IsEmpty(EffectsOf(Exec(cfg, run).db, e))
    ensures EffectsOf(Exec(cfg, run + more).db, e) == EffectsOf(Exec(cfg, run).db, e)
  {
    if more == [] {
      assert run + more == run;
    } else {
      var last := |more| - 1;
      var before := run + more[..last];
      StoredStaysStored(cfg, run, more[..last], e);
      assert run + more == before + [more[last]];
      OneMoreStep(cfg, before, more[last], e);
    }
  }
}
