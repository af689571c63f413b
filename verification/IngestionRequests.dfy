/** What callers of enqueue and redrive can rely on. */
module IngestionRequests {
  import opened Wrappers
  import opened IngestionModel
  import opened IngestionAudit
  import opened IngestionRuns
  import opened IngestionLedger
  import opened IngestionPolicy

  // ---------------------------------------------------------------- enqueue

  lemma {:induction false} EnqueueAllTables(cfg: Config, db: Db, batch: seq<Item>, ids: seq<EventId>, batchId: nat,
                                            now: Time)
    requires forall e :: e in ids ==> Mentions(batch, e)
    ensures var db' := EnqueueAll(cfg, db, batch, ids, batchId, now);
            db' == db.(jobs := db'.jobs, log := db'.log)
  {
    if ids != [] {
      EnqueueAllTables(cfg, db, batch, ids[..|ids| - 1], batchId, now);
    }
  }

  lemma {:induction false} EnqueueAllJobs(cfg: Config, db: Db, batch: seq<Item>, ids: seq<EventId>, batchId: nat,
                                          now: Time)
    requires Distinct(ids)
    requires forall e :: e in ids ==> Mentions(batch, e) && e !in db.jobs
    ensures var jobs := EnqueueAll(cfg, db, batch, ids, batchId, now).jobs;
            && (forall e :: e in jobs <==> e in db.jobs || e in ids)
            && (forall e :: e in db.jobs ==> jobs[e] == db.jobs[e])
            && (forall e :: e in ids ==> jobs[e] == NewJob(cfg, LastPayload(batch, e), batchId, now))
  {
    if ids != [] {
      var n := |ids| - 1;
      EnqueueAllJobs(cfg, db, batch, ids[..n], batchId, now);
      assert ids == ids[..n] + [ids[n]];
    }
  }

  lemma {:induction false} EnqueueAllEntries(cfg: Config, db: Db, batch: seq<Item>, ids: seq<EventId>, batchId: nat,
                                             now: Time)
    requires forall e :: e in ids ==> Mentions(batch, e)
    ensures var db' := EnqueueAll(cfg, db, batch, ids, batchId, now);
            && |db'.log| == |db.log| + |ids| && db.log <= db'.log
            && (forall i :: 0 <= i < |ids| ==> db'.log[|db.log| + i] ==
                                               Transition(ids[i], None, Queued, Enqueued, None, None, None, 0, now))
  {
    if ids != [] {
      EnqueueAllEntries(cfg, db, batch, ids[..|ids| - 1], batchId, now);
    }
  }

  lemma EnqueueAllRows(cfg: Config, db: Db, batch: seq<Item>, ids: seq<EventId>, batchId: nat, now: Time)
    requires Distinct(ids)
    requires forall e :: e in ids ==> Mentions(batch, e) && e !in db.jobs
    ensures var db' := EnqueueAll(cfg, db, batch, ids, batchId, now);
            && db' == db.(jobs := db'.jobs, log := db'.log)
            && (forall e :: e in db'.jobs <==> e in db.jobs || e in ids)
            && (forall e :: e in db.jobs ==> db'.jobs[e] == db.jobs[e])
            && (forall e :: e in ids ==> db'.jobs[e] == NewJob(cfg, LastPayload(batch, e), batchId, now))
            && |db'.log| == |db.log| + |ids| && db.log <= db'.log
            && (forall i :: 0 <= i < |ids| ==> db'.log[|db.log| + i] ==
                                               Transition(ids[i], None, Queued, Enqueued, None, None, None, 0, now))
  {
    EnqueueAllTables(cfg, db, batch, ids, batchId, now);
    EnqueueAllJobs(cfg, db, batch, ids, batchId, now);
    EnqueueAllEntries(cfg, db, batch, ids, batchId, now);
  }

  /** Without a conflict, an item agrees with the stored digest, or with the payload that is kept. */
  lemma AgreedDigest(hash: Payload -> Digest, jobs: map<EventId, Job>, batch: seq<Item>, i: nat)
    requires i < |batch| && !Conflicting(hash, jobs, batch) && Mentions(batch, batch[i].event)
    ensures var e := batch[i].event;
            hash(batch[i].payload) == if e in jobs then jobs[e].payloadHash else hash(LastPayload(batch, e))
  {
    var e := batch[i].event;
    assert !ConflictAt(hash, jobs, batch, i);
    if e !in jobs {
      var j :| 0 <= j < |batch| && batch[j] == Item(e, LastPayload(batch, e));
      assert !ConflictAt(hash, jobs, batch, j);
    }
  }

  /** After an accepted batch, each of its items agrees with the stored digest. */
  lemma AcceptedHashes(cfg: Config, db: Db, batch: seq<Item>, batchId: nat, now: Time)
    requires EnqueueVerdict(cfg, db, batch).None?
    ensures var db' := Enqueue(cfg, db, batch, batchId, now);
            forall i :: 0 <= i < |batch| ==>
                          batch[i].event in db'.jobs
                          && db'.jobs[batch[i].event].payloadHash == cfg.hash(batch[i].payload)
  {
    EnqueueAllJobs(cfg, db, batch, NewIds(db.jobs, batch), batchId, now);
    forall i | 0 <= i < |batch|
      ensures var db' := Enqueue(cfg, db, batch, batchId, now);
              batch[i].event in db'.jobs && db'.jobs[batch[i].event].payloadHash == cfg.hash(batch[i].payload)
    {
      assert Mentions(batch, batch[i].event);
      AgreedDigest(cfg.hash, db.jobs, batch, i);
    }
  }

  /** The rows after an accepted batch: old ones unchanged, and one queued job for each identifier
      that the table did not hold. */
  ghost predicate InsertsRows(cfg: Config, db: Db, db': Db, batch: seq<Item>, batchId: nat, now: Time) {
    && (forall e :: e in db'.jobs <==> e in db.jobs || Mentions(batch, e))
    && (forall e :: e in db.jobs ==> db'.jobs[e] == db.jobs[e])
    && (forall e :: e in db'.jobs && e !in db.jobs ==>
                      && Mentions(batch, e)
                      && var payload := LastPayload(batch, e);
                         db'.jobs[e] == Job(batchId, payload, cfg.hash(payload), Queued, 0, now, now, None, None, None,
                                            None, 0, None))
  }

  /** The log after it: one entry for each identifier, in order; stored results are not touched. */
  ghost predicate AppendsEntries(db: Db, db': Db, ids: seq<EventId>, r: Reason) {
    && db' == db.(jobs := db'.jobs, log := db'.log)
    && |db'.log| == |db.log| + |ids| && db.log <= db'.log
    && (forall i :: 0 <= i < |ids| ==> db'.log[|db.log| + i].event == ids[i] && db'.log[|db.log| + i].reason == r)
  }

  /** Main theorem: enqueue inserts the set of the batch's identifiers or does nothing.  An accepted
      batch adds one queued job, with one audit entry, for each distinct unseen identifier, keeps
      every other row, agrees with every digest of the batch and leaves the table within the limit. */
  lemma EnqueueInsertsSet(cfg: Config, db: Db, batch: seq<Item>, batchId: nat, now: Time)
    ensures var db' := Enqueue(cfg, db, batch, batchId, now);
            if EnqueueVerdict(cfg, db, batch).Some? then db' == db
            else
              && InsertsRows(cfg, db, db', batch, batchId, now)
              && AppendsEntries(db, db', NewIds(db.jobs, batch), Enqueued)
              && (forall i :: 0 <= i < |batch| ==>
                                batch[i].event in db'.jobs
                                && db'.jobs[batch[i].event].payloadHash == cfg.hash(batch[i].payload))
              && ActiveCount(db'.jobs) == ActiveCount(db.jobs) + |NewIds(db.jobs, batch)| <= cfg.queueLimit
  {
    if EnqueueVerdict(cfg, db, batch).None? {
      var ids := NewIds(db.jobs, batch);
      assert AppendsEntries(db, Enqueue(cfg, db, batch, batchId, now), ids, Enqueued)
        && InsertsRows(cfg, db, Enqueue(cfg, db, batch, batchId, now), batch, batchId, now) by {
        EnqueueAllRows(cfg, db, batch, ids, batchId, now);
      }
      EnqueueAllCounts(cfg, db, batch, ids, batchId, now);
      AcceptedHashes(cfg, db, batch, batchId, now);
    }
  }

  function AcceptedIds(replies: seq<Reply>): seq<EventId> {
    if replies == [] then []
    else
      var r := replies[|replies| - 1];
      AcceptedIds(replies[..|replies| - 1]) + (if r.accepted then [r.event] else [])
  }

  lemma LastReply(jobs: map<EventId, Job>, batch: seq<Item>)
    requires batch != []
    ensures var n := |batch| - 1;
            && Replies(jobs, batch) == Replies(jobs, batch[..n]) + [ReplyAt(jobs, batch, n)]
            && (IsFirstOccurrence(jobs, batch, n) <==> batch[n].event !in jobs && !Mentions(batch[..n], batch[n].event))
  {
    var n := |batch| - 1;
    forall i | 0 <= i < n
      ensures ReplyAt(jobs, batch, i) == ReplyAt(jobs, batch[..n], i)
    {
      assert forall j :: 0 <= j <= i ==> batch[..n][j] == batch[j];
    }
    assert forall j :: 0 <= j < n ==> batch[..n][j] == batch[j];
  }

  /** The replies marked accepted name exactly the jobs that were created, in order. */
  lemma {:induction false} AcceptedRepliesAreNewJobs(jobs: map<EventId, Job>, batch: seq<Item>)
    ensures AcceptedIds(Replies(jobs, batch)) == NewIds(jobs, batch)
  {
    if batch != [] {
      var n := |batch| - 1;
      AcceptedRepliesAreNewJobs(jobs, batch[..n]);
      LastReply(jobs, batch);
      var replies := Replies(jobs, batch[..n]);
      assert (replies + [ReplyAt(jobs, batch, n)])[..n] == replies;
    }
  }

  /** Main theorem: in every run, a reply names its item's event; it says accepted exactly for the first
      item of an event that was never enqueued before, and otherwise the state that the event's log
      ended in before the batch, or queued for a repetition within the batch. */
  lemma RepliesTellLog(cfg: Config, run: seq<Event>, batch: seq<Item>, i: nat)
    requires i < |batch|
    ensures var db := Exec(cfg, run).db;
            var reply, h := Replies(db.jobs, batch)[i], JobLog(db.log, batch[i].event);
            && |Replies(db.jobs, batch)| == |batch|
            && reply.event == batch[i].event
            && reply.state == (if h == [] then Queued else h[|h| - 1].to)
            && (reply.accepted <==> h == [] && forall j :: 0 <= j < i ==> batch[j].event != batch[i].event)
  {
    var db, e := Exec(cfg, run).db, batch[i].event;
    assert BookedAt(cfg, db, e) by { RunKeepsBooks(cfg, run); }
  }

  // ---------------------------------------------------------------- identity of stored jobs

  /** The columns that enqueue writes once. */
  ghost predicate SameIdentity(a: Job, b: Job) {
    && a.payload == b.payload
    && a.payloadHash == b.payloadHash
    && a.batch == b.batch
    && a.createdAt == b.createdAt
  }

  ghost predicate KeepsJobs(db: Db, db': Db) {
    forall e :: e in db.jobs ==> e in db'.jobs && SameIdentity(db.jobs[e], db'.jobs[e])
  }

  ghost predicate HashesFaithful(cfg: Config, db: Db) {
    forall e :: e in db.jobs ==> db.jobs[e].payloadHash == cfg.hash(db.jobs[e].payload)
  }

  lemma {:induction false} RecoverAllKeepsJobs(db: Db, rows: seq<EventId>, now: Time)
    requires forall e :: e in rows ==> e in db.jobs
    ensures KeepsJobs(db, RecoverAll(db, rows, now))
  {
    if rows != [] {
      RecoverAllKeepsJobs(db, rows[..|rows| - 1], now);
    }
  }

  lemma {:induction false} RedriveAllKeepsJobs(db: Db, ids: seq<EventId>, now: Time)
    requires forall e :: e in ids ==> e in db.jobs
    ensures KeepsJobs(db, RedriveAll(db, ids, now))
  {
    if ids != [] {
      RedriveAllKeepsJobs(db, ids[..|ids| - 1], now);
    }
  }

  /** Jobs are kept, and new ones carry the digest of their payload. */
  ghost predicate Keeps(cfg: Config, db: Db, db': Db) {
    KeepsJobs(db, db') && (HashesFaithful(cfg, db) ==> HashesFaithful(cfg, db'))
  }

  lemma EnqueueKeeps(cfg: Config, db: Db, batch: seq<Item>, batchId: nat, now: Time)
    ensures Keeps(cfg, db, Enqueue(cfg, db, batch, batchId, now))
  {
    if EnqueueVerdict(cfg, db, batch).None? {
      EnqueueAllJobs(cfg, db, batch, NewIds(db.jobs, batch), batchId, now);
    }
  }

  lemma RecoverKeeps(cfg: Config, db: Db, rows: seq<EventId>, now: Time)
    requires IsLapsedListing(db.jobs, now, rows)
    ensures Keeps(cfg, db, RecoverAll(db, rows, now))
  {
    assert forall e :: e in rows ==> LeaseLapsed(db.jobs, e, now);
    RecoverAllKeepsJobs(db, rows, now);
    SameKeysKeep(cfg, db, RecoverAll(db, rows, now));
  }

  lemma RedriveKeeps(cfg: Config, db: Db, request: RedriveRequest, now: Time)
    ensures Keeps(cfg, db, Redrive(cfg, db, request, now))
  {
    if RedriveCommits(cfg, db, request, now) {
      assert forall e :: e in request.ids ==> EvaluateRedrive(cfg, db, e, request.compat, now).None?;
      RedriveAllKeepsJobs(db, request.ids, now);
      SameKeysKeep(cfg, db, RedriveAll(db, request.ids, now));
    }
  }

  lemma SameKeysKeep(cfg: Config, db: Db, db': Db)
    requires KeepsJobs(db, db') && db'.jobs.Keys == db.jobs.Keys
    ensures Keeps(cfg, db, db')
  {
  }

  /** No step removes a job or rewrites its payload, its digest or its batch, and every new job
      carries the digest of its payload. */
  lemma NextKeepsJobs(cfg: Config, s: System, ev: Event)
    ensures KeepsJobs(s.db, Next(cfg, s, ev).db)
    ensures HashesFaithful(cfg, s.db) ==> HashesFaithful(cfg, Next(cfg, s, ev).db)
  {
    match ev
    case EnqueueBatch(batch, batchId, now) => EnqueueKeeps(cfg, s.db, batch, batchId, now);
    case RecoverLeases(rows, now) =>
      if IsLapsedListing(s.db.jobs, now, rows) {
        RecoverKeeps(cfg, s.db, rows, now);
      }
    case RedriveEvents(request, now) => RedriveKeeps(cfg, s.db, request, now);
    case PredictDirectly(items) => StageAllTables(s.db, items);
    case _ =>
  }

  lemma {:induction false} RunKeepsJobs(cfg: Config, run: seq<Event>, more: seq<Event>)
    ensures KeepsJobs(Exec(cfg, run).db, Exec(cfg, run + more).db)
  {
    if |more| == 0 {
      assert run + more == run;
    } else {
      var n := |more| - 1;
      RunKeepsJobs(cfg, run, more[..n]);
      assert run + more == (run + more[..n]) + [more[n]];
      ExecSnoc(cfg, run + more[..n], more[n]);
      NextKeepsJobs(cfg, Exec(cfg, run + more[..n]), more[n]);
    }
  }

  lemma {:induction false} HashesStayFaithful(cfg: Config, run: seq<Event>)
    ensures HashesFaithful(cfg, Exec(cfg, run).db)
  {
    if |run| != 0 {
      HashesStayFaithful(cfg, run[..|run| - 1]);
      NextKeepsJobs(cfg, Exec(cfg, run[..|run| - 1]), run[|run| - 1]);
    }
  }

  lemma NoHashConflict(cfg: Config, db: Db, e: EventId, compat: Option<Payload -> bool>, now: Time)
    requires HashesFaithful(cfg, db)
    ensures EvaluateRedrive(cfg, db, e, compat, now) != Some(HashConflict)
  {
  }

  /** In every run a stored digest is the digest of the stored payload, so a redrive is never
      refused for a hash conflict. */
  lemma HashConflictUnreachable(cfg: Config, run: seq<Event>, e: EventId, compat: Option<Payload -> bool>, now: Time)
    ensures HashesFaithful(cfg, Exec(cfg, run).db)
    ensures EvaluateRedrive(cfg, Exec(cfg, run).db, e, compat, now) != Some(HashConflict)
  {
    HashesStayFaithful(cfg, run);
    NoHashConflict(cfg, Exec(cfg, run).db, e, compat, now);
  }

  lemma {:induction false} NothingNew(jobs: map<EventId, Job>, batch: seq<Item>)
    requires forall i :: 0 <= i < |batch| ==> batch[i].event in jobs
    ensures NewIds(jobs, batch) == []
  {
    if batch != [] {
      NothingNew(jobs, batch[..|batch| - 1]);
    }
  }

  /** Main theorem: once a batch has been accepted, submitting it again, at any later point of any
      run, changes nothing.  It is answered with duplicates only, unless redrives have left more
      active jobs than the limit: then, and only then, it is refused as a full queue. */
  lemma ResubmissionIsIdempotent(cfg: Config, run: seq<Event>, batch: seq<Item>, batchId: nat, now: Time,
                                 more: seq<Event>, batchId2: nat, now2: Time)
    requires EnqueueVerdict(cfg, Exec(cfg, run).db, batch).None?
    ensures var db := Exec(cfg, run + [EnqueueBatch(batch, batchId, now)] + more).db;
            && Enqueue(cfg, db, batch, batchId2, now2) == db
            && EnqueueVerdict(cfg, db, batch) ==
               (if ActiveCount(db.jobs) <= cfg.queueLimit then None else Some(QueueFull))
            && AcceptedIds(Replies(db.jobs, batch)) == []
  {
    var ev := EnqueueBatch(batch, batchId, now);
    var first := Exec(cfg, run).db;
    EnqueueInsertsSet(cfg, first, batch, batchId, now);
    ExecSnoc(cfg, run, ev);
    RunKeepsJobs(cfg, run + [ev], more);
    var db := Exec(cfg, run + [ev] + more).db;
    forall i | 0 <= i < |batch|
      ensures batch[i].event in db.jobs && !ConflictAt(cfg.hash, db.jobs, batch, i)
    {
      assert Mentions(batch, batch[i].event);
      assert !ConflictAt(cfg.hash, first.jobs, batch, i);
    }
    NothingNew(db.jobs, batch);
    AcceptedRepliesAreNewJobs(db.jobs, batch);
  }

  // ---------------------------------------------------------------- redrive

  lemma {:induction false} RedriveAllRows(db: Db, ids: seq<EventId>, now: Time)
    requires Distinct(ids)
    requires forall e :: e in ids ==> e in db.jobs
    ensures var jobs := RedriveAll(db, ids, now).jobs;
            && (forall e :: e in db.jobs && e !in ids ==> jobs[e] == db.jobs[e])
            && (forall e :: e in ids ==> jobs[e] == Redriven(db.jobs[e], now))
  {
    if ids != [] {
      var n := |ids| - 1;
      RedriveAllRows(db, ids[..n], now);
      assert ids == ids[..n] + [ids[n]];
    }
  }

  lemma {:induction false} RedriveAllEntries(db: Db, ids: seq<EventId>, now: Time)
    requires forall e :: e in ids ==> e in db.jobs
    ensures AppendsEntries(db, RedriveAll(db, ids, now), ids, ManualRedrive)
  {
    if ids != [] {
      RedriveAllEntries(db, ids[..|ids| - 1], now);
    }
  }

  ghost predicate DeadWithoutResults(db: Db, e: EventId) {
    && e in db.jobs && db.jobs[e].state.DeadLetter?
    && e !in db.observations && !HasPrediction(db, e)
  }

  /** Main theorem: a redrive moves every listed job from dead letter to queued, with one audit
      entry each and nothing else touched, or changes nothing; and it never requeues a job whose
      observation or prediction is stored. */
  lemma RedriveAllOrNothing(cfg: Config, db: Db, request: RedriveRequest, now: Time)
    ensures var db' := Redrive(cfg, db, request, now);
            if RedriveVerdict(cfg, db, request, now).Some? || request.dryRun then db' == db
            else
              && db'.jobs.Keys == db.jobs.Keys
              && (forall e :: e in db.jobs && e !in request.ids ==> db'.jobs[e] == db.jobs[e])
              && (forall e :: e in request.ids ==>
                                DeadWithoutResults(db, e) && db'.jobs[e] == Redriven(db.jobs[e], now))
              && AppendsEntries(db, db', request.ids, ManualRedrive)
  {
    if RedriveVerdict(cfg, db, request, now).None? && !request.dryRun {
      forall e | e in request.ids
        ensures DeadWithoutResults(db, e)
      {
        assert EvaluateRedrive(cfg, db, e, request.compat, now).None?;
      }
      RedriveAllRows(db, request.ids, now);
      RedriveAllEntries(db, request.ids, now);
    }
  }

  /** A dry run changes nothing, and its report is all eligible exactly when the live call from the
      same state commits. */
  lemma DryRunPredicts(cfg: Config, db: Db, request: RedriveRequest, now: Time)
    ensures var dry, live := request.(dryRun := true), request.(dryRun := false);
            && Redrive(cfg, db, dry, now) == db
            && (RedriveVerdict(cfg, db, dry, now).Some? ==>
                  RedriveVerdict(cfg, db, live, now) == RedriveVerdict(cfg, db, dry, now))
            && (RedriveVerdict(cfg, db, dry, now).None? ==>
                  ((forall i :: 0 <= i < |request.ids| ==> RedriveReport(cfg, db, dry, now)[i].refusal.None?)
                   <==> RedriveVerdict(cfg, db, live, now).None?))
  {
    var dry, live := request.(dryRun := true), request.(dryRun := false);
    var report := RedriveReport(cfg, db, dry, now);
    if AnyRefused(cfg, db, live, now) {
      var e :| e in request.ids && EvaluateRedrive(cfg, db, e, request.compat, now).Some?;
      var i :| 0 <= i < |request.ids| && request.ids[i] == e;
      assert report[i].refusal.Some?;
    } else {
      forall i | 0 <= i < |request.ids|
        ensures report[i].refusal.None?
      {
        assert request.ids[i] in request.ids;
      }
    }
  }
}
