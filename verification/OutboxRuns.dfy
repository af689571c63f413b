/** Dispatchers, crashes, restarts and time, interleaved over one outbox table. */
module OutboxRuns {
  import opened Wrappers
  import opened OutboxModel

  /** A dispatcher between the claim and the recorded outcome of one event. */
  datatype Phase =
    | Idle
    | Sending(claim: ClaimedEvent)
    | Sent(claim: ClaimedEvent)
    | Unsent(claim: ClaimedEvent, error: DeliveryError)

  /** A broadcast that returned normally. */
  datatype Delivery = Delivery(id: RowId, token: Token, payload: Payload)

  /** The last three components are history. */
  datatype System = System(
    rows: map<RowId, Row>,
    now: Time,
    phases: map<DispatcherId, Phase>,
    used: set<Token>,
    delivered: seq<Delivery>,
    log: seq<Entry>)

  const START := System(map[], 0.0, map[], {}, [], [])

  datatype Event =
    | Tick(elapsed: Time)
    | Insert(id: RowId, payload: Payload)
    | ClaimOne(d: DispatcherId, pick: RowId, newToken: Token)
    | BroadcastReturns(d: DispatcherId)
    | BroadcastRaises(d: DispatcherId, error: DeliveryError)
    | MarkPublished(d: DispatcherId)
    | RecordFailure(d: DispatcherId)
    | Crash(d: DispatcherId)

  function PhaseOf(s: System, d: DispatcherId): Phase {
    if d in s.phases then s.phases[d] else Idle
  }

  /** A disabled event changes nothing.  The clock never goes back and a claim token is a fresh
      UUID: both are part of what an event may do. */
  function Next(lease: nat, s: System, ev: Event): System {
    match ev
    case Tick(elapsed) => if elapsed < 0.0 then s else s.(now := s.now + elapsed)
    case Insert(id, payload) =>
      if id in s.rows then s else s.(rows := s.rows[id := NewRow(payload, s.now)])
    case ClaimOne(d, id, newToken) =>
      if PhaseOf(s, d).Idle? && id in s.rows && Available(s.rows[id], s.now) && newToken !in s.used then
        var row := s.rows[id];
        s.(rows := s.rows[id := Claimed(row, newToken, s.now, lease)],
           phases := s.phases[d := Sending(ClaimedEvent(id, newToken, row.payload, row.attempts))],
           used := s.used + {newToken},
           log := s.log + [Claim(id, newToken, s.now, s.now + lease as real)])
      else s
    case BroadcastReturns(d) =>
      var p := PhaseOf(s, d);
      if p.Sending? then
        s.(phases := s.phases[d := Sent(p.claim)],
           delivered := s.delivered + [Delivery(p.claim.id, p.claim.token, p.claim.payload)])
      else s
    case BroadcastRaises(d, error) =>
      var p := PhaseOf(s, d);
      if p.Sending? then s.(phases := s.phases[d := Unsent(p.claim, error)]) else s
    case MarkPublished(d) =>
      var p := PhaseOf(s, d);
      if p.Sent? && p.claim.id in s.rows then
        var row := s.rows[p.claim.id];
        s.(rows := s.rows[p.claim.id := Published(row, p.claim.token, s.now)],
           phases := s.phases[d := Idle],
           log := s.log + (if Owns(row, p.claim.token) then [Publish(p.claim.id, p.claim.token, s.now)] else []))
      else s
    case RecordFailure(d) =>
      var p := PhaseOf(s, d);
      if p.Unsent? && p.claim.id in s.rows then
        var row, delay := s.rows[p.claim.id], FailureDelay(p.error, p.claim.prior);
        s.(rows := s.rows[p.claim.id := Failed(row, p.claim.token, s.now, delay)],
           phases := s.phases[d := Idle],
           log := s.log + (if Owns(row, p.claim.token) then
                             [Failure(p.claim.id, p.claim.token, s.now, p.error, s.now + delay as real)] else []))
      else s
    case Crash(d) => s.(phases := s.phases[d := Idle])
  }

  function Exec(lease: nat, run: seq<Event>): System {
    if run == [] then START else Next(lease, Exec(lease, run[..|run| - 1]), run[|run| - 1])
  }

  // ---------------------------------------------------------------- invariant

  ghost predicate RowSound(s: System, id: RowId) {
    var h := RowLog(s.log, id);
    if id !in s.rows then h == []
    else
      && RowMatches(s.rows[id], h, s.now)
      && (forall i :: 0 <= i < |h| ==> h[i].token in s.used)
      && (forall i :: 0 <= i < |h| && h[i].Publish? ==>
                        Delivery(id, h[i].token, s.rows[id].payload) in s.delivered)
  }

  /** A dispatcher's claim is of a stored row, and as long as it still owns the row, the attempt
      count it read is the row's. */
  ghost predicate PhaseSound(s: System, p: Phase) {
    p.Idle?
    || (&& p.claim.id in s.rows
        && p.claim.token in s.used
        && p.claim.payload == s.rows[p.claim.id].payload
        && (s.rows[p.claim.id].token == Some(p.claim.token) ==> p.claim.prior == s.rows[p.claim.id].attempts)
        && (p.Sent? ==> Delivery(p.claim.id, p.claim.token, p.claim.payload) in s.delivered))
  }

  /** The claim is in the row's history and its outcome is not. */
  ghost predicate ClaimOpen(s: System, p: Phase) {
    p.Idle?
    || (var h := RowLog(s.log, p.claim.id);
        && (exists i :: 0 <= i < |h| && h[i].Claim? && h[i].token == p.claim.token)
        && (forall i :: 0 <= i < |h| && h[i].token == p.claim.token ==> h[i].Claim?))
  }

  ghost predicate TokensDistinct(s: System) {
    forall c, d :: c in s.phases && d in s.phases && c != d && !s.phases[c].Idle? && !s.phases[d].Idle? ==>
                     s.phases[c].claim.token != s.phases[d].claim.token
  }

  ghost predicate RowsSound(s: System) {
    forall id: RowId :: RowSound(s, id)
  }

  ghost predicate PhasesSound(s: System) {
    forall d :: d in s.phases ==> PhaseSound(s, s.phases[d]) && ClaimOpen(s, s.phases[d])
  }

  ghost predicate Sound(s: System) {
    RowsSound(s) && PhasesSound(s) && TokensDistinct(s)
  }

  lemma AppendKeepsOpen(s: System, s': System, e: Entry, p: Phase)
    requires ClaimOpen(s, p) && s'.log == s.log + [e]
    requires !p.Idle? && e.token == p.claim.token ==> e.Claim?
    ensures ClaimOpen(s', p)
  {
    if !p.Idle? {
      var h, g := RowLog(s.log, p.claim.id), RowLog(s'.log, p.claim.id);
      RowLogSnoc(s.log, e, p.claim.id);
      var i :| 0 <= i < |h| && h[i].Claim? && h[i].token == p.claim.token;
      assert g[i] == h[i];
    }
  }

  /** Appending an entry of one row leaves the other rows' histories alone. */
  lemma AppendKeepsOthers(s: System, s': System, e: Entry, id: RowId)
    requires RowSound(s, id) && id != e.id
    requires s'.log == s.log + [e] && s.now == s'.now && s.used <= s'.used && s'.delivered == s.delivered
    requires (id in s.rows <==> id in s'.rows) && (id in s.rows ==> s.rows[id] == s'.rows[id])
    ensures RowSound(s', id)
  {
    RowLogSnoc(s.log, e, id);
    assert RowLog(s'.log, id) == RowLog(s.log, id);
  }

  /** Appending an entry that extends the row's history keeps the row sound. */
  lemma AppendKeepsRow(s: System, s': System, e: Entry)
    requires e.id in s.rows && RowSound(s, e.id) && e.id in s'.rows
    requires s'.log == s.log + [e] && s.used <= s'.used && s'.delivered == s.delivered && e.token in s'.used
    requires s'.rows[e.id].payload == s.rows[e.id].payload
    requires RowMatches(s'.rows[e.id], RowLog(s.log, e.id) + [e], s'.now)
    requires e.Publish? ==> Delivery(e.id, e.token, s.rows[e.id].payload) in s.delivered
    ensures RowSound(s', e.id)
  {
    RowLogSnoc(s.log, e, e.id);
  }

  lemma ClaimKeepsRow(lease: nat, s: System, d: DispatcherId, id: RowId, newToken: Token)
    requires RowSound(s, id)
    requires PhaseOf(s, d).Idle? && id in s.rows && Available(s.rows[id], s.now) && newToken !in s.used
    ensures RowSound(Next(lease, s, ClaimOne(d, id, newToken)), id)
  {
    ClaimExtends(s.rows[id], RowLog(s.log, id), id, newToken, s.now, lease);
    AppendKeepsRow(s, Next(lease, s, ClaimOne(d, id, newToken)), Claim(id, newToken, s.now, s.now + lease as real));
  }

  lemma PublishKeepsRow(lease: nat, s: System, d: DispatcherId)
    requires PhaseOf(s, d).Sent? && PhaseSound(s, PhaseOf(s, d)) && RowSound(s, PhaseOf(s, d).claim.id)
    requires Owns(s.rows[PhaseOf(s, d).claim.id], PhaseOf(s, d).claim.token)
    ensures RowSound(Next(lease, s, MarkPublished(d)), PhaseOf(s, d).claim.id)
  {
    var c := PhaseOf(s, d).claim;
    PublishExtends(s.rows[c.id], RowLog(s.log, c.id), c.id, c.token, s.now);
    AppendKeepsRow(s, Next(lease, s, MarkPublished(d)), Publish(c.id, c.token, s.now));
  }

  lemma FailureKeepsRow(lease: nat, s: System, d: DispatcherId)
    requires PhaseOf(s, d).Unsent? && PhaseSound(s, PhaseOf(s, d)) && RowSound(s, PhaseOf(s, d).claim.id)
    requires Owns(s.rows[PhaseOf(s, d).claim.id], PhaseOf(s, d).claim.token)
    ensures RowSound(Next(lease, s, RecordFailure(d)), PhaseOf(s, d).claim.id)
  {
    var p := PhaseOf(s, d);
    var c := p.claim;
    FailureExtends(s.rows[c.id], RowLog(s.log, c.id), c.id, c.token, s.now, p.error);
    AppendKeepsRow(s, Next(lease, s, RecordFailure(d)),
                   Failure(c.id, c.token, s.now, p.error, s.now + FailureDelay(p.error, c.prior) as real));
  }

  lemma ClaimKeepsRows(lease: nat, s: System, d: DispatcherId, id: RowId, newToken: Token)
    requires RowsSound(s)
    requires PhaseOf(s, d).Idle? && id in s.rows && Available(s.rows[id], s.now) && newToken !in s.used
    ensures RowsSound(Next(lease, s, ClaimOne(d, id, newToken)))
  {
    var s' := Next(lease, s, ClaimOne(d, id, newToken));
    forall x: RowId
      ensures RowSound(s', x)
    {
      assert RowSound(s, x);
      if x == id {
        ClaimKeepsRow(lease, s, d, id, newToken);
      } else {
        AppendKeepsOthers(s, s', Claim(id, newToken, s.now, s.now + lease as real), x);
      }
    }
  }

  /** A claim under an unused token is open in the history that ends with it. */
  lemma FreshTokenOpens(h: seq<Entry>, e: Entry)
    requires e.Claim? && forall i :: 0 <= i < |h| ==> h[i].token != e.token
    ensures (h + [e])[|h|] == e
    ensures forall i :: 0 <= i < |h + [e]| && (h + [e])[i].token == e.token ==> (h + [e])[i].Claim?
  {
  }

  lemma NewClaimIsOpen(lease: nat, s: System, d: DispatcherId, id: RowId, newToken: Token)
    requires RowSound(s, id)
    requires PhaseOf(s, d).Idle? && id in s.rows && Available(s.rows[id], s.now) && newToken !in s.used
    ensures var s' := Next(lease, s, ClaimOne(d, id, newToken));
            PhaseSound(s', s'.phases[d]) && ClaimOpen(s', s'.phases[d])
  {
    var s', e := Next(lease, s, ClaimOne(d, id, newToken)), Claim(id, newToken, s.now, s.now + lease as real);
    assert s'.phases[d] == Sending(ClaimedEvent(id, newToken, s.rows[id].payload, s.rows[id].attempts));
    assert ClaimOpen(s', s'.phases[d]) by {
      assert RowLog(s'.log, id) == RowLog(s.log, id) + [e] by {
        RowLogSnoc(s.log, e, id);
      }
      FreshTokenOpens(RowLog(s.log, id), e);
    }
  }

  lemma ClaimKeepsPhases(lease: nat, s: System, d: DispatcherId, id: RowId, newToken: Token)
    requires RowSound(s, id) && PhasesSound(s)
    requires PhaseOf(s, d).Idle? && id in s.rows && Available(s.rows[id], s.now) && newToken !in s.used
    ensures PhasesSound(Next(lease, s, ClaimOne(d, id, newToken)))
  {
    var s' := Next(lease, s, ClaimOne(d, id, newToken));
    NewClaimIsOpen(lease, s, d, id, newToken);
    forall x | x in s.phases && x != d
      ensures PhaseSound(s', s.phases[x]) && ClaimOpen(s', s.phases[x])
    {
      assert PhaseSound(s, s.phases[x]);
      AppendKeepsOpen(s, s', Claim(id, newToken, s.now, s.now + lease as real), s.phases[x]);
    }
  }

  lemma ClaimKeepsSound(lease: nat, s: System, d: DispatcherId, id: RowId, newToken: Token)
    requires Sound(s) && PhaseOf(s, d).Idle? && id in s.rows && Available(s.rows[id], s.now) && newToken !in s.used
    ensures Sound(Next(lease, s, ClaimOne(d, id, newToken)))
  {
    assert RowSound(s, id);
    ClaimKeepsRows(lease, s, d, id, newToken);
    ClaimKeepsPhases(lease, s, d, id, newToken);
    assert forall x :: x in s.phases && !s.phases[x].Idle? ==> PhaseSound(s, s.phases[x]);
  }

  /** A dispatcher that no longer owns its row changes no row and records nothing. */
  lemma StaleOutcomeIsNoOp(lease: nat, s: System, d: DispatcherId, ev: Event)
    requires (ev == MarkPublished(d) && PhaseOf(s, d).Sent?) || (ev == RecordFailure(d) && PhaseOf(s, d).Unsent?)
    requires PhaseOf(s, d).claim.id in s.rows && !Owns(s.rows[PhaseOf(s, d).claim.id], PhaseOf(s, d).claim.token)
    ensures Next(lease, s, ev) == s.(phases := s.phases[d := Idle])
  {
    assert s.rows[PhaseOf(s, d).claim.id := s.rows[PhaseOf(s, d).claim.id]] == s.rows;
  }

  ghost predicate IsOutcome(s: System, ev: Event) {
    (ev.MarkPublished? && PhaseOf(s, ev.d).Sent?) || (ev.RecordFailure? && PhaseOf(s, ev.d).Unsent?)
  }

  lemma OutcomeKeepsRows(lease: nat, s: System, ev: Event)
    requires RowsSound(s) && IsOutcome(s, ev) && PhaseSound(s, PhaseOf(s, ev.d))
    requires Owns(s.rows[PhaseOf(s, ev.d).claim.id], PhaseOf(s, ev.d).claim.token)
    ensures RowsSound(Next(lease, s, ev))
  {
    var s', id := Next(lease, s, ev), PhaseOf(s, ev.d).claim.id;
    forall x: RowId
      ensures RowSound(s', x)
    {
      assert RowSound(s, x);
      if x != id {
        AppendKeepsOthers(s, s', s'.log[|s.log|], x);
      } else if ev.MarkPublished? {
        PublishKeepsRow(lease, s, ev.d);
      } else {
        FailureKeepsRow(lease, s, ev.d);
      }
    }
  }

  lemma OutcomeKeepsPhases(lease: nat, s: System, ev: Event)
    requires PhasesSound(s) && TokensDistinct(s) && IsOutcome(s, ev)
    requires PhaseOf(s, ev.d).claim.id in s.rows
    requires Owns(s.rows[PhaseOf(s, ev.d).claim.id], PhaseOf(s, ev.d).claim.token)
    ensures PhasesSound(Next(lease, s, ev))
  {
    var s' := Next(lease, s, ev);
    forall x | x in s.phases && x != ev.d
      ensures PhaseSound(s', s.phases[x]) && ClaimOpen(s', s.phases[x])
    {
      assert PhaseSound(s, s.phases[x]);
      AppendKeepsOpen(s, s', s'.log[|s.log|], s.phases[x]);
    }
  }

  lemma OutcomeKeepsTokens(lease: nat, s: System, ev: Event)
    requires TokensDistinct(s) && IsOutcome(s, ev)
    ensures TokensDistinct(Next(lease, s, ev))
  {
    var s' := Next(lease, s, ev);
    if PhaseOf(s, ev.d).claim.id in s.rows {
      assert s'.phases == s.phases[ev.d := Idle];
    }
  }

  lemma OutcomeKeepsSound(lease: nat, s: System, ev: Event)
    requires Sound(s) && IsOutcome(s, ev)
    ensures Sound(Next(lease, s, ev))
  {
    var p := PhaseOf(s, ev.d);
    assert PhaseSound(s, p);
    if Owns(s.rows[p.claim.id], p.claim.token) {
      OutcomeKeepsRows(lease, s, ev);
      OutcomeKeepsPhases(lease, s, ev);
      OutcomeKeepsTokens(lease, s, ev);
    } else {
      StaleOutcomeIsNoOp(lease, s, ev.d, ev);
      LocalStepKeepsSound(s, Next(lease, s, ev));
    }
  }

  /** Steps that append no entry and change no claim: time, new rows, broadcasts and crashes. */
  lemma LocalStepKeepsSound(s: System, s': System)
    requires Sound(s)
    requires s'.log == s.log && s'.used == s.used && s.now <= s'.now
    requires forall x :: x in s.rows ==> x in s'.rows && s'.rows[x] == s.rows[x]
    requires forall x :: x in s'.rows && x !in s.rows ==> exists payload, t :: s'.rows[x] == NewRow(payload, t)
    requires forall x :: x in s.delivered ==> x in s'.delivered
    requires forall d :: d in s'.phases ==>
                           || s'.phases[d].Idle?
                           || (&& d in s.phases && !s.phases[d].Idle? && s'.phases[d].claim == s.phases[d].claim
                               && (s'.phases[d].Sent? ==>
                                     var c := s.phases[d].claim;
                                     s.phases[d].Sent? || Delivery(c.id, c.token, c.payload) in s'.delivered))
    ensures Sound(s')
  {
    forall x: RowId
      ensures RowSound(s', x)
    {
      assert RowSound(s, x);
    }
    forall d | d in s'.phases
      ensures PhaseSound(s', s'.phases[d]) && ClaimOpen(s', s'.phases[d])
    {
      if !s'.phases[d].Idle? {
        assert PhaseSound(s, s.phases[d]) && ClaimOpen(s, s.phases[d]);
      }
    }
  }

  lemma NextKeepsSound(lease: nat, s: System, ev: Event)
    requires Sound(s)
    ensures Sound(Next(lease, s, ev))
  {
    if IsOutcome(s, ev) {
      OutcomeKeepsSound(lease, s, ev);
    } else if ev.ClaimOne? {
      if PhaseOf(s, ev.d).Idle? && ev.pick in s.rows && Available(s.rows[ev.pick], s.now) && ev.newToken !in s.used {
        ClaimKeepsSound(lease, s, ev.d, ev.pick, ev.newToken);
      }
    } else {
      LocalStepKeepsSound(s, Next(lease, s, ev));
    }
  }

  lemma {:induction false} RunIsSound(lease: nat, run: seq<Event>)
    ensures Sound(Exec(lease, run))
  {
    if run == [] {
      assert forall id: RowId :: RowSound(START, id);
    } else {
      RunIsSound(lease, run[..|run| - 1]);
      NextKeepsSound(lease, Exec(lease, run[..|run| - 1]), run[|run| - 1]);
    }
  }

  // ---------------------------------------------------------------- theorems

  /** The state at some point of some run. */
  ghost predicate Reachable(lease: nat, s: System) {
    exists run :: Exec(lease, run) == s
  }

  lemma ReachableIsSound(lease: nat, s: System)
    requires Reachable(lease, s)
    ensures Sound(s)
  {
    var run :| Exec(lease, run) == s;
    RunIsSound(lease, run);
  }

  /** Main theorem: in every run, every row's history obeys the fencing grammar and determines the
      row; so publish_attempts counts the recorded outcomes, and every failure's back-off doubles from
      one second to thirty with the outcomes recorded before it. */
  lemma OutboxIsFenced(lease: nat, s: System, id: RowId)
    requires Reachable(lease, s)
    requires id in s.rows
    ensures && Fenced(RowLog(s.log, id)) && RebuiltFrom(s.rows[id], RowLog(s.log, id))
            && s.rows[id].attempts == Outcomes(RowLog(s.log, id))
    ensures var h := RowLog(s.log, id);
            forall i :: 0 <= i < |h| && h[i].Failure? ==>
                          var delay := if h[i].error.Cancelled? then 0 else DoublingDelay(Outcomes(h[..i]));
                          h[i].next == h[i].at + delay as real
  {
    assert RowSound(s, id) by { ReachableIsSound(lease, s); }
    var h := RowLog(s.log, id);
    forall i | 0 <= i < |h| && h[i].Failure?
      ensures var delay := if h[i].error.Cancelled? then 0 else DoublingDelay(Outcomes(h[..i]));
              h[i].next == h[i].at + delay as real
    {
      assert Follows(h, i);
      RetryDelayIsCappedDoubling(Outcomes(h[..i]));
    }
  }

  /** The history lets a dispatcher take the row: nothing has been tried yet, or the claim that ends it
      has expired, or the back-off of the failure that ends it is over. */
  predicate Unheld(h: seq<Entry>, now: Time) {
    h == []
    || (h[|h| - 1].Claim? && h[|h| - 1].expires <= now)
    || (h[|h| - 1].Failure? && h[|h| - 1].next <= now)
  }

  lemma AvailableIffUnheld(row: Row, h: seq<Entry>, now: Time)
    requires RowMatches(row, h, now)
    ensures Available(row, now) <==> Unheld(h, now)
  {
    if h != [] && h[|h| - 1].Claim? {
      BackoffOver(h, now);
    }
  }

  /** A history that ends with a claim has no back-off left to wait for. */
  lemma {:induction false} BackoffOver(h: seq<Entry>, now: Time)
    requires Fenced(h) && h != [] && h[|h| - 1].Claim? && h[|h| - 1].at <= now
    ensures NextAllowed(h).None? || NextAllowed(h).value <= now
  {
    var n := |h| - 1;
    if n > 0 {
      assert Follows(h, n);
      var before := h[..n];
      forall i | 0 < i < n
        ensures Follows(before, i)
      {
        assert Follows(h, i) && before[..i] == h[..i];
      }
      if before[n - 1].Claim? {
        BackoffOver(before, now);
      }
    }
  }

  lemma ClaimHasEffect(lease: nat, s: System, d: DispatcherId, id: RowId, token: Token)
    requires PhaseOf(s, d).Idle? && token !in s.used
    ensures Next(lease, s, ClaimOne(d, id, token)) != s <==> id in s.rows && Available(s.rows[id], s.now)
  {
    if id in s.rows && Available(s.rows[id], s.now) {
      assert |Next(lease, s, ClaimOne(d, id, token)).log| == |s.log| + 1;
    }
  }

  /** Main theorem: in every run, a free dispatcher claims a stored row exactly when its history ends in
      no publication, no unexpired claim and no unfinished back-off. */
  lemma ClaimTakesEffectIff(lease: nat, s: System, d: DispatcherId, id: RowId, token: Token)
    requires Reachable(lease, s)
    requires PhaseOf(s, d).Idle? && id in s.rows && token !in s.used
    ensures Next(lease, s, ClaimOne(d, id, token)) != s <==> Unheld(RowLog(s.log, id), s.now)
  {
    assert RowSound(s, id) by { ReachableIsSound(lease, s); }
    AvailableIffUnheld(s.rows[id], RowLog(s.log, id), s.now);
    ClaimHasEffect(lease, s, d, id, token);
  }

  /** Main theorem: a dispatcher that crashes holds a row up no longer than the lease: a row that was
      claimed and not published can be claimed again once the lease has passed, by the dispatcher that
      crashed too. */
  lemma CrashedClaimIsRetaken(lease: nat, s: System, d: DispatcherId, id: RowId, token: Token, elapsed: Time)
    requires Reachable(lease, s)
    requires id in s.rows && token !in s.used && elapsed >= lease as real
    requires var h := RowLog(s.log, id);
             h != [] && h[|h| - 1].Claim?
    ensures var later := Next(lease, Next(lease, s, Crash(d)), Tick(elapsed));
            Next(lease, later, ClaimOne(d, id, token)) != later
  {
    var later := Next(lease, Next(lease, s, Crash(d)), Tick(elapsed));
    CrashThenTick(lease, s, d, elapsed);
    assert Unheld(RowLog(later.log, id), later.now) by {
      ExpiresByLease(lease, s, id);
    }
    ClaimTakesEffectIff(lease, later, d, id, token);
  }

  /** The same for a row with any history that does not end in a publication: an unfinished back-off
      lasts thirty seconds at most. */
  lemma UnpublishedIsRetaken(lease: nat, s: System, d: DispatcherId, id: RowId, token: Token, elapsed: Time)
    requires Reachable(lease, s)
    requires id in s.rows && token !in s.used && elapsed >= lease as real && elapsed >= 30.0
    requires var h := RowLog(s.log, id);
             h != [] ==> !h[|h| - 1].Publish?
    ensures var later := Next(lease, Next(lease, s, Crash(d)), Tick(elapsed));
            Next(lease, later, ClaimOne(d, id, token)) != later
  {
    var h, later := RowLog(s.log, id), Next(lease, Next(lease, s, Crash(d)), Tick(elapsed));
    CrashThenTick(lease, s, d, elapsed);
    assert Unheld(RowLog(later.log, id), later.now) by {
      if h != [] && h[|h| - 1].Claim? {
        ExpiresByLease(lease, s, id);
      } else if h != [] {
        BackoffEndsInTime(lease, s, id);
      }
    }
    ClaimTakesEffectIff(lease, later, d, id, token);
  }

  /** The back-off of the failure that ends a row's history ends within thirty seconds. */
  lemma BackoffEndsInTime(lease: nat, s: System, id: RowId)
    requires Reachable(lease, s) && id in s.rows
    requires var h := RowLog(s.log, id);
             h != [] && h[|h| - 1].Failure?
    ensures var h := RowLog(s.log, id);
            h[|h| - 1].next <= s.now + 30.0
  {
    var h := RowLog(s.log, id);
    assert RowSound(s, id) by { ReachableIsSound(lease, s); }
    assert Follows(h, |h| - 1);
  }

  lemma NextIsReachable(lease: nat, s: System, ev: Event)
    requires Reachable(lease, s)
    ensures Reachable(lease, Next(lease, s, ev))
  {
    var run :| Exec(lease, run) == s;
    assert (run + [ev])[..|run|] == run;
    assert Exec(lease, run + [ev]) == Next(lease, s, ev);
  }

  lemma CrashThenTick(lease: nat, s: System, d: DispatcherId, elapsed: Time)
    requires Reachable(lease, s) && elapsed >= 0.0
    ensures var later := Next(lease, Next(lease, s, Crash(d)), Tick(elapsed));
            && Reachable(lease, later)
            && later == s.(phases := s.phases[d := Idle], now := s.now + elapsed)
  {
    NextIsReachable(lease, s, Crash(d));
    NextIsReachable(lease, Next(lease, s, Crash(d)), Tick(elapsed));
  }

  /** The last entry of a row's history is in the past, and a claim lasts for the lease. */
  lemma ExpiresByLease(lease: nat, s: System, id: RowId)
    requires Reachable(lease, s) && id in s.rows
    requires var h := RowLog(s.log, id);
             h != [] && h[|h| - 1].Claim?
    ensures var h := RowLog(s.log, id);
            h[|h| - 1].expires <= s.now + lease as real
  {
    var h := RowLog(s.log, id);
    var e := h[|h| - 1];
    assert e.at <= s.now by {
      assert RowSound(s, id) by { ReachableIsSound(lease, s); }
    }
    assert e.expires == e.at + lease as real by {
      var run :| Exec(lease, run) == s;
      RowLogFromLog(s.log, id, |h| - 1);
      ClaimsLastForTheLease(lease, run);
    }
  }

  lemma UnheldIsAvailable(lease: nat, s: System, id: RowId)
    requires Reachable(lease, s) && id in s.rows && Unheld(RowLog(s.log, id), s.now)
    ensures Available(s.rows[id], s.now) && s.rows[id].attempts == Outcomes(RowLog(s.log, id))
  {
    assert RowSound(s, id) by { ReachableIsSound(lease, s); }
    AvailableIffUnheld(s.rows[id], RowLog(s.log, id), s.now);
  }

  lemma ClaimIsSending(lease: nat, s: System, d: DispatcherId, id: RowId, token: Token)
    requires PhaseOf(s, d).Idle? && id in s.rows && Available(s.rows[id], s.now) && token !in s.used
    ensures var s' := Next(lease, s, ClaimOne(d, id, token));
            && PhaseOf(s', d) == Sending(ClaimedEvent(id, token, s.rows[id].payload, s.rows[id].attempts))
            && id in s'.rows && Owns(s'.rows[id], token)
            && s'.now == s.now && s'.log == s.log + [Claim(id, token, s.now, s.now + lease as real)]
  {
  }

  lemma SendingIsPublished(lease: nat, s: System, d: DispatcherId)
    requires PhaseOf(s, d).Sending?
    requires var c := PhaseOf(s, d).claim;
             c.id in s.rows && Owns(s.rows[c.id], c.token)
    ensures var c := PhaseOf(s, d).claim;
            var end := Next(lease, Next(lease, s, BroadcastReturns(d)), MarkPublished(d));
            && c.id in end.rows && end.rows[c.id].publishedAt == Some(s.now) && PhaseOf(end, d).Idle?
            && Delivery(c.id, c.token, c.payload) in end.delivered
  {
  }

  lemma SendingIsFailed(lease: nat, s: System, d: DispatcherId, error: DeliveryError)
    requires PhaseOf(s, d).Sending?
    requires var c := PhaseOf(s, d).claim;
             c.id in s.rows && Owns(s.rows[c.id], c.token)
    ensures var c := PhaseOf(s, d).claim;
            var end := Next(lease, Next(lease, s, BroadcastRaises(d, error)), RecordFailure(d));
            && PhaseOf(end, d).Idle?
            && end.log == s.log + [Failure(c.id, c.token, s.now, error, s.now + FailureDelay(error, c.prior) as real)]
  {
  }

  /** A dispatcher that nobody disturbs publishes the row that it can claim: the broadcast returns, and
      the row and the delivery say so. */
  lemma UndisturbedDispatchPublishes(lease: nat, s: System, d: DispatcherId, id: RowId, token: Token)
    requires Reachable(lease, s)
    requires PhaseOf(s, d).Idle? && id in s.rows && token !in s.used && Unheld(RowLog(s.log, id), s.now)
    ensures var sent := Next(lease, Next(lease, s, ClaimOne(d, id, token)), BroadcastReturns(d));
            var end := Next(lease, sent, MarkPublished(d));
            && id in end.rows && end.rows[id].publishedAt == Some(s.now) && PhaseOf(end, d).Idle?
            && Delivery(id, token, s.rows[id].payload) in end.delivered
  {
    UnheldIsAvailable(lease, s, id);
    ClaimIsSending(lease, s, d, id, token);
    SendingIsPublished(lease, Next(lease, s, ClaimOne(d, id, token)), d);
  }

  /** And if the broadcast raises, it records the failure with its back-off. */
  lemma UndisturbedFailureIsRecorded(lease: nat, s: System, d: DispatcherId, id: RowId, token: Token,
                                     error: DeliveryError)
    requires Reachable(lease, s)
    requires PhaseOf(s, d).Idle? && id in s.rows && token !in s.used && Unheld(RowLog(s.log, id), s.now)
    ensures var unsent := Next(lease, Next(lease, s, ClaimOne(d, id, token)), BroadcastRaises(d, error));
            var end := Next(lease, unsent, RecordFailure(d));
            var delay := if error.Cancelled? then 0 else DoublingDelay(Outcomes(RowLog(s.log, id)));
            && PhaseOf(end, d).Idle?
            && end.log == s.log + [Claim(id, token, s.now, s.now + lease as real)]
                          + [Failure(id, token, s.now, error, s.now + delay as real)]
  {
    UnheldIsAvailable(lease, s, id);
    FailureAlone(lease, s, d, id, token, error);
    RetryDelayIsCappedDoubling(s.rows[id].attempts);
  }

  lemma FailureAlone(lease: nat, s: System, d: DispatcherId, id: RowId, token: Token, error: DeliveryError)
    requires PhaseOf(s, d).Idle? && id in s.rows && Available(s.rows[id], s.now) && token !in s.used
    ensures var unsent := Next(lease, Next(lease, s, ClaimOne(d, id, token)), BroadcastRaises(d, error));
            var end := Next(lease, unsent, RecordFailure(d));
            var delay := FailureDelay(error, s.rows[id].attempts);
            && PhaseOf(end, d).Idle?
            && end.log == s.log + [Claim(id, token, s.now, s.now + lease as real)]
                          + [Failure(id, token, s.now, error, s.now + delay as real)]
  {
    ClaimIsSending(lease, s, d, id, token);
    SendingIsFailed(lease, Next(lease, s, ClaimOne(d, id, token)), d, error);
  }

  /** A new row starts without a history: it can be claimed at once. */
  lemma NewRowIsUnheld(lease: nat, s: System, id: RowId, payload: Payload)
    requires Reachable(lease, s) && id !in s.rows
    ensures var s' := Next(lease, s, Insert(id, payload));
            && id in s'.rows && s'.rows[id].payload == payload && s'.rows[id].createdAt == s.now
            && Unheld(RowLog(s'.log, id), s'.now)
  {
    assert RowSound(s, id) by { ReachableIsSound(lease, s); }
  }

  /** Main theorem: at no point of any run do two unexpired claims of one row coexist. */
  lemma NoTwoLiveClaims(lease: nat, s: System, id: RowId, i: nat, j: nat)
    requires Reachable(lease, s)
    requires id in s.rows
    requires LiveClaim(RowLog(s.log, id), i, s.now)
    requires LiveClaim(RowLog(s.log, id), j, s.now)
    ensures i == j
  {
    assert RowSound(s, id) by { ReachableIsSound(lease, s); }
    LiveClaimIsLast(RowLog(s.log, id), i, s.now);
    LiveClaimIsLast(RowLog(s.log, id), j, s.now);
  }

  /** Back-off is honoured by every later claim, not only by the next one. */
  lemma NoClaimBeforeBackoffEnds(lease: nat, s: System, id: RowId, i: nat, j: nat)
    requires Reachable(lease, s)
    requires id in s.rows
    requires var h := RowLog(s.log, id);
             i < j < |h| && h[i].Failure? && h[j].Claim?
    ensures var h := RowLog(s.log, id);
            h[i].next <= h[j].at
  {
    assert RowSound(s, id) by { ReachableIsSound(lease, s); }
    BackoffBeforeClaim(RowLog(s.log, id), i, j);
  }

  /** Main theorem: an outcome takes effect exactly for the dispatcher whose claim is the latest
      entry of the row's history. */
  lemma OnlyLatestClaimantDecides(lease: nat, s: System, d: DispatcherId, ev: Event)
    requires Reachable(lease, s)
    requires (ev == MarkPublished(d) && PhaseOf(s, d).Sent?)
             || (ev == RecordFailure(d) && PhaseOf(s, d).Unsent?)
    ensures var c := PhaseOf(s, d).claim;
            var h := RowLog(s.log, c.id);
            && c.id in s.rows
            && (Next(lease, s, ev).rows != s.rows <==>
                h != [] && h[|h| - 1].Claim? && h[|h| - 1].token == c.token)
  {
    var c := PhaseOf(s, d).claim;
    assert PhaseSound(s, s.phases[d]) && RowSound(s, c.id) by { ReachableIsSound(lease, s); }
    if Owns(s.rows[c.id], c.token) {
      assert Next(lease, s, ev).rows[c.id].attempts == s.rows[c.id].attempts + 1;
    } else {
      StaleOutcomeIsNoOp(lease, s, d, ev);
    }
  }

  /** A published row never changes again. */
  lemma PublishedIsFinal(lease: nat, s: System, ev: Event, id: RowId)
    requires id in s.rows && s.rows[id].publishedAt.Some?
    ensures id in Next(lease, s, ev).rows && Next(lease, s, ev).rows[id] == s.rows[id]
  {
  }

  lemma {:induction false} PublishedStaysPublished(lease: nat, run: seq<Event>, more: seq<Event>, id: RowId)
    requires id in Exec(lease, run).rows && Exec(lease, run).rows[id].publishedAt.Some?
    ensures id in Exec(lease, run + more).rows && Exec(lease, run + more).rows[id] == Exec(lease, run).rows[id]
  {
    if more == [] {
      assert run + more == run;
    } else {
      var n := |more| - 1;
      PublishedStaysPublished(lease, run, more[..n], id);
      assert (run + more)[..|run + more| - 1] == run + more[..n];
      PublishedIsFinal(lease, Exec(lease, run + more[..n]), more[n], id);
    }
  }

  /** Main theorem: a row reads published only after a broadcast of its own payload returned. */
  lemma PublishedWasBroadcast(lease: nat, s: System, id: RowId)
    requires Reachable(lease, s)
    requires id in s.rows && s.rows[id].publishedAt.Some?
    ensures exists token :: Delivery(id, token, s.rows[id].payload) in s.delivered
  {
    assert RowSound(s, id) by { ReachableIsSound(lease, s); }
    var h := RowLog(s.log, id);
    assert Delivery(id, h[|h| - 1].token, s.rows[id].payload) in s.delivered;
  }

  /** Main theorem: a dispatcher that records its outcome before its claim expires is never fenced
      off: the update takes effect. */
  lemma TimelyOutcomeTakesEffect(lease: nat, s: System, d: DispatcherId, i: nat)
    requires Reachable(lease, s)
    requires !PhaseOf(s, d).Idle?
    requires var c := PhaseOf(s, d).claim;
             var h := RowLog(s.log, c.id);
             i < |h| && h[i].Claim? && h[i].token == c.token && s.now < h[i].expires
    ensures var c := PhaseOf(s, d).claim;
            c.id in s.rows && Owns(s.rows[c.id], c.token)
  {
    var c := PhaseOf(s, d).claim;
    assert PhaseSound(s, s.phases[d]) && ClaimOpen(s, s.phases[d]) && RowSound(s, c.id) by {
      ReachableIsSound(lease, s);
    }
    OpenClaimIsLast(RowLog(s.log, c.id), i, s.now);
  }

  lemma {:induction false} ClaimsLastForTheLease(lease: nat, run: seq<Event>)
    ensures forall e :: e in Exec(lease, run).log && e.Claim? ==> e.expires == e.at + lease as real
  {
    if run != [] {
      ClaimsLastForTheLease(lease, run[..|run| - 1]);
    }
  }

  lemma {:induction false} RowLogFromLog(log: seq<Entry>, id: RowId, i: nat)
    requires i < |RowLog(log, id)|
    ensures RowLog(log, id)[i] in log
  {
    var n := |log| - 1;
    if i < |RowLog(log[..n], id)| {
      RowLogFromLog(log[..n], id, i);
    }
  }

  /** Main theorem: with timeouts as validated, the lease two seconds longer than a send, an outcome
      recorded less than a second after the longest wait for a delivery that started at the claim
      always takes effect. */
  lemma DeliveryInTimeTakesEffect(lease: nat, s: System, d: DispatcherId, i: nat, sendTimeout: Time)
    requires Reachable(lease, s) && lease as real >= sendTimeout + 2.0
    requires !PhaseOf(s, d).Idle?
    requires var c := PhaseOf(s, d).claim;
             var h := RowLog(s.log, c.id);
             i < |h| && h[i].Claim? && h[i].token == c.token && s.now < h[i].at + (sendTimeout + 1.0) + 1.0
    ensures var c := PhaseOf(s, d).claim;
            c.id in s.rows && Owns(s.rows[c.id], c.token)
  {
    var run :| Exec(lease, run) == s;
    var c := PhaseOf(s, d).claim;
    RowLogFromLog(s.log, c.id, i);
    assert RowLog(s.log, c.id)[i].expires == RowLog(s.log, c.id)[i].at + lease as real by {
      ClaimsLastForTheLease(lease, run);
    }
    TimelyOutcomeTakesEffect(lease, s, d, i);
  }
}
