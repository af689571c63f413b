/** Sensors forwarding their files to one server, with crashes and lost answers at every point. */
module SensorRuns {
  import opened SensorModel

  datatype Phase =
    | Idle
    | Loaded(records: seq<Record>, next: nat)
    | Confirmed(next: nat)

  /** One follower: its append-only file, the position it reads from, the stored checkpoint, and
      where it stands in the forwarding loop.  delivered is history: how far the server has
      committed this sensor's file. */
  datatype Agent = Agent(file: string, offset: nat, checkpoint: nat, phase: Phase, delivered: nat)

  const NEW_AGENT := Agent("", 0, 0, Idle, 0)

  datatype System = System(agents: map<SensorId, Agent>, server: Server)

  const START := System(map[], Server([], [], map[]))

  datatype Event =
    | Append(s: SensorId, text: string)
    | Read(s: SensorId, limit: int, records: seq<Record>, next: nat)
    | Deliver(s: SensorId, answered: bool)
    | GiveUp(s: SensorId)
    | Commit(s: SensorId)
    | Restart(s: SensorId, checkpointReadable: bool)

  datatype World = World(parse: Parser, identity: Identity)

  function AgentOf(sys: System, s: SensorId): Agent {
    if s in sys.agents then sys.agents[s] else NEW_AGENT
  }

  ghost function Next(w: World, sys: System, ev: Event): System {
    var a := AgentOf(sys, ev.s);
    match ev
    case Append(s, text) => sys.(agents := sys.agents[s := a.(file := a.file + text)])
    case Read(s, limit, records, next) =>
      // A file shorter than the offset has been truncated: the follower starts over.
      var offset := if |a.file| < a.offset then 0 else a.offset;
      if a.phase.Idle? && IsRead(w.parse, a.file, offset, limit, records, next) then
        sys.(agents := sys.agents[s := a.(offset := offset, phase := Loaded(records, next))])
      else sys
    case Deliver(s, answered) =>
      // The server commits; its answer may be lost, and then the follower retries from its offset.
      if a.phase.Loaded? then
        System(sys.agents[s := a.(phase := if answered then Confirmed(a.phase.next) else Idle,
                                  delivered := if a.delivered < a.phase.next then a.phase.next else a.delivered)],
               Ingest(w.identity, sys.server, s, a.phase.records))
      else sys
    case GiveUp(s) => sys.(agents := sys.agents[s := a.(phase := Idle)])
    case Commit(s) =>
      if a.phase.Confirmed? then
        sys.(agents := sys.agents[s := a.(offset := a.phase.next, checkpoint := a.phase.next, phase := Idle)])
      else sys
    case Restart(s, readable) =>
      sys.(agents := sys.agents[s := a.(offset := if readable then a.checkpoint else 0, phase := Idle)])
  }

  ghost function Exec(w: World, run: seq<Event>): System {
    if run == [] then START else Next(w, Exec(w, run[..|run| - 1]), run[|run| - 1])
  }

  /** The records that the server was sent by one sensor, repetitions included. */
  ghost function Posted(w: World, run: seq<Event>, s: SensorId): nat {
    if run == [] then 0
    else
      var before, ev := run[..|run| - 1], run[|run| - 1];
      var phase := AgentOf(Exec(w, before), s).phase;
      Posted(w, before, s) + (if ev.Deliver? && ev.s == s && phase.Loaded? then |phase.records| else 0)
  }

  /** Every sensor's events_seen counts what it has sent, each delivery as often as it was repeated. */
  lemma {:induction false} EventsSeenCountsPosted(w: World, run: seq<Event>, s: SensorId)
    ensures StateOf(Exec(w, run).server, s).eventsSeen == Posted(w, run, s)
  {
    if run != [] {
      EventsSeenCountsPosted(w, run[..|run| - 1], s);
    }
  }

  /** Positions never run ahead of what the server has, and never stand inside a line. */
  ghost predicate AgentSound(w: World, a: Agent) {
    && AtBoundary(a.file, a.offset) && AtBoundary(a.file, a.checkpoint) && AtBoundary(a.file, a.delivered)
    && a.offset <= a.delivered && a.checkpoint <= a.delivered
    && (a.phase.Loaded? ==>
          && a.offset <= a.phase.next && AtBoundary(a.file, a.phase.next)
          && a.phase.records == Records(w.parse, a.file[a.offset..a.phase.next]))
    && (a.phase.Confirmed? ==> AtBoundary(a.file, a.phase.next) && a.phase.next <= a.delivered)
  }

  /** The delivered part of a sensor's file holds an alert with this identity. */
  ghost predicate DeliveredAlert(w: World, s: SensorId, a: Agent, id: AlertId) {
    a.delivered <= |a.file| && Carries(w.identity, s, Records(w.parse, a.file[..a.delivered]), id)
  }

  ghost predicate DeliveredBySome(w: World, agents: map<SensorId, Agent>, id: AlertId) {
    exists s :: s in agents && DeliveredAlert(w, s, agents[s], id)
  }

  ghost predicate StoredIffDelivered(w: World, sys: System, id: AlertId) {
    IsStored(sys.server.alerts, id) <==> DeliveredBySome(w, sys.agents, id)
  }

  /** Replacing one follower adds to the delivered identities what that follower adds. */
  lemma UpdateAgent(w: World, agents: map<SensorId, Agent>, s: SensorId, a: Agent, id: AlertId, extra: bool)
    requires DeliveredAlert(w, s, a, id) <==> (s in agents && DeliveredAlert(w, s, agents[s], id)) || extra
    ensures DeliveredBySome(w, agents[s := a], id) <==> DeliveredBySome(w, agents, id) || extra
  {
    var agents' := agents[s := a];
    if DeliveredBySome(w, agents, id) {
      var x :| x in agents && DeliveredAlert(w, x, agents[x], id);
      assert x in agents' && DeliveredAlert(w, x, agents'[x], id);
    }
    if extra {
      assert s in agents' && DeliveredAlert(w, s, agents'[s], id);
    }
    if DeliveredBySome(w, agents', id) {
      var x :| x in agents' && DeliveredAlert(w, x, agents'[x], id);
      assert x != s ==> x in agents && DeliveredAlert(w, x, agents[x], id);
    }
  }

  ghost predicate AgentsSound(w: World, sys: System) {
    forall s :: s in sys.agents ==> AgentSound(w, sys.agents[s])
  }

  ghost predicate Sound(w: World, sys: System) {
    && AgentsSound(w, sys)
    && ServerSound(sys.server)
    && (forall id: AlertId :: StoredIffDelivered(w, sys, id))
  }

  /** Delivering the lines from offset to next extends the delivered part by those lines. */
  lemma DeliveryExtends(w: World, s: SensorId, a: Agent, id: AlertId)
    requires AgentSound(w, a) && a.phase.Loaded?
    ensures var a' := a.(delivered := if a.delivered < a.phase.next then a.phase.next else a.delivered);
            DeliveredAlert(w, s, a', id) <==> DeliveredAlert(w, s, a, id) || Carries(w.identity, s, a.phase.records, id)
  {
    var next := a.phase.next;
    RecordsSplit(w.parse, a.file, a.offset, next);
    RecordsSplit(w.parse, a.file, a.offset, a.delivered);
    if next <= a.delivered {
      RecordsSplit(w.parse, a.file, next, a.delivered);
      CarriesSplit(w.identity, s, Records(w.parse, a.file[..a.offset]), a.phase.records, id);
      CarriesSplit(w.identity, s, Records(w.parse, a.file[..next]), Records(w.parse, a.file[next..a.delivered]), id);
    } else {
      RecordsSplit(w.parse, a.file, a.delivered, next);
      var sent, more := Records(w.parse, a.file[..a.delivered]), Records(w.parse, a.file[a.delivered..next]);
      var kept := Records(w.parse, a.file[..a.offset]);
      CarriesSplit(w.identity, s, kept, Records(w.parse, a.file[a.offset..a.delivered]), id);
      CarriesSplit(w.identity, s, Records(w.parse, a.file[..a.offset]), a.phase.records, id);
      CarriesSplit(w.identity, s, sent, more, id);
    }
  }

  lemma CarriesSplit(identity: Identity, s: SensorId, a: seq<Record>, b: seq<Record>, id: AlertId)
    ensures Carries(identity, s, a + b, id) <==> Carries(identity, s, a, id) || Carries(identity, s, b, id)
  {
  }

  lemma DeliverKeepsSound(w: World, sys: System, s: SensorId, answered: bool)
    requires Sound(w, sys) && AgentOf(sys, s).phase.Loaded?
    ensures Sound(w, Next(w, sys, Deliver(s, answered)))
  {
    var a, sys' := sys.agents[s], Next(w, sys, Deliver(s, answered));
    IngestKeepsSound(w.identity, sys.server, s, a.phase.records);
    forall id: AlertId
      ensures StoredIffDelivered(w, sys', id)
    {
      assert StoredIffDelivered(w, sys, id);
      DeliveryExtends(w, s, a, id);
      UpdateAgent(w, sys.agents, s, sys'.agents[s], id, Carries(w.identity, s, a.phase.records, id));
    }
  }

  /** Growing the file leaves its delivered part alone. */
  lemma GrowthKeepsDelivered(w: World, s: SensorId, a: Agent, a': Agent, id: AlertId)
    requires a.delivered <= |a.file| && a'.delivered == a.delivered && a.file <= a'.file
    ensures DeliveredAlert(w, s, a', id) <==> DeliveredAlert(w, s, a, id)
  {
    assert a'.file[..a.delivered] == a.file[..a.delivered];
  }

  /** Steps of one follower that deliver nothing. */
  lemma LocalStepKeepsSound(w: World, sys: System, s: SensorId, a': Agent)
    requires Sound(w, sys) && AgentSound(w, a')
    requires a'.delivered == AgentOf(sys, s).delivered && AgentOf(sys, s).file <= a'.file
    ensures Sound(w, sys.(agents := sys.agents[s := a']))
  {
    var sys' := sys.(agents := sys.agents[s := a']);
    forall id: AlertId
      ensures StoredIffDelivered(w, sys', id)
    {
      assert StoredIffDelivered(w, sys, id);
      GrowthKeepsDelivered(w, s, AgentOf(sys, s), a', id);
      assert !DeliveredAlert(w, s, NEW_AGENT, id);
      UpdateAgent(w, sys.agents, s, a', id, false);
    }
  }

  lemma NextKeepsSound(w: World, sys: System, ev: Event)
    requires Sound(w, sys)
    ensures Sound(w, Next(w, sys, ev))
  {
    var a, sys' := AgentOf(sys, ev.s), Next(w, sys, ev);
    if ev.Deliver? {
      if a.phase.Loaded? {
        DeliverKeepsSound(w, sys, ev.s, ev.answered);
      }
    } else if sys' != sys {
      var a' := sys'.agents[ev.s];
      if ev.Append? && a.phase.Loaded? {
        assert a'.file[a.offset..a.phase.next] == a.file[a.offset..a.phase.next];
      }
      LocalStepKeepsSound(w, sys, ev.s, a');
    }
  }

  lemma {:induction false} RunIsSound(w: World, run: seq<Event>)
    ensures Sound(w, Exec(w, run))
  {
    if run != [] {
      RunIsSound(w, run[..|run| - 1]);
      NextKeepsSound(w, Exec(w, run[..|run| - 1]), run[|run| - 1]);
    }
  }

  /** Main theorem: end-to-end exactly once.  In every run the stored alerts are exactly the alert
      identities of the delivered prefixes, each stored once with one outbox row, and each sensor's
      counter is the number of its stored alerts. */
  lemma AlertsStoredExactlyOnce(w: World, run: seq<Event>)
    ensures var sys := Exec(w, run);
            && (forall id :: IsStored(sys.server.alerts, id) <==> DeliveredBySome(w, sys.agents, id))
            && (forall i, j :: 0 <= i < j < |sys.server.alerts| ==> sys.server.alerts[i].id != sys.server.alerts[j].id)
            && sys.server.outbox == Ids(sys.server.alerts)
            && (forall s: SensorId :: StateOf(sys.server, s).alertsAccepted == AlertsOf(sys.server.alerts, s))
  {
    RunIsSound(w, run);
    var sys := Exec(w, run);
    forall id: AlertId
      ensures IsStored(sys.server.alerts, id) <==> DeliveredBySome(w, sys.agents, id)
    {
      assert StoredIffDelivered(w, sys, id);
    }
  }

  /** Main theorem: the checkpoint never passes a line that the server has not committed, and never
      stands inside a line. */
  lemma CheckpointNeverPassesUndelivered(w: World, run: seq<Event>, s: SensorId)
    requires s in Exec(w, run).agents
    ensures var a := Exec(w, run).agents[s];
            && a.checkpoint <= a.delivered <= |a.file|
            && AtBoundary(a.file, a.checkpoint) && AtBoundary(a.file, a.delivered)
            && |a.file| >= a.offset
  {
    RunIsSound(w, run);
  }

  /** What lies before the checkpoint is stored: nothing is lost across crashes. */
  lemma CheckpointedAlertsAreStored(w: World, run: seq<Event>, s: SensorId, r: Record)
    requires s in Exec(w, run).agents
    requires var a := Exec(w, run).agents[s];
             a.checkpoint <= |a.file| && r in Records(w.parse, a.file[..a.checkpoint]) && r.Alert?
    ensures IsStored(Exec(w, run).server.alerts, w.identity(s, r.material))
  {
    var sys := Exec(w, run);
    var a, id := sys.agents[s], w.identity(s, r.material);
    assert AgentSound(w, a) && StoredIffDelivered(w, sys, id) by { RunIsSound(w, run); }
    RecordsSplit(w.parse, a.file, a.checkpoint, a.delivered);
    assert DeliveredAlert(w, s, a, id);
  }

  /** A free follower whose file is not shorter than its offset loads what it reads there. */
  lemma ReadLoads(w: World, sys: System, s: SensorId, limit: int, records: seq<Record>, next: nat)
    requires s in sys.agents
    requires var a := sys.agents[s];
             a.phase.Idle? && a.offset <= |a.file| && IsRead(w.parse, a.file, a.offset, limit, records, next)
    ensures Next(w, sys, Read(s, limit, records, next))
            == sys.(agents := sys.agents[s := sys.agents[s].(phase := Loaded(records, next))])
  {
  }

  /** An undisturbed round of the forwarding loop makes progress: with a complete line to read, the
      checkpoint moves past it, and the server has what lies before. */
  lemma ForwardingAdvances(w: World, run: seq<Event>, s: SensorId, limit: int, records: seq<Record>, next: nat)
    requires s in Exec(w, run).agents && limit >= 1
    requires var a := Exec(w, run).agents[s];
             && a.phase.Idle? && a.offset <= |a.file| && LineEnd(a.file, a.offset).Some?
             && IsRead(w.parse, a.file, a.offset, limit, records, next)
    ensures var a := Exec(w, run).agents[s];
            var sent := Next(w, Next(w, Exec(w, run), Read(s, limit, records, next)), Deliver(s, true));
            var end := Next(w, sent, Commit(s)).agents[s];
            && a.offset < next == end.offset == end.checkpoint <= end.delivered
            && end.phase.Idle? && end.file == a.file
            && forall r :: r in records && r.Alert? ==> IsStored(sent.server.alerts, w.identity(s, r.material))
  {
    var sys := Exec(w, run);
    assert ServerSound(sys.server) by { RunIsSound(w, run); }
    ReadLoads(w, sys, s, limit, records, next);
    IngestKeepsSound(w.identity, sys.server, s, records);
    forall r | r in records && r.Alert?
      ensures IsStored(Ingest(w.identity, sys.server, s, records).alerts, w.identity(s, r.material))
    {
      assert Carries(w.identity, s, records, w.identity(s, r.material));
    }
  }

  /** Main theorem: a lost answer costs a repetition and nothing else: the follower is where it was, may
      send the same lines again, and then the server holds what it held after the first time. */
  lemma LostAnswerIsRepeated(w: World, run: seq<Event>, s: SensorId, limit: int)
    requires s in Exec(w, run).agents && Exec(w, run).agents[s].phase.Loaded?
    requires var a := Exec(w, run).agents[s];
             a.offset <= |a.file| && IsRead(w.parse, a.file, a.offset, limit, a.phase.records, a.phase.next)
    ensures var a := Exec(w, run).agents[s];
            var lost := Next(w, Exec(w, run), Deliver(s, false));
            var again := Next(w, Next(w, lost, Read(s, limit, a.phase.records, a.phase.next)), Deliver(s, true));
            && lost.agents[s].phase.Idle? && lost.agents[s].offset == a.offset
            && again.agents[s].phase == Confirmed(a.phase.next)
            && again.server.alerts == lost.server.alerts && again.server.outbox == lost.server.outbox
  {
    var a := Exec(w, run).agents[s];
    var lost := Next(w, Exec(w, run), Deliver(s, false));
    var reread := Next(w, lost, Read(s, limit, a.phase.records, a.phase.next));
    ReadLoads(w, lost, s, limit, a.phase.records, a.phase.next);
    assert AgentOf(reread, s).phase == a.phase && reread.server == lost.server;
    assert ServerSound(Exec(w, run).server) by { RunIsSound(w, run); }
    RedeliveryAddsNothing(w.identity, Exec(w, run).server, s, a.phase.records);
  }

  /** Every record that the follower delivered is stored. */
  lemma DeliveredIsStored(w: World, run: seq<Event>, s: SensorId, from: nat, to: nat, r: Record)
    requires s in Exec(w, run).agents
    requires var a := Exec(w, run).agents[s];
             && from <= to <= a.delivered <= |a.file| && AtBoundary(a.file, from) && AtBoundary(a.file, to)
             && r in Records(w.parse, a.file[from..to]) && r.Alert?
    ensures IsStored(Exec(w, run).server.alerts, w.identity(s, r.material))
  {
    var sys := Exec(w, run);
    var a, id := sys.agents[s], w.identity(s, r.material);
    assert StoredIffDelivered(w, sys, id) by { RunIsSound(w, run); }
    RecordsSplit(w.parse, a.file, from, to);
    RecordsSplit(w.parse, a.file, to, a.delivered);
    assert DeliveredAlert(w, s, a, id);
  }

  /** Main theorem: after a restart the follower reads from its checkpoint, or from the start of the file
      if the checkpoint cannot be read; and a round that repeats only what was delivered before stores
      and publishes nothing. */
  lemma RestartRepeatsHarmlessly(w: World, run: seq<Event>, s: SensorId, readable: bool, limit: int,
                                 records: seq<Record>, next: nat, answered: bool)
    requires s in Exec(w, run).agents
    requires var a := Exec(w, run).agents[s];
             var from := if readable then a.checkpoint else 0;
             && next <= a.delivered <= |a.file| && from <= |a.file|
             && IsRead(w.parse, a.file, from, limit, records, next)
    ensures var a := Exec(w, run).agents[s];
            var restarted := Next(w, Exec(w, run), Restart(s, readable));
            var sent := Next(w, Next(w, restarted, Read(s, limit, records, next)), Deliver(s, answered));
            && restarted.agents[s].offset == (if readable then a.checkpoint else 0)
            && restarted.agents[s].file == a.file && restarted.agents[s].phase.Idle?
            && sent.server.alerts == Exec(w, run).server.alerts && sent.server.outbox == Exec(w, run).server.outbox
  {
    var sys := Exec(w, run);
    var a := sys.agents[s];
    var from := if readable then a.checkpoint else 0;
    assert AgentSound(w, a) by { RunIsSound(w, run); }
    forall r | r in records && r.Alert?
      ensures IsStored(sys.server.alerts, w.identity(s, r.material))
    {
      DeliveredIsStored(w, run, s, from, next, r);
    }
    var restarted := Next(w, sys, Restart(s, readable));
    assert restarted == sys.(agents := sys.agents[s := a.(offset := from, phase := Idle)]);
    KnownRoundAddsNothing(w, restarted, s, limit, records, next, answered);
  }

  lemma KnownRoundAddsNothing(w: World, sys: System, s: SensorId, limit: int, records: seq<Record>, next: nat,
                              answered: bool)
    requires s in sys.agents
    requires var a := sys.agents[s];
             a.phase.Idle? && a.offset <= |a.file| && IsRead(w.parse, a.file, a.offset, limit, records, next)
    requires forall r :: r in records && r.Alert? ==> IsStored(sys.server.alerts, w.identity(s, r.material))
    ensures var sent := Next(w, Next(w, sys, Read(s, limit, records, next)), Deliver(s, answered));
            sent.server.alerts == sys.server.alerts && sent.server.outbox == sys.server.outbox
  {
    ReadLoads(w, sys, s, limit, records, next);
    KnownBatchAddsNothing(w.identity, s, (sys.server.alerts, sys.server.outbox), records);
  }
}
