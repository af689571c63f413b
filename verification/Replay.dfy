/** Replaying a list of observations in the background while an operator starts, pauses, resumes and
    stops it.

    The background task runs between awaits without interruption, so a run of the controller is a
    sequence of control calls, task segments and worker-thread completions in any order. */
module Replay {
  import opened Wrappers

  // ---------------------------------------------------------------- selecting dataset rows

  datatype Row = Row(attackType: string, features: seq<string>)

  const NORMAL_LABELS: set<string> := {
    "MQTT", "MQTT_Publish", "Thing_speak", "Thing_Speak", "Wipro_bulb_Dataset", "Wipro_bulb", "Amazon-Alexa"
  }
  const CLASS_PREFIX := "class:"

  /** Whether a row of the given label belongs to a scenario; unknown scenarios are an error. */
  function ScenarioMatches(name: string, scenario: string): Result<bool, string> {
    if scenario == "all" then Ok(true)
    else if scenario == "normal" then Ok(name in NORMAL_LABELS)
    else if scenario == "attack" then Ok(name !in NORMAL_LABELS)
    else if CLASS_PREFIX <= scenario then Ok(name == scenario[|CLASS_PREFIX|..])
    else Err("scenario must be all, normal, attack, or class:<exact label>")
  }

  predicate KnownScenario(scenario: string) {
    scenario in {"all", "normal", "attack"} || CLASS_PREFIX <= scenario
  }

  function InScenario(rows: seq<Row>, scenario: string): (r: seq<Row>)
    requires KnownScenario(scenario)
    ensures |r| <= |rows|
  {
    if rows == [] then []
    else
      var n := |rows| - 1;
      InScenario(rows[..n], scenario) +
      (if ScenarioMatches(rows[n].attackType, scenario).value then [rows[n]] else [])
  }

  /** What a scenario asks of a row: any label, a normal one, one that is not normal, or this one. */
  predicate Wanted(row: Row, scenario: string) {
    || scenario == "all"
    || (scenario == "normal" && row.attackType in NORMAL_LABELS)
    || (scenario == "attack" && row.attackType !in NORMAL_LABELS)
    || scenario == "class:" + row.attackType
  }

  /** Main theorem: a selection holds each row that its scenario asks for as often as the dataset does,
      and no other; so the normal and the attack rows share the dataset between them. */
  lemma {:induction false} ScenarioSelects(rows: seq<Row>, scenario: string, row: Row)
    requires KnownScenario(scenario)
    ensures multiset(InScenario(rows, scenario))[row] == if Wanted(row, scenario) then multiset(rows)[row] else 0
  {
    if rows != [] {
      var n := |rows| - 1;
      ScenarioSelects(rows[..n], scenario, row);
      assert rows == rows[..n] + [rows[n]];
      ScenarioMatchesIff(rows[n], scenario);
    }
  }

  lemma ScenarioMatchesIff(row: Row, scenario: string)
    requires KnownScenario(scenario)
    ensures ScenarioMatches(row.attackType, scenario) == Ok(Wanted(row, scenario))
  {
    var text := "class:" + row.attackType;
    assert text[..6] == "class:" && text[6..] == row.attackType;
    assert text[0] == 'c' && "all"[0] != 'c' && "normal"[0] != 'c' && "attack"[0] != 'c';
    if scenario != "all" && scenario != "normal" && scenario != "attack" {
      assert scenario[..|CLASS_PREFIX|] == CLASS_PREFIX;
      assert scenario == CLASS_PREFIX + scenario[|CLASS_PREFIX|..];
    }
  }

  function Drop(rows: seq<Row>, offset: int): seq<Row> {
    if offset <= 0 then rows else if offset >= |rows| then [] else rows[offset..]
  }

  function Take(rows: seq<Row>, limit: Option<int>): seq<Row> {
    if limit.None? || limit.value >= |rows| then rows
    else if limit.value <= 0 then []
    else rows[..limit.value]
  }

  function Selected(rows: seq<Row>, scenario: string, offset: int, limit: Option<int>): seq<Row>
    requires KnownScenario(scenario)
  {
    Take(InScenario(Drop(rows, offset), scenario), limit)
  }

  lemma {:induction false} InScenarioConcat(a: seq<Row>, b: seq<Row>, scenario: string)
    requires KnownScenario(scenario)
    ensures InScenario(a + b, scenario) == InScenario(a, scenario) + InScenario(b, scenario)
  {
    if b == [] {
      assert a + b == a;
    } else {
      assert (a + b)[..|a + b| - 1] == a + b[..|b| - 1];
      InScenarioConcat(a, b[..|b| - 1], scenario);
    }
  }

  /** What is selected from an offset on continues what the rows before it contribute. */
  lemma SelectionContinues(rows: seq<Row>, scenario: string, offset: nat)
    requires KnownScenario(scenario) && offset <= |rows|
    ensures InScenario(rows[..offset], scenario) + Selected(rows, scenario, offset, None) == InScenario(rows, scenario)
  {
    assert rows == rows[..offset] + rows[offset..];
    InScenarioConcat(rows[..offset], rows[offset..], scenario);
  }

  /** Nothing is selected from an offset past the end, and a negative one is none. */
  lemma SelectionOutside(rows: seq<Row>, scenario: string, offset: int, limit: Option<int>)
    requires KnownScenario(scenario)
    ensures offset > |rows| ==> Selected(rows, scenario, offset, limit) == []
    ensures offset < 0 ==> Selected(rows, scenario, offset, limit) == Selected(rows, scenario, 0, limit)
  {
  }

  /** A limit keeps so many rows from the front, if there are that many, and none if it is negative. */
  lemma SelectionIsLimited(rows: seq<Row>, scenario: string, offset: int, limit: int)
    requires KnownScenario(scenario)
    ensures var all, some := Selected(rows, scenario, offset, None), Selected(rows, scenario, offset, Some(limit));
            && some <= all
            && (|some| == limit || (limit < 0 && some == []) || (|some| < limit && some == all))
  {
  }

  /** What the first k rows at or after the offset contribute. */
  function SelectedUpTo(rows: seq<Row>, k: nat, scenario: string, limit: Option<int>): seq<Row>
    requires KnownScenario(scenario) && k <= |rows|
  {
    Take(InScenario(rows[..k], scenario), limit)
  }

  /** One more row extends the selection if it matches and the limit allows it. */
  lemma SelectNext(rows: seq<Row>, k: nat, scenario: string, limit: Option<int>)
    requires KnownScenario(scenario) && k < |rows|
    ensures var before := SelectedUpTo(rows, k, scenario, limit);
            SelectedUpTo(rows, k + 1, scenario, limit) ==
            if ScenarioMatches(rows[k].attackType, scenario).value && (limit.Some? ==> |before| < limit.value)
            then before + [rows[k]] else before
  {
    assert rows[..k + 1][..k] == rows[..k];
  }

  /** Once the limit is reached, later rows make no difference. */
  lemma LimitReached(rows: seq<Row>, i: nat, scenario: string, limit: int)
    requires KnownScenario(scenario) && i <= |rows|
    requires |SelectedUpTo(rows, i, scenario, Some(limit))| >= limit
    ensures Take(InScenario(rows, scenario), Some(limit)) == SelectedUpTo(rows, i, scenario, Some(limit))
  {
    assert rows == rows[..i] + rows[i..];
    InScenarioConcat(rows[..i], rows[i..], scenario);
  }

  lemma SelectedUpToAll(rows: seq<Row>, scenario: string, limit: Option<int>)
    requires KnownScenario(scenario)
    ensures SelectedUpTo(rows, 0, scenario, limit) == []
    ensures SelectedUpTo(rows, |rows|, scenario, limit) == Take(InScenario(rows, scenario), limit)
  {
    assert rows[..0] == [] && rows[..|rows|] == rows;
  }

  /** What the generator has emitted when it reaches row i. */
  ghost predicate EmittedBefore(rows: seq<Row>, scenario: string, offset: int, limit: Option<int>, i: nat,
                                chosen: seq<Row>) {
    var kept := Drop(rows, offset);
    var start := |rows| - |kept|;
    && i <= |rows|
    && (i <= start ==> chosen == [])
    && (i > start ==> KnownScenario(scenario) && chosen == SelectedUpTo(kept, i - start, scenario, limit))
  }

  lemma EmitRow(rows: seq<Row>, scenario: string, offset: int, limit: Option<int>, i: nat, chosen: seq<Row>)
    requires EmittedBefore(rows, scenario, offset, limit, i, chosen)
    requires offset <= i < |rows| && KnownScenario(scenario)
    ensures var takes := ScenarioMatches(rows[i].attackType, scenario).value
                         && (limit.Some? ==> |chosen| < limit.value);
            EmittedBefore(rows, scenario, offset, limit, i + 1, if takes then chosen + [rows[i]] else chosen)
  {
    var kept := Drop(rows, offset);
    var k := i - (|rows| - |kept|);
    assert kept[k] == rows[i];
    if k == 0 {
      SelectedUpToAll(kept, scenario, limit);
    }
    SelectNext(kept, k, scenario, limit);
  }

  lemma EmittedAtLimit(rows: seq<Row>, scenario: string, offset: int, limit: int, i: nat, chosen: seq<Row>)
    requires EmittedBefore(rows, scenario, offset, Some(limit), i, chosen)
    requires offset <= i < |rows| && KnownScenario(scenario) && |chosen| >= limit
    ensures chosen == Selected(rows, scenario, offset, Some(limit))
  {
    var kept := Drop(rows, offset);
    var k := i - (|rows| - |kept|);
    if k == 0 {
      SelectedUpToAll(kept, scenario, Some(limit));
    }
    LimitReached(kept, k, scenario, limit);
  }

  lemma EmittedAll(rows: seq<Row>, scenario: string, offset: int, limit: Option<int>, chosen: seq<Row>)
    requires EmittedBefore(rows, scenario, offset, limit, |rows|, chosen)
    ensures chosen == if KnownScenario(scenario) then Selected(rows, scenario, offset, limit) else []
    ensures KnownScenario(scenario) || Drop(rows, offset) == []
  {
    if KnownScenario(scenario) {
      SelectedUpToAll(Drop(rows, offset), scenario, limit);
    }
  }

  /** The generator loop: an unknown scenario fails on the first row at or after the offset. */
  method MatchingRows(rows: seq<Row>, scenario: string, offset: int, limit: Option<int>)
    returns (r: Result<seq<Row>, string>)
    ensures r.Err? <==> !KnownScenario(scenario) && Drop(rows, offset) != []
    ensures r.Ok? ==> r.value == if KnownScenario(scenario) then Selected(rows, scenario, offset, limit) else []
  {
    var emitted := 0;
    var chosen: seq<Row> := [];
    for i := 0 to |rows|
      invariant emitted == |chosen| && EmittedBefore(rows, scenario, offset, limit, i, chosen)
    {
      if i < offset {
        continue;
      }
      var matches := ScenarioMatches(rows[i].attackType, scenario);
      if matches.Err? {
        return Err(matches.error);
      }
      EmitRow(rows, scenario, offset, limit, i, chosen);
      if !matches.value {
        continue;
      }
      if limit.Some? && emitted >= limit.value {
        EmittedAtLimit(rows, scenario, offset, limit.value, i, chosen);
        return Ok(chosen);
      }
      emitted := emitted + 1;
      chosen := chosen + [rows[i]];
    }
    EmittedAll(rows, scenario, offset, limit, chosen);
    r := Ok(chosen);
  }

  /** The announced total is the number of rows that will be emitted. */
  method DatasetTotal(rows: seq<Row>, scenario: string, offset: int, limit: Option<int>)
    returns (r: Result<nat, string>)
    ensures r.Err? <==> !KnownScenario(scenario) && Drop(rows, offset) != []
    ensures r.Ok? ==> r.value == if KnownScenario(scenario) then |Selected(rows, scenario, offset, limit)| else 0
  {
    var matching := MatchingRows(rows, scenario, offset, limit);
    r := if matching.Ok? then Ok(|matching.value|) else Err(matching.error);
  }

  // ---------------------------------------------------------------- the controller

  datatype Status = Idle | Running | Paused | Completed | Stopped | Failed

  datatype Mode = CustomMode | DatasetMode

  datatype State = State(
    status: Status, processed: nat, total: nat, error: Option<string>, speed: real,
    scenario: string, mode: Mode, offset: int, limit: Option<int>)

  /** Where the background task is suspended. */
  datatype Phase =
    | Created       // not scheduled yet
    | Blocked       // waiting for the resume event
    | Released      // the resume event woke it; it has not run since
    | Writing       // waiting for the worker thread's transaction
    | Broadcasting  // the transaction committed; waiting for the broadcast
    | Sleeping      // between two observations
    | Done

  /** One replay: what it has to emit, what its transactions stored, and whether one is under way. */
  datatype Job = Job(items: seq<Row>, persisted: seq<Row>, writing: bool)

  /** A replay superseded by a later start, with its final counter. */
  datatype PastJob = PastJob(job: Job, processed: nat)

  datatype Controller = Controller(
    state: State, phase: Phase, cancelled: bool, resume: bool, interval: nat, job: Job, past: seq<PastJob>)

  datatype Request =
    | Custom(observations: seq<Row>, interval: nat, speed: real, scenario: string)
    | Dataset(file: Option<seq<Row>>, interval: nat, speed: real, scenario: string, offset: int, limit: Option<int>)

  datatype Event =
    | Start(request: Request)
    | Pause
    | Resume(speed: Option<real>)
    | Stop
    | TaskRuns(broadcastOk: bool, fetchOk: bool)
    | WriteEnds(ok: bool)
    | LateWriteEnds(index: nat, ok: bool)

  const INITIAL := Controller(
    State(Idle, 0, 0, None, 1.0, "custom", CustomMode, 0, None), Done, false, true, 1000, Job([], [], false), [])

  /** What a start request announces: the rows it will emit, or why it is refused. */
  function Prepare(request: Request): Result<seq<Row>, string> {
    match request
    case Custom(observations, _, _, _) => Ok(observations)
    case Dataset(file, _, _, scenario, offset, limit) =>
      if file.None? then Err("replay dataset is unavailable")
      else
        var valid := ScenarioMatches("__validation__", scenario);
        if valid.Err? then Err(valid.error) else Ok(Selected(file.value, scenario, offset, limit))
  }

  function StartedState(request: Request, total: nat): State {
    match request
    case Custom(observations, _, speed, scenario) =>
      State(Running, 0, total, None, speed, scenario, CustomMode, 0, Some(|observations|))
    case Dataset(_, _, speed, scenario, offset, limit) =>
      State(Running, 0, total, None, speed, scenario, DatasetMode, offset, limit)
  }

  function AfterStart(c: Controller, request: Request): Controller {
    if c.phase != Done || Prepare(request).Err? then c
    else
      var items := Prepare(request).value;
      Controller(StartedState(request, |items|), Created, false, true, request.interval,
                 Job(items, [], false), c.past + [PastJob(c.job, c.state.processed)])
  }

  /** A start takes effect exactly while no background task is alive, and for a dataset only with a file and
      a scenario that is known; then it announces what it will emit. */
  lemma StartTakesEffectIff(c: Controller, request: Request)
    ensures var c' := AfterStart(c, request);
            var accepted := c.phase == Done
                            && (request.Custom? || (request.file.Some? && KnownScenario(request.scenario)));
            if !accepted then c' == c
            else
              && c'.phase == Created && !c'.cancelled && c'.resume && c'.interval == request.interval
              && c'.state == (if request.Custom? then
                                State(Running, 0, |request.observations|, None, request.speed, request.scenario,
                                      CustomMode, 0, Some(|request.observations|))
                              else
                                State(Running, 0, |c'.job.items|, None, request.speed, request.scenario,
                                      DatasetMode, request.offset, request.limit))
              && c'.job.persisted == [] && !c'.job.writing
              && c'.job.items == (if request.Custom? then request.observations
                                  else Selected(request.file.value, request.scenario, request.offset, request.limit))
              && c'.past == c.past + [PastJob(c.job, c.state.processed)]
  {
  }

  function AfterPause(c: Controller): Controller {
    if c.state.status != Running then c
    else c.(resume := false, state := c.state.(status := Paused))
  }

  /** Setting the event wakes a background task that waits for it. */
  function Woken(phase: Phase): Phase {
    if phase == Blocked then Released else phase
  }

  /** The speed changes even when the call is refused. */
  function AfterResume(c: Controller, speed: Option<real>): Controller {
    var state := if speed.Some? then c.state.(speed := speed.value) else c.state;
    if state.status !in {Paused, Running} then c.(state := state)
    else c.(state := state.(status := Running), resume := true, phase := Woken(c.phase))
  }

  function AfterStop(c: Controller): Controller {
    c.(resume := true, phase := Woken(c.phase), cancelled := c.cancelled || c.phase != Done,
       state := c.state.(status := Stopped))
  }

  function Ended(c: Controller, status: Status): Controller {
    c.(phase := Done, state := c.state.(status := status))
  }

  function FailedWith(c: Controller, message: string): Controller {
    Ended(c.(state := c.state.(error := Some(message))), Failed)
  }

  function BeginWrite(c: Controller): Controller {
    c.(phase := Writing, job := c.job.(writing := true))
  }

  /** The head of the loop: ask for the next observation, then wait for the resume event. */
  function Fetch(c: Controller, ok: bool): Controller {
    if !ok then FailedWith(c, "observation")
    else if c.state.processed >= |c.job.items| then Ended(c, Completed)
    else if c.resume then BeginWrite(c)
    else c.(phase := Blocked)
  }

  /** The background task runs from one await to the next, if what it waits for has happened. */
  function AfterTask(c: Controller, broadcastOk: bool, fetchOk: bool): Controller {
    if c.phase == Done then c
    else if c.cancelled then Ended(c, Stopped)
    else
      match c.phase
      case Created | Sleeping => Fetch(c, fetchOk)
      case Blocked | Done => c
      case Released => BeginWrite(c)
      case Writing =>
        if c.job.writing then c
        else if |c.job.persisted| > c.state.processed then c.(phase := Broadcasting)
        else FailedWith(c, "transaction")
      case Broadcasting =>
        if !broadcastOk then FailedWith(c, "broadcast")
        else
          var counted := c.(state := c.state.(processed := c.state.processed + 1));
          if c.interval > 0 then counted.(phase := Sleeping) else Fetch(counted, fetchOk)
  }

  function WriteEnded(job: Job, ok: bool): Job {
    if !job.writing then job
    else if ok && |job.persisted| < |job.items| then
      Job(job.items, job.persisted + [job.items[|job.persisted|]], false)
    else job.(writing := false)
  }

  function Next(c: Controller, event: Event): Controller {
    match event
    case Start(request) => AfterStart(c, request)
    case Pause => AfterPause(c)
    case Resume(speed) => AfterResume(c, speed)
    case Stop => AfterStop(c)
    case TaskRuns(broadcastOk, fetchOk) => AfterTask(c, broadcastOk, fetchOk)
    case WriteEnds(ok) => c.(job := WriteEnded(c.job, ok))
    case LateWriteEnds(index, ok) =>
      if index >= |c.past| then c
      else c.(past := c.past[index := c.past[index].(job := WriteEnded(c.past[index].job, ok))])
  }

  function Exec(c: Controller, events: seq<Event>): Controller {
    if events == [] then c else Next(Exec(c, events[..|events| - 1]), events[|events| - 1])
  }

  // ---------------------------------------------------------------- invariant

  /** What is stored is a prefix of what was announced, at most one row ahead of the counter. */
  ghost predicate JobSound(job: Job, processed: nat) {
    && job.persisted <= job.items
    && processed <= |job.persisted| <= processed + 1
    && (job.writing ==> |job.persisted| == processed < |job.items|)
  }

  ghost predicate PhaseSound(c: Controller) {
    var stored, processed := |c.job.persisted|, c.state.processed;
    match c.phase
    case Created | Sleeping => stored == processed && !c.job.writing
    case Blocked => stored == processed < |c.job.items| && !c.job.writing && !c.resume
    case Released => stored == processed < |c.job.items| && !c.job.writing
    case Writing => processed < |c.job.items|
    case Broadcasting => stored == processed + 1 && !c.job.writing
    case Done => true
  }

  /** The status shown to the operator says what the background task is doing. */
  ghost predicate StatusSound(c: Controller) {
    if c.phase == Done then
      && c.state.status in {Idle, Completed, Stopped, Failed}
      && (c.state.status == Completed ==> c.state.processed == |c.job.items|)
    else if c.cancelled then c.state.status == Stopped && c.resume
    else c.state.status == if c.resume then Running else Paused
  }

  ghost predicate Sound(c: Controller) {
    && c.state.total == |c.job.items|
    && JobSound(c.job, c.state.processed)
    && PhaseSound(c)
    && StatusSound(c)
    && PastSound(c.past)
  }

  ghost predicate PastSound(past: seq<PastJob>) {
    forall i :: 0 <= i < |past| ==> JobSound(past[i].job, past[i].processed)
  }

  lemma WriteKeepsJob(job: Job, processed: nat, ok: bool)
    requires JobSound(job, processed)
    ensures JobSound(WriteEnded(job, ok), processed)
  {
  }

  /** Between two observations: the counter has caught up and nothing is under way. */
  ghost predicate BetweenRows(c: Controller) {
    && c.state.total == |c.job.items|
    && JobSound(c.job, c.state.processed) && |c.job.persisted| == c.state.processed && !c.job.writing
    && !c.cancelled && c.state.status == (if c.resume then Running else Paused)
    && PastSound(c.past)
  }

  lemma EndKeepsSound(c: Controller, status: Status)
    requires Sound(c) && status in {Stopped, Failed}
    ensures Sound(Ended(c, status))
  {
  }

  lemma FailKeepsSound(c: Controller, message: string)
    requires Sound(c)
    ensures Sound(FailedWith(c, message))
  {
    var named := c.(state := c.state.(error := Some(message)));
    assert JobSound(named.job, named.state.processed) && PhaseSound(named);
  }

  lemma FetchKeepsSound(c: Controller, ok: bool)
    requires BetweenRows(c)
    ensures Sound(Fetch(c, ok))
  {
    assert Fetch(c, ok).past == c.past;
  }

  lemma BroadcastKeepsSound(c: Controller, broadcastOk: bool, fetchOk: bool)
    requires Sound(c) && c.phase == Broadcasting && !c.cancelled
    ensures Sound(AfterTask(c, broadcastOk, fetchOk))
  {
    if !broadcastOk {
      FailKeepsSound(c, "broadcast");
    } else {
      var counted := c.(state := c.state.(processed := c.state.processed + 1));
      assert BetweenRows(counted);
      if c.interval == 0 {
        FetchKeepsSound(counted, fetchOk);
      }
    }
  }

  lemma WritingKeepsSound(c: Controller, broadcastOk: bool, fetchOk: bool)
    requires Sound(c) && c.phase == Writing && !c.cancelled
    ensures Sound(AfterTask(c, broadcastOk, fetchOk))
  {
    if !c.job.writing && |c.job.persisted| <= c.state.processed {
      FailKeepsSound(c, "transaction");
    }
  }

  lemma TaskKeepsSound(c: Controller, broadcastOk: bool, fetchOk: bool)
    requires Sound(c)
    ensures Sound(AfterTask(c, broadcastOk, fetchOk))
  {
    if c.phase != Done && c.cancelled {
      EndKeepsSound(c, Stopped);
    } else if c.phase == Created || c.phase == Sleeping {
      FetchKeepsSound(c, fetchOk);
    } else if c.phase == Broadcasting {
      BroadcastKeepsSound(c, broadcastOk, fetchOk);
    } else if c.phase == Writing {
      WritingKeepsSound(c, broadcastOk, fetchOk);
    }
  }

  /** Control calls change neither rows nor counters, except a start, which begins a new job. */
  lemma ControlKeepsSound(c: Controller, event: Event)
    requires Sound(c) && (event.Pause? || event.Resume? || event.Stop?)
    ensures Sound(Next(c, event))
  {
    assert Next(c, event).job == c.job && Next(c, event).past == c.past;
  }

  lemma StartKeepsSound(c: Controller, request: Request)
    requires Sound(c)
    ensures Sound(AfterStart(c, request))
  {
    if c.phase == Done && Prepare(request).Ok? {
      assert PastSound(c.past + [PastJob(c.job, c.state.processed)]);
      assert JobSound(Job(Prepare(request).value, [], false), 0);
    }
  }

  lemma WritesKeepSound(c: Controller, event: Event)
    requires Sound(c) && (event.WriteEnds? || event.LateWriteEnds?)
    ensures Sound(Next(c, event))
  {
    match event
    case WriteEnds(ok) => WriteKeepsJob(c.job, c.state.processed, ok);
    case LateWriteEnds(index, ok) =>
      if index < |c.past| {
        WriteKeepsJob(c.past[index].job, c.past[index].processed, ok);
      }
  }

  lemma NextKeepsSound(c: Controller, event: Event)
    requires Sound(c)
    ensures Sound(Next(c, event))
  {
    match event
    case Start(request) => StartKeepsSound(c, request);
    case TaskRuns(broadcastOk, fetchOk) => TaskKeepsSound(c, broadcastOk, fetchOk);
    case WriteEnds(_) => WritesKeepSound(c, event);
    case LateWriteEnds(_, _) => WritesKeepSound(c, event);
    case _ => ControlKeepsSound(c, event);
  }

  lemma {:induction false} RunIsSound(c: Controller, events: seq<Event>)
    requires Sound(c)
    ensures Sound(Exec(c, events))
  {
    if events != [] {
      RunIsSound(c, events[..|events| - 1]);
      NextKeepsSound(Exec(c, events[..|events| - 1]), events[|events| - 1]);
    }
  }

  /** Main theorem: at every point of every run, and for every replay ever started, the stored rows
      are a prefix of the announced ones, processed <= stored <= processed + 1 and processed <= total;
      a completed replay has stored everything. */
  lemma CounterFollowsStorage(events: seq<Event>)
    ensures var c := Exec(INITIAL, events);
            && c.job.persisted <= c.job.items && c.state.total == |c.job.items|
            && c.state.processed <= |c.job.persisted| <= c.state.processed + 1
            && c.state.processed <= c.state.total
            && (c.state.status == Completed ==> c.state.processed == c.state.total && c.job.persisted == c.job.items)
            && forall i :: 0 <= i < |c.past| ==>
                             && c.past[i].job.persisted <= c.past[i].job.items
                             && c.past[i].processed <= |c.past[i].job.persisted| <= c.past[i].processed + 1
  {
    RunIsSound(INITIAL, events);
  }

  /** Main theorem: in every run the status is running or paused exactly while an uncancelled task is
      alive, and paused exactly while the replay may not begin another observation. */
  lemma StatusTellsTheTruth(events: seq<Event>)
    ensures var c := Exec(INITIAL, events);
            && (c.state.status in {Running, Paused} <==> c.phase != Done && !c.cancelled)
            && (c.state.status == Paused ==> !c.resume)
            && (c.state.status == Running ==> c.resume)
  {
    RunIsSound(INITIAL, events);
  }

  // ---------------------------------------------------------------- pausing and stopping

  /** Rows this replay has stored or is already committed to storing. */
  function Begun(c: Controller): nat {
    |c.job.persisted| + (if c.job.writing || (c.phase == Released && !c.cancelled) then 1 else 0)
  }

  /** The replay cannot begin another observation. */
  ghost predicate Held(c: Controller) {
    c.phase == Done || c.cancelled || !c.resume
  }

  predicate LeavesHeld(event: Event) {
    !event.Start? && !event.Resume?
  }

  lemma HeldStep(c: Controller, event: Event)
    requires Sound(c) && Held(c) && LeavesHeld(event)
    ensures Held(Next(c, event)) && Begun(Next(c, event)) <= Begun(c)
    ensures c.job.persisted <= Next(c, event).job.persisted && Next(c, event).job.items == c.job.items
  {
  }

  lemma {:induction false} HeldRun(c: Controller, events: seq<Event>)
    requires Sound(c) && Held(c) && forall i :: 0 <= i < |events| ==> LeavesHeld(events[i])
    ensures var later := Exec(c, events);
            && Sound(later) && Held(later) && Begun(later) <= Begun(c)
            && c.job.persisted <= later.job.persisted && later.job.items == c.job.items
  {
    if events != [] {
      var before := events[..|events| - 1];
      HeldRun(c, before);
      NextKeepsSound(Exec(c, before), events[|events| - 1]);
      HeldStep(Exec(c, before), events[|events| - 1]);
    }
  }

  /** Main theorem: after a pause took effect in any reachable state, at most the one observation in
      flight is still stored and the counter grows by at most one, until a resume or a new start. */
  lemma PauseLetsAtMostOneFinish(history: seq<Event>, events: seq<Event>)
    requires Exec(INITIAL, history).state.status == Running
    requires forall i :: 0 <= i < |events| ==> LeavesHeld(events[i])
    ensures var paused := Next(Exec(INITIAL, history), Pause);
            var later := Exec(paused, events);
            && paused.state.status == Paused
            && |later.job.persisted| <= |paused.job.persisted| + 1
            && (later.job.persisted != paused.job.persisted ==>
                  paused.phase in {Released, Writing} && |paused.job.persisted| == paused.state.processed)
            && later.state.processed <= paused.state.processed + 1
  {
    RunIsSound(INITIAL, history);
    var c := Exec(INITIAL, history);
    NextKeepsSound(c, Pause);
    HeldRun(Next(c, Pause), events);
  }

  /** Main theorem: after a stop in any reachable state no further observation begins: only a
      transaction whose worker thread was already running can still store its row. */
  lemma StopLetsOnlyTheRunningWriteFinish(history: seq<Event>, events: seq<Event>)
    requires forall i :: 0 <= i < |events| ==> LeavesHeld(events[i])
    ensures var stopped := Next(Exec(INITIAL, history), Stop);
            var later := Exec(stopped, events);
            |later.job.persisted| <= |stopped.job.persisted| + if stopped.job.writing then 1 else 0
  {
    RunIsSound(INITIAL, history);
    var c := Exec(INITIAL, history);
    NextKeepsSound(c, Stop);
    HeldRun(Next(c, Stop), events);
  }

  // ---------------------------------------------------------------- progress

  predicate Background(event: Event) {
    event.TaskRuns? || event.WriteEnds?
  }

  /** Background steps still possible without another control call. */
  function Work(c: Controller): nat
    requires c.state.processed <= |c.job.items|
  {
    var ahead := |c.job.items| - c.state.processed;
    match c.phase
    case Done => if c.job.writing then 1 else 0
    case Created | Sleeping | Released => 4 * ahead + 1
    case Blocked => 4 * ahead
    case Writing => if c.job.writing || ahead == 0 then 4 * ahead else 4 * ahead - 1
    case Broadcasting => if ahead == 0 then 0 else 4 * ahead - 2
  }

  lemma StepUsesWork(c: Controller, event: Event)
    requires Sound(c) && Background(event)
    ensures Sound(Next(c, event))
    ensures Next(c, event) != c ==> Work(Next(c, event)) < Work(c)
  {
    NextKeepsSound(c, event);
  }

  function EffectiveSteps(c: Controller, events: seq<Event>): nat
    decreases |events|
  {
    if events == [] then 0
    else (if Next(c, events[0]) != c then 1 else 0) + EffectiveSteps(Next(c, events[0]), events[1..])
  }

  lemma {:induction false} EffectiveStepsBounded(c: Controller, events: seq<Event>)
    requires Sound(c) && forall i :: 0 <= i < |events| ==> Background(events[i])
    ensures EffectiveSteps(c, events) <= Work(c)
    decreases |events|
  {
    if events != [] {
      StepUsesWork(c, events[0]);
      EffectiveStepsBounded(Next(c, events[0]), events[1..]);
    }
  }

  /** A running replay always has a next step. */
  predicate CanStep(c: Controller) {
    Next(c, TaskRuns(true, true)) != c || Next(c, WriteEnds(true)) != c
  }

  lemma RunningCanStep(c: Controller)
    requires Sound(c) && c.state.status == Running
    ensures CanStep(c)
  {
    if c.phase == Broadcasting {
      assert Next(c, TaskRuns(true, true)).phase != Broadcasting;
    }
  }

  /** Main theorem: left alone, every reachable replay comes to rest after at most four steps an
      observation and one more, and it never rests while its status is running. */
  lemma RunningReplayFinishes(history: seq<Event>, events: seq<Event>)
    requires forall i :: 0 <= i < |events| ==> Background(events[i])
    ensures var c := Exec(INITIAL, history);
            && EffectiveSteps(c, events) <= 4 * (c.state.total - c.state.processed) + 1
            && (c.state.status == Running ==> CanStep(c))
  {
    RunIsSound(INITIAL, history);
    FinishesFrom(Exec(INITIAL, history), events);
  }

  lemma FinishesFrom(c: Controller, events: seq<Event>)
    requires Sound(c) && forall i :: 0 <= i < |events| ==> Background(events[i])
    ensures EffectiveSteps(c, events) <= 4 * (c.state.total - c.state.processed) + 1
    ensures c.state.status == Running ==> CanStep(c)
  {
    EffectiveStepsBounded(c, events);
    if c.state.status == Running {
      RunningCanStep(c);
    }
  }

  // ---------------------------------------------------------------- undisturbed replays

  /** The next step of a replay in which every operation succeeds. */
  function Smooth(c: Controller): Event {
    if c.phase == Writing && c.job.writing then WriteEnds(true) else TaskRuns(true, true)
  }

  function AfterSmooth(c: Controller, n: nat): Controller
    decreases n
  {
    if n == 0 then c else AfterSmooth(Next(c, Smooth(c)), n - 1)
  }

  /** The replay runs, and none of its operations has failed so far. */
  ghost predicate RunsWell(c: Controller) {
    && Sound(c) && c.state.status == Running
    && (c.phase == Writing && !c.job.writing ==> |c.job.persisted| == c.state.processed + 1)
  }

  /** The replay has stored and counted all it announced. */
  ghost predicate HasCompleted(c: Controller, items: seq<Row>) {
    && c.phase == Done && c.state.status == Completed
    && c.job.items == items && c.job.persisted == items && c.state.processed == |items|
  }

  lemma SmoothStep(c: Controller)
    requires RunsWell(c)
    ensures var c' := Next(c, Smooth(c));
            && c'.job.items == c.job.items && c'.state.error == c.state.error
            && (RunsWell(c') || HasCompleted(c', c.job.items))
            && Sound(c') && Work(c') < Work(c)
  {
    RunningCanStep(c);
    StepUsesWork(c, Smooth(c));
  }

  /** Main theorem: from any point of any run, a running replay whose operations succeed and whom no
      control call disturbs stores all it announced, counts it and ends completed, in the steps that
      its work allows. */
  lemma {:induction false} SmoothReplayCompletes(c: Controller) returns (n: nat)
    requires RunsWell(c)
    ensures n <= Work(c) && HasCompleted(AfterSmooth(c, n), c.job.items)
    ensures AfterSmooth(c, n).state.error == c.state.error
    decreases Work(c)
  {
    var c' := Next(c, Smooth(c));
    SmoothStep(c);
    if RunsWell(c') {
      n := SmoothReplayCompletes(c');
      n := n + 1;
    } else {
      n := 1;
      assert AfterSmooth(c', 0) == c';
    }
  }

  /** A resume sets the speed it is given, in every state; it lets a paused or running replay run, and
      changes nothing else otherwise. */
  lemma ResumeRuns(history: seq<Event>, speed: Option<real>)
    ensures var c := Exec(INITIAL, history);
            var c' := Next(c, Resume(speed));
            && c'.state.speed == (if speed.Some? then speed.value else c.state.speed)
            && c'.job == c.job && c'.state.processed == c.state.processed
            && (if c.state.status == Paused || c.state.status == Running then
                  c'.state.status == Running && c'.resume && c'.phase != Blocked
                else c' == c.(state := c.state.(speed := c'.state.speed)))
  {
  }

  /** Main theorem: in every run, a task segment fails the replay exactly when the next observation could
      not be had, the transaction stored nothing, or the broadcast raised; it says which, and neither
      stores nor counts anything. */
  lemma SegmentFailsIff(history: seq<Event>, broadcastOk: bool, fetchOk: bool)
    requires Exec(INITIAL, history).state.status in {Running, Paused}
    ensures var c := Exec(INITIAL, history);
            var c' := Next(c, TaskRuns(broadcastOk, fetchOk));
            var fetches := c.phase == Created || c.phase == Sleeping
                           || (c.phase == Broadcasting && broadcastOk && c.interval == 0);
            var unstored := c.phase == Writing && !c.job.writing && |c.job.persisted| == c.state.processed;
            var unsent := c.phase == Broadcasting && !broadcastOk;
            && (c'.state.status == Failed <==> (fetches && !fetchOk) || unstored || unsent)
            && (c'.state.status == Failed ==>
                  && c'.phase == Done && c'.job == c.job
                  && c'.state.error == Some(if unstored then "transaction" else if unsent then "broadcast"
                                            else "observation"))
  {
    RunIsSound(INITIAL, history);
  }

  /** A transaction that rolls back stores nothing and is noticed by the next segment. */
  lemma FailedWriteIsNoticed(history: seq<Event>, broadcastOk: bool, fetchOk: bool)
    requires var c := Exec(INITIAL, history);
             c.state.status == Running && c.phase == Writing && c.job.writing
    ensures var c := Exec(INITIAL, history);
            var c' := Next(Next(c, WriteEnds(false)), TaskRuns(broadcastOk, fetchOk));
            c'.state.status == Failed && c'.job.persisted == c.job.persisted && !c'.job.writing
  {
    RunIsSound(INITIAL, history);
  }

  /** The background task sleeps exactly between two observations of a replay with an interval. */
  lemma SleepsIff(history: seq<Event>, broadcastOk: bool, fetchOk: bool)
    requires Exec(INITIAL, history).phase != Sleeping
    ensures var c := Exec(INITIAL, history);
            Next(c, TaskRuns(broadcastOk, fetchOk)).phase == Sleeping <==>
            c.phase == Broadcasting && !c.cancelled && broadcastOk && c.interval > 0
  {
  }

  /** A transaction that outlives its replay still stores the row that was under way, and no other. */
  lemma LateWriteStoresItsRow(history: seq<Event>, index: nat, ok: bool)
    requires index < |Exec(INITIAL, history).past| && Exec(INITIAL, history).past[index].job.writing
    ensures var c := Exec(INITIAL, history);
            var c' := Next(c, LateWriteEnds(index, ok));
            var before, after := c.past[index].job, c'.past[index].job;
            && !after.writing && |before.persisted| < |before.items|
            && after.persisted == before.persisted + (if ok then [before.items[|before.persisted|]] else [])
            && c' == c.(past := c.past[index := PastJob(after, c.past[index].processed)])
  {
    RunIsSound(INITIAL, history);
  }
}
