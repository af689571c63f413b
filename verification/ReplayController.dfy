/** The replay controller as the object the API holds: each call and each task segment updates its
    fields in place and is proved equal to the step the theorems are about. */
module ReplayController {
  import opened Replay
  import opened Wrappers

  class DatasetReplay {
    var state: State
    var phase: Phase
    var cancelled: bool
    var resumeSet: bool
    var interval: nat
    var job: Job
    var past: seq<PastJob>

    constructor ()
      ensures View() == INITIAL
    {
      state, phase, cancelled, resumeSet := INITIAL.state, Done, false, true;
      interval, job, past := 1000, INITIAL.job, [];
    }

    function View(): Controller
      reads this
    {
      Controller(state, phase, cancelled, resumeSet, interval, job, past)
    }

    /** Refuses a new replay while the background task of the last one is alive. */
    method EnsureIdle() returns (r: Result<(), string>)
      ensures r.Ok? <==> phase == Done
    {
      if phase != Done {
        return Err("replay is already running");
      }
      r := Ok(());
    }

    method Launch(items: seq<Row>, announced: State, intervalMs: nat)
      modifies this
      ensures View() == Controller(announced, Created, false, true, intervalMs, Job(items, [], false),
                                   old(past) + [PastJob(old(job), old(state).processed)])
    {
      interval := intervalMs;
      resumeSet := true;
      past := past + [PastJob(job, state.processed)];
      state := announced;
      job := Job(items, [], false);
      phase, cancelled := Created, false;
    }

    method StartCustom(observations: seq<Row>, intervalMs: nat, speed: real, scenario: string)
      returns (r: Result<(), string>)
      modifies this
      ensures View() == AfterStart(old(View()), Custom(observations, intervalMs, speed, scenario))
      ensures r.Ok? <==> old(phase) == Done
    {
      r := EnsureIdle();
      if r.Ok? {
        var total := |observations|;
        Launch(observations, State(Running, 0, total, None, speed, scenario, CustomMode, 0, Some(total)), intervalMs);
      }
    }

    /** Checks everything that can be checked before the background task is created. */
    method CountDataset(file: Option<seq<Row>>, scenario: string, offset: int, limit: Option<int>)
      returns (r: Result<nat, string>)
      ensures r.Ok? <==> phase == Done && file.Some? && KnownScenario(scenario)
      ensures r.Ok? ==> r.value == |Selected(file.value, scenario, offset, limit)|
    {
      var idle := EnsureIdle();
      if idle.Err? {
        return Err(idle.error);
      }
      if file.None? {
        return Err("replay dataset is unavailable");
      }
      var valid := ScenarioMatches("__validation__", scenario);
      if valid.Err? {
        return Err(valid.error);
      }
      r := DatasetTotal(file.value, scenario, offset, limit);
    }

    /** The total announced first is the number of rows the replay is given afterwards. */
    method StartDataset(file: Option<seq<Row>>, intervalMs: nat, speed: real, scenario: string, offset: int,
                        limit: Option<int>)
      returns (r: Result<(), string>)
      modifies this
      ensures View() == AfterStart(old(View()), Dataset(file, intervalMs, speed, scenario, offset, limit))
      ensures r.Ok? <==> old(phase) == Done && file.Some? && KnownScenario(scenario)
    {
      var counted := CountDataset(file, scenario, offset, limit);
      if counted.Err? {
        return Err(counted.error);
      }
      var rows := MatchingRows(file.value, scenario, offset, limit);
      Launch(rows.value, State(Running, 0, counted.value, None, speed, scenario, DatasetMode, offset, limit),
             intervalMs);
      r := Ok(());
    }

    method SetResumeEvent()
      modifies `resumeSet, `phase
      ensures resumeSet && phase == Woken(old(phase))
    {
      resumeSet := true;
      if phase == Blocked {
        phase := Released;
      }
    }

    method PauseReplay() returns (r: Result<(), string>)
      modifies this
      ensures View() == AfterPause(old(View()))
      ensures r.Ok? <==> old(state).status == Running
    {
      if state.status != Running {
        return Err("only a running replay can be paused");
      }
      resumeSet := false;
      state := state.(status := Paused);
      r := Ok(());
    }

    method ResumeReplay(speed: Option<real>) returns (r: Result<(), string>)
      modifies this
      ensures View() == AfterResume(old(View()), speed)
      ensures r.Ok? <==> old(state).status in {Paused, Running}
    {
      if speed.Some? {
        state := state.(speed := speed.value);
      }
      if state.status != Paused && state.status != Running {
        return Err("only a paused or running replay can be resumed");
      }
      state := state.(status := Running);
      SetResumeEvent();
      r := Ok(());
    }

    method StopReplay()
      modifies this
      ensures View() == AfterStop(old(View()))
    {
      SetResumeEvent();
      if phase != Done {
        cancelled := true;
      }
      state := state.(status := Stopped);
    }

    method FetchNext(ok: bool)
      modifies this
      ensures View() == Fetch(old(View()), ok)
    {
      if !ok {
        state := state.(status := Failed, error := Some("observation"));
        phase := Done;
      } else if state.processed >= |job.items| {
        state := state.(status := Completed);
        phase := Done;
      } else if resumeSet {
        phase, job := Writing, job.(writing := true);
      } else {
        phase := Blocked;
      }
    }

    /** One uninterrupted segment of the background task. */
    method RunTask(broadcastOk: bool, fetchOk: bool)
      modifies this
      ensures View() == AfterTask(old(View()), broadcastOk, fetchOk)
    {
      if phase == Done {
        return;
      }
      if cancelled {
        state := state.(status := Stopped);
        phase := Done;
        return;
      }
      match phase {
        case Created => FetchNext(fetchOk);
        case Sleeping => FetchNext(fetchOk);
        case Released =>
          phase, job := Writing, job.(writing := true);
        case Writing =>
          if !job.writing {
            if |job.persisted| > state.processed {
              phase := Broadcasting;
            } else {
              state := state.(status := Failed, error := Some("transaction"));
              phase := Done;
            }
          }
        case Broadcasting =>
          if !broadcastOk {
            state := state.(status := Failed, error := Some("broadcast"));
            phase := Done;
          } else {
            state := state.(processed := state.processed + 1);
            if interval > 0 {
              phase := Sleeping;
            } else {
              FetchNext(fetchOk);
            }
          }
        case Blocked =>
        case Done =>
      }
    }

    /** The worker thread of the current replay commits or rolls back. */
    method FinishWrite(ok: bool)
      modifies `job
      ensures job == WriteEnded(old(job), ok)
    {
      if job.writing {
        if ok && |job.persisted| < |job.items| {
          job := job.(persisted := job.persisted + [job.items[|job.persisted|]]);
        }
        job := job.(writing := false);
      }
    }
  }
}
