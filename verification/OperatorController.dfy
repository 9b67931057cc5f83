// The dashboard controller: an object whose methods run under one lock and update its fields.
module OperatorController {
  import opened Wrappers
  import opened ControllerState

  class RuntimeThread {
    var alive: bool

    constructor ()
      ensures alive
    {
      alive := true;
    }
  }

  class Controller {
    var runtimeThread: RuntimeThread?
    var stopEvent: bool
    var runtimeStatus: UiStatus
    var latestPayload: Option<Payload>
    var lastRuntimeStatus: LoopStatus
    var configuredScenario: string
    var scenarioStartCycle: int
    var configuredPower: real
    var lastError: Option<string>
    var actionLog: seq<Action>
    // Every action ever recorded; the log keeps the last of them.
    ghost var issued: seq<Action>

    ghost function View(): Shared
      reads this
    {
      Shared(stopEvent, runtimeStatus, latestPayload, lastRuntimeStatus,
             Config(configuredPower, configuredScenario, scenarioStartCycle), lastError, actionLog)
    }

    ghost predicate Valid()
      reads this
    {
      && MINIMUM_POWER <= configuredPower <= MAXIMUM_POWER
      && actionLog == Last(issued, ACTION_LOG_LIMIT)
    }

    ghost function ThreadAlive(): bool
      reads this, runtimeThread
    {
      runtimeThread != null && runtimeThread.alive
    }

    constructor (scenario: string, scenarioStart: int, power: real)
      ensures Valid() && View() == Initial(scenario, scenarioStart, power)
      ensures configuredScenario == (if scenario == "" then "normal" else scenario) && runtimeStatus == Stopped
      ensures runtimeThread == null && issued == []
    {
      runtimeThread := null;
      stopEvent := false;
      runtimeStatus := Stopped;
      latestPayload := None;
      lastRuntimeStatus := NotStarted;
      configuredScenario := ScenarioOrNormal(scenario);
      scenarioStartCycle := Max1(scenarioStart);
      configuredPower := ClampPower(power);
      lastError := None;
      actionLog := [];
      issued := [];
      ClampStaysInRange(power);
    }

    method AppendAction(action: Action)
      requires Valid()
      modifies `actionLog, `issued
      ensures Valid() && actionLog == Append(old(actionLog), action) && issued == old(issued) + [action]
    {
      AppendKeepsLast(issued, action);
      if |actionLog| == ACTION_LOG_LIMIT {
        actionLog := actionLog[1..];
      }
      actionLog := actionLog + [action];
      issued := issued + [action];
    }

    method CurrentCycleLocked() returns (cycle: nat)
      ensures cycle == CurrentCycle(View())
    {
      cycle := if latestPayload.None? then 0 else latestPayload.value.currentCycle;
    }

    method StartRuntime()
      requires Valid()
      modifies this
      ensures Valid() && View() == AfterStart(old(View()), old(ThreadAlive()))
      ensures ThreadAlive()
      ensures if old(ThreadAlive()) then runtimeThread == old(runtimeThread) else fresh(runtimeThread)
      ensures issued == old(issued) + [StartAction(old(View()), old(ThreadAlive()))]
      ensures !old(ThreadAlive()) ==> runtimeStatus == Starting && !stopEvent && latestPayload == None && lastError == None
      ensures old(ThreadAlive()) ==> runtimeStatus == old(runtimeStatus) && stopEvent == old(stopEvent)
    {
      hide Append, Last, ClampPower;
      if runtimeThread != null && runtimeThread.alive {
        var cycle := CurrentCycleLocked();
        AppendAction(Action(ControllerState.StartRuntime, cycle + 1, AlreadyRunning));
        return;
      }
      stopEvent := false;
      runtimeStatus := Starting;
      lastError := None;
      latestPayload := None;
      lastRuntimeStatus := LoopStarting;
      AppendAction(Action(ControllerState.StartRuntime, 1, CommandStarted));
      runtimeThread := new RuntimeThread();
    }

    // exitsMeanwhile: the thread, seen alive, exits before it is asked again.
    method StopRuntime(exitsMeanwhile: bool)
      requires Valid()
      modifies this, runtimeThread
      ensures Valid() && runtimeThread == old(runtimeThread)
      ensures View() == AfterStop(old(View()), old(ThreadAlive()), old(ThreadAlive()) && !exitsMeanwhile)
      ensures ThreadAlive() == (old(ThreadAlive()) && !exitsMeanwhile)
      ensures issued == old(issued) + [StopAction(old(View()), ThreadAlive())]
      ensures stopEvent && runtimeStatus == if old(ThreadAlive()) then Stopping else Stopped
    {
      var cycle := CurrentCycleLocked();
      stopEvent := true;
      if runtimeThread != null && runtimeThread.alive {
        runtimeStatus := Stopping;
      } else {
        runtimeStatus := Stopped;
      }
      if runtimeThread != null && exitsMeanwhile {
        runtimeThread.alive := false;
      }
      var scope := if runtimeThread != null && runtimeThread.alive then StopRequested else AlreadyStopped;
      AppendAction(Action(ControllerState.StopRuntime, cycle + 1, scope));
    }

    // Fails with the ValueError of an unsupported name, leaving everything as it was.
    method SetScenario(name: string) returns (r: Result<(), string>)
      requires Valid()
      modifies this
      ensures Valid() && View() == AfterSetScenario(old(View()), name)
      ensures r.Ok? <==> ScenarioOrNormal(name) in SUPPORTED_SCENARIOS
      ensures issued == old(issued) + (if r.Ok? then [SetScenarioAction(old(View()), name)] else [])
      ensures runtimeThread == old(runtimeThread) && configuredPower == old(configuredPower)
      ensures r.Ok? ==>
                && configuredScenario == (if name == "" then "normal" else name)
                && scenarioStartCycle == if old(runtimeStatus) == Stopped || old(latestPayload).None? then 1
                                         else old(latestPayload).value.currentCycle + 1
      ensures r.Err? ==> unchanged(this)
    {
      var scenario := ScenarioOrNormal(name);
      if scenario !in SUPPORTED_SCENARIOS {
        return Err(scenario);
      }
      var live := runtimeStatus in {Starting, Running, Stopping};
      var cycle := CurrentCycleLocked();
      var appliesOn := if !live then 1 else cycle + 1;
      configuredScenario := scenario;
      scenarioStartCycle := appliesOn;
      AppendAction(Action(ControllerState.SetScenario(scenario), appliesOn, if live then AppliesNextCycle else UntilNextStart));
      return Ok(());
    }

    method SetPower(level: real)
      requires Valid()
      modifies this
      ensures Valid() && View() == AfterSetPower(old(View()), level)
      ensures issued == old(issued) + [SetPowerAction(old(View()), level)]
      ensures runtimeThread == old(runtimeThread) && configuredPower == ClampPower(level)
      ensures configuredScenario == old(configuredScenario) && scenarioStartCycle == old(scenarioStartCycle)
    {
      ClampStaysInRange(level);
      var power := ClampPower(level);
      var live := runtimeStatus in {Starting, Running, Stopping};
      var cycle := CurrentCycleLocked();
      var appliesOn := if !live then 1 else cycle + 1;
      configuredPower := power;
      AppendAction(Action(ControllerState.SetPower(power), appliesOn, if live then AppliesNextCycle else UntilNextStart));
    }

    method RecordRuntimePayload(payload: Payload)
      requires Valid()
      modifies this
      ensures Valid() && View() == AfterRecord(old(View()), payload)
      ensures latestPayload == Some(payload) && lastRuntimeStatus == payload.status
      ensures runtimeStatus == if payload.status == Active then Running
                               else if old(runtimeStatus) == Stopping then Stopping else Stopped
      ensures runtimeThread == old(runtimeThread) && issued == old(issued)
    {
      latestPayload := Some(payload);
      lastRuntimeStatus := payload.status;
      if payload.status == Active {
        runtimeStatus := Running;
      } else if runtimeStatus != Stopping {
        runtimeStatus := Stopped;
      }
    }

    method CurrentRuntimeConfig() returns (config: Config)
      ensures config == View().config
    {
      config := Config(configuredPower, configuredScenario, scenarioStartCycle);
    }

    // The exception handler of the runtime thread.
    method FailRuntime(message: string)
      requires Valid()
      modifies this
      ensures Valid() && View() == AfterFailure(old(View()), message)
      ensures issued == old(issued) + [FailureAction(old(View()), message)]
      ensures lastError == Some(message) && runtimeStatus == Stopped && lastRuntimeStatus == Failed
      ensures runtimeThread == old(runtimeThread)
    {
      hide Append, Last, ClampPower;
      lastError := Some(message);
      runtimeStatus := Stopped;
      lastRuntimeStatus := Failed;
      var cycle := CurrentCycleLocked();
      AppendAction(Action(RuntimeError(message), cycle + 1, ErrorScope));
    }

    // The first half of its `finally`, which runs outside the lock.
    method ClearStop()
      requires Valid()
      modifies `stopEvent
      ensures Valid() && View() == AfterClear(old(View())) && !stopEvent
    {
      stopEvent := false;
    }

    // The second half, under the lock.
    method FinishRuntime()
      requires Valid()
      modifies `runtimeStatus
      ensures Valid() && View() == AfterFinish(old(View())) && runtimeStatus == Stopped
    {
      if runtimeStatus != Stopped {
        runtimeStatus := Stopped;
      }
    }
  }
}
