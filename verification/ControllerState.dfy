// The operator controller's shared state, and what each of its critical sections does to it.
module ControllerState {
  import opened Wrappers
  import opened Rounding

  const ACTION_LOG_LIMIT := 32
  const MINIMUM_POWER := 0.0
  const MAXIMUM_POWER := 100.0
  const SUPPORTED_SCENARIOS: seq<string> :=
    ["normal", "scada_replay", "scada_freeze", "scada_divergence", "single_edge_exclusion", "quorum_loss"]

  datatype UiStatus = Stopped | Starting | Running | Stopping

  datatype LoopStatus = NotStarted | LoopStarting | Active | Completed | StoppedOperator | Failed

  datatype Payload = Payload(status: LoopStatus, currentCycle: nat)

  datatype Scope = AlreadyRunning | CommandStarted | StopRequested | AlreadyStopped
                 | AppliesNextCycle | UntilNextStart | ErrorScope

  datatype Command = StartRuntime | StopRuntime | SetScenario(name: string) | SetPower(level: real)
                   | RuntimeError(message: string)

  datatype Action = Action(command: Command, appliesOnCycle: nat, scope: Scope)

  datatype Config = Config(power: real, scenario: string, scenarioStart: int)

  datatype Shared = Shared(
    stopRequested: bool,
    status: UiStatus,
    payload: Option<Payload>,
    lastStatus: LoopStatus,
    config: Config,
    lastError: Option<string>,
    log: seq<Action>)

  function Max1(x: int): (r: int)
    ensures r >= 1 && r >= x
  {
    if x < 1 then 1 else x
  }

  function ClampPower(value: real): real {
    Round3(Min(Max(value, MINIMUM_POWER), MAXIMUM_POWER))
  }

  function ScenarioOrNormal(name: string): string {
    if name == "" then "normal" else name
  }

  // A deque of bounded length: appending to a full one drops the oldest entry.
  function Append(log: seq<Action>, action: Action): seq<Action> {
    var longer := log + [action];
    if |longer| > ACTION_LOG_LIMIT then longer[|longer| - ACTION_LOG_LIMIT..] else longer
  }

  function Last(actions: seq<Action>, n: nat): seq<Action> {
    if |actions| <= n then actions else actions[|actions| - n..]
  }

  function CurrentCycle(s: Shared): nat {
    if s.payload.None? then 0 else s.payload.value.currentCycle
  }

  predicate IsActive(s: Shared) {
    s.status == Starting || s.status == Running || s.status == Stopping
  }

  // The cycle number recorded with a scenario or power command.
  function AppliesOn(s: Shared): nat {
    if IsActive(s) then CurrentCycle(s) + 1 else 1
  }

  function Initial(scenario: string, scenarioStart: int, power: real): Shared {
    Shared(false, Stopped, None, NotStarted,
           Config(ClampPower(power), ScenarioOrNormal(scenario), Max1(scenarioStart)), None, [])
  }

  function StartAction(s: Shared, alive: bool): Action {
    if alive then Action(StartRuntime, CurrentCycle(s) + 1, AlreadyRunning)
    else Action(StartRuntime, 1, CommandStarted)
  }

  function AfterStart(s: Shared, alive: bool): Shared {
    var logged := s.(log := Append(s.log, StartAction(s, alive)));
    if alive then logged
    else
      logged.(stopRequested := false, status := Starting, lastError := None, payload := None, lastStatus := LoopStarting)
  }

  function StopAction(s: Shared, stillAlive: bool): Action {
    Action(StopRuntime, CurrentCycle(s) + 1, if stillAlive then StopRequested else AlreadyStopped)
  }

  // The thread is asked twice whether it is alive, and may exit in between.
  function AfterStop(s: Shared, alive: bool, stillAlive: bool): Shared {
    s.(stopRequested := true,
       status := if alive then Stopping else Stopped,
       log := Append(s.log, StopAction(s, stillAlive)))
  }

  function ConfigScope(s: Shared): Scope {
    if IsActive(s) then AppliesNextCycle else UntilNextStart
  }

  function SetScenarioAction(s: Shared, name: string): Action {
    Action(SetScenario(ScenarioOrNormal(name)), AppliesOn(s), ConfigScope(s))
  }

  function AfterSetScenario(s: Shared, name: string): Shared {
    var scenario := ScenarioOrNormal(name);
    if scenario !in SUPPORTED_SCENARIOS then s
    else
      s.(config := s.config.(scenario := scenario, scenarioStart := AppliesOn(s)),
         log := Append(s.log, SetScenarioAction(s, name)))
  }

  function SetPowerAction(s: Shared, level: real): Action {
    Action(SetPower(ClampPower(level)), AppliesOn(s), ConfigScope(s))
  }

  function AfterSetPower(s: Shared, level: real): Shared {
    s.(config := s.config.(power := ClampPower(level)),
       log := Append(s.log, SetPowerAction(s, level)))
  }

  function AfterRecord(s: Shared, payload: Payload): Shared {
    s.(payload := Some(payload), lastStatus := payload.status,
       status := if payload.status == Active then Running else if s.status != Stopping then Stopped else Stopping)
  }

  function FailureAction(s: Shared, message: string): Action {
    Action(RuntimeError(message), CurrentCycle(s) + 1, ErrorScope)
  }

  function AfterFailure(s: Shared, message: string): Shared {
    s.(lastError := Some(message), status := Stopped, lastStatus := Failed,
       log := Append(s.log, FailureAction(s, message)))
  }

  function AfterClear(s: Shared): Shared {
    s.(stopRequested := false)
  }

  function AfterFinish(s: Shared): Shared {
    s.(status := Stopped)
  }

  // Levels below 0 and above 100 become these, and a level between is only rounded.
  lemma ClampStaysInRange(value: real)
    ensures MINIMUM_POWER == 0.0 <= ClampPower(value) <= 100.0 == MAXIMUM_POWER
    ensures value <= 0.0 ==> ClampPower(value) == 0.0
    ensures value >= 100.0 ==> ClampPower(value) == 100.0
    ensures 0.0 <= value <= 100.0 ==> IsPublished(ClampPower(value), value)
  {
    var clamped := Min(Max(value, MINIMUM_POWER), MAXIMUM_POWER);
    Round3Monotone(0.0, clamped);
    Round3Monotone(clamped, 100.0);
    Round3OnGrid(0);
    Round3OnGrid(100000);
    Round3IsPublished(value);
  }

  // Appending to the deque keeps it equal to the most recent actions.
  lemma AppendKeepsLast(issued: seq<Action>, action: Action)
    ensures Append(Last(issued, ACTION_LOG_LIMIT), action) == Last(issued + [action], ACTION_LOG_LIMIT)
  {
  }

  // ---- what each command does, field by field ----

  lemma AtTheStart(scenario: string, scenarioStart: int, power: real)
    ensures var s := Initial(scenario, scenarioStart, power);
            && !s.stopRequested && s.status == Stopped && s.payload == None && s.lastStatus == NotStarted
            && s.config.scenario == (if scenario == "" then "normal" else scenario)
            && s.config.scenarioStart == (if scenarioStart < 1 then 1 else scenarioStart)
            && s.config.power == ClampPower(power) && s.lastError == None && s.log == []
  {
  }

  // A start of a live runtime is only logged; any other forgets the last run and shows the runtime starting.
  lemma StartDoes(s: Shared, alive: bool)
    ensures var t, cycle := AfterStart(s, alive), if s.payload.None? then 0 else s.payload.value.currentCycle;
            && t.config == s.config
            && t.log == Append(s.log, if alive then Action(StartRuntime, cycle + 1, AlreadyRunning)
                                      else Action(StartRuntime, 1, CommandStarted))
            && (if alive then
                  && t.stopRequested == s.stopRequested && t.status == s.status && t.payload == s.payload
                  && t.lastStatus == s.lastStatus && t.lastError == s.lastError
                else
                  && !t.stopRequested && t.status == Starting && t.payload == None
                  && t.lastStatus == LoopStarting && t.lastError == None)
  {
    hide Append;
  }

  // A stop is always requested; it shows a live runtime stopping and any other stopped.
  lemma StopDoes(s: Shared, alive: bool, stillAlive: bool)
    ensures var t, cycle := AfterStop(s, alive, stillAlive), if s.payload.None? then 0 else s.payload.value.currentCycle;
            && t.stopRequested && t.status == (if alive then Stopping else Stopped)
            && t.log == Append(s.log, Action(StopRuntime, cycle + 1, if stillAlive then StopRequested else AlreadyStopped))
            && t.payload == s.payload && t.lastStatus == s.lastStatus && t.config == s.config && t.lastError == s.lastError
  {
    hide Append;
  }

  // The cycle from which a change of configuration is recorded to apply.
  ghost function FromCycle(s: Shared): nat {
    if s.status == Stopped then 1 else if s.payload.None? then 1 else s.payload.value.currentCycle + 1
  }

  ghost function ChangeScope(s: Shared): Scope {
    if s.status == Stopped then UntilNextStart else AppliesNextCycle
  }

  // A supported name becomes the configured scenario from the recorded cycle on; no other name changes anything.
  lemma SetScenarioDoes(s: Shared, name: string)
    ensures var t, scenario := AfterSetScenario(s, name), if name == "" then "normal" else name;
            if scenario in {"normal", "scada_replay", "scada_freeze", "scada_divergence", "single_edge_exclusion", "quorum_loss"} then
              && t.config == Config(s.config.power, scenario, FromCycle(s))
              && t.log == Append(s.log, Action(SetScenario(scenario), FromCycle(s), ChangeScope(s)))
              && t.stopRequested == s.stopRequested && t.status == s.status && t.payload == s.payload
              && t.lastStatus == s.lastStatus && t.lastError == s.lastError
            else t == s
  {
    hide Append;
  }

  // The clamped level becomes the configured power, and nothing else of the configuration changes.
  lemma SetPowerDoes(s: Shared, level: real)
    ensures var t, power := AfterSetPower(s, level), ClampPower(level);
            && t.config == Config(power, s.config.scenario, s.config.scenarioStart)
            && t.log == Append(s.log, Action(SetPower(power), FromCycle(s), ChangeScope(s)))
            && t.stopRequested == s.stopRequested && t.status == s.status && t.payload == s.payload
            && t.lastStatus == s.lastStatus && t.lastError == s.lastError
  {
    hide Append, ClampPower;
  }

  // A payload of the thread is kept; an active one shows the runtime running, any other shows it stopped unless
  // a stop is shown in progress.
  lemma RecordDoes(s: Shared, payload: Payload)
    ensures var t := AfterRecord(s, payload);
            && t.payload == Some(payload) && t.lastStatus == payload.status
            && (payload.status == Active ==> t.status == Running)
            && (payload.status != Active && s.status == Stopping ==> t.status == Stopping)
            && (payload.status != Active && s.status != Stopping ==> t.status == Stopped)
            && t.stopRequested == s.stopRequested && t.config == s.config && t.lastError == s.lastError && t.log == s.log
  {
  }

  // A runtime error is kept, shown and logged; the stop request, the payload and the configuration stay.
  lemma FailureDoes(s: Shared, message: string)
    ensures var t, cycle := AfterFailure(s, message), if s.payload.None? then 0 else s.payload.value.currentCycle;
            && t.lastError == Some(message) && t.status == Stopped && t.lastStatus == Failed
            && t.log == Append(s.log, Action(RuntimeError(message), cycle + 1, ErrorScope))
            && t.stopRequested == s.stopRequested && t.payload == s.payload && t.config == s.config
  {
    hide Append;
  }

  // The two halves of the thread's last block: the stop request goes, then the runtime is shown stopped.
  lemma EndDoes(s: Shared)
    ensures !AfterClear(s).stopRequested && AfterClear(s).(stopRequested := s.stopRequested) == s
    ensures AfterFinish(s).status == Stopped && AfterFinish(s).(status := s.status) == s
  {
  }
}
