// Every interleaving of operator commands with the runtime thread, as a state machine whose
// steps are the critical sections and the unprotected actions of the thread.
module RuntimeProtocol {
  import opened Wrappers
  import opened ControllerState

  // Where a runtime thread stands.
  datatype Pc =
    | Loading            // importing the demo module, outside the try block
    | Building           // building the components from a first configuration
    | Calling            // taking a second configuration for the loop
    | Top                // about to take the configuration of the next cycle
    | CheckStop          // configuration taken, about to look at the stop event
    | CheckLimit         // no stop seen, about to look at the cycle limit
    | Begin              // about to count the next cycle
    | Executing
    | Publishing         // cycle in the history, payload not yet recorded
    | Sleeping
    | PublishStopped     // stop seen, final payload not yet recorded
    | PublishCompleted   // limit reached at the top
    | Recording          // loop returned, payload about to be recorded once more
    | Failing            // exception caught
    | Clearing           // about to clear the stop event
    | Finishing          // about to set the status to stopped
    | Exiting            // target returned, thread not yet gone
    | Dead(loaded: bool) // loaded: the module import succeeded

  // cycle: the loop counter.  history: entries of the cycle history.  seen: the last configuration taken.
  // finalStatus: status of the payload the loop returned.  lastStop: where the last stop found the thread.
  datatype Thread = Thread(pc: Pc, cycle: nat, history: nat, seen: Config, finalStatus: LoopStatus, lastStop: Option<Pc>)

  datatype System = System(shared: Shared, threads: seq<Thread>, handle: Option<nat>, issued: seq<Action>, maxCycles: int)

  datatype Label =
    | OpStart
    | OpStop(exitsMeanwhile: bool)
    | OpSetScenario(name: string)
    | OpSetPower(level: real)
    | Advance(thread: nat)
    | Raise(thread: nat, message: string)

  predicate Alive(t: Thread) {
    !t.pc.Dead?
  }

  predicate HandleAlive(m: System) {
    m.handle.Some? && m.handle.value < |m.threads| && Alive(m.threads[m.handle.value])
  }

  // ---- the steps ----

  function Start(scenario: string, scenarioStart: int, power: real, maxCycles: int): System {
    System(Initial(scenario, scenarioStart, power), [], None, [], maxCycles)
  }

  function WillContinue(m: System, t: Thread): bool {
    m.maxCycles <= 0 || t.cycle < m.maxCycles
  }

  function AdvanceThread(m: System, t: Thread): (Shared, Thread) {
    var s := m.shared;
    match t.pc
    case Loading => (s, t.(pc := Building))
    case Building => (s, t.(pc := Calling))
    case Calling => (s, t.(pc := Top))
    case Top => (s, t.(pc := CheckStop, seen := s.config))
    case CheckStop => (s, t.(pc := if s.stopRequested then PublishStopped else CheckLimit))
    case CheckLimit => (s, t.(pc := if m.maxCycles > 0 && t.cycle >= m.maxCycles then PublishCompleted else Begin))
    case Begin => (s, t.(pc := Executing, cycle := t.cycle + 1))
    case Executing => (s, t.(pc := Publishing, history := t.history + 1))
    case Publishing =>
      if WillContinue(m, t) then (AfterRecord(s, Payload(Active, t.history)), t.(pc := Sleeping))
      else (AfterRecord(s, Payload(Completed, t.history)), t.(pc := Recording, finalStatus := Completed))
    case Sleeping => (s, t.(pc := if s.stopRequested then PublishStopped else Top))
    case PublishStopped => (AfterRecord(s, Payload(StoppedOperator, t.history)), t.(pc := Recording, finalStatus := StoppedOperator))
    case PublishCompleted => (AfterRecord(s, Payload(Completed, t.history)), t.(pc := Recording, finalStatus := Completed))
    case Recording => (AfterRecord(s, Payload(t.finalStatus, t.history)), t.(pc := Clearing))
    case Failing => (s, t)
    case Clearing => (AfterClear(s), t.(pc := Finishing))
    case Finishing => (AfterFinish(s), t.(pc := Exiting))
    case Exiting => (s, t.(pc := Dead(true)))
    case Dead(_) => (s, t)
  }

  // An exception: before the try block it ends the thread, inside it the handler catches it.
  // At Failing, the handler itself runs.
  function RaiseIn(m: System, t: Thread, message: string): (Shared, Thread) {
    var s := m.shared;
    match t.pc
    case Loading => (s, t.(pc := Dead(false)))
    case Failing => (AfterFailure(s, message), t.(pc := Clearing))
    case Clearing => (s, t)
    case Finishing => (s, t)
    case Exiting => (s, t)
    case Dead(_) => (s, t)
    case _ => (s, t.(pc := Failing))
  }

  function RaisedActions(s: Shared, t: Thread, message: string): seq<Action> {
    if t.pc == Failing then [FailureAction(s, message)] else []
  }

  // A stop may see the thread die between its two looks, on its way out or still importing.
  function AfterStopOf(t: Thread, exitsMeanwhile: bool): Thread {
    t.(lastStop := Some(t.pc),
       pc := if exitsMeanwhile && t.pc == Exiting then Dead(true)
             else if exitsMeanwhile && t.pc == Loading then Dead(false)
             else t.pc)
  }

  // One step; a step of a thread that does not exist changes nothing.
  function Step(m: System, l: Label): System {
    var s := m.shared;
    match l
    case OpStart =>
      var alive := HandleAlive(m);
      var next := m.(shared := AfterStart(s, alive), issued := m.issued + [StartAction(s, alive)]);
      if alive then next
      else next.(threads := m.threads + [Thread(Loading, 0, 0, s.config, NotStarted, None)], handle := Some(|m.threads|))
    case OpStop(exitsMeanwhile) =>
      var alive := HandleAlive(m);
      var threads := if m.handle.Some? && m.handle.value < |m.threads|
                     then m.threads[m.handle.value := AfterStopOf(m.threads[m.handle.value], exitsMeanwhile)] else m.threads;
      var stillAlive := HandleAlive(m.(threads := threads));
      m.(shared := AfterStop(s, alive, stillAlive), issued := m.issued + [StopAction(s, stillAlive)], threads := threads)
    case OpSetScenario(name) =>
      m.(shared := AfterSetScenario(s, name),
         issued := m.issued + (if ScenarioOrNormal(name) in SUPPORTED_SCENARIOS then [SetScenarioAction(s, name)] else []))
    case OpSetPower(level) =>
      m.(shared := AfterSetPower(s, level), issued := m.issued + [SetPowerAction(s, level)])
    case Advance(i) =>
      if i >= |m.threads| then m
      else
        var (next, t) := AdvanceThread(m, m.threads[i]);
        m.(shared := next, threads := m.threads[i := t])
    case Raise(i, message) =>
      if i >= |m.threads| then m
      else
        var (next, t) := RaiseIn(m, m.threads[i], message);
        m.(shared := next, threads := m.threads[i := t],
           issued := m.issued + RaisedActions(s, m.threads[i], message))
  }

  function Run(m: System, labels: seq<Label>): System {
    if labels == [] then m else Step(Run(m, labels[..|labels| - 1]), labels[|labels| - 1])
  }
}
