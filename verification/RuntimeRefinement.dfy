// The runtime thread of the interleaving machine runs the loop: its own steps, picked out of any
// interleaving, are the turns of one run of the loop, with the same payloads.
module RuntimeRefinement {
  import opened ControllerState
  import opened RuntimeProtocol
  import L = RuntimeLoop

  function LoopConfigOf(m: System, t: Thread): L.LoopConfig {
    L.LoopConfig(m.maxCycles, t.seen.power, t.seen.scenario, t.seen.scenarioStart)
  }

  function ReportOf(m: System, t: Thread, status: L.RuntimeStatus): L.Report {
    L.Report(status, t.history, t.history, LoopConfigOf(m, t))
  }

  function StatusOf(status: L.RuntimeStatus): LoopStatus {
    match status
    case Active => Active
    case Completed => Completed
    case _ => StoppedOperator
  }

  predicate IsOwn(m: System, l: Label, i: nat) {
    (l.Advance? || l.Raise?) && l.thread == i < |m.threads|
  }

  // The payload that the loop of thread i publishes with this step.
  function Published(m: System, l: Label, i: nat): seq<L.Report> {
    if !IsOwn(m, l, i) || l.Raise? then []
    else
      var t := m.threads[i];
      match t.pc
      case Publishing => [ReportOf(m, t, if WillContinue(m, t) then L.Active else L.Completed)]
      case PublishStopped => [ReportOf(m, t, L.StoppedOperator)]
      case PublishCompleted => [ReportOf(m, t, L.Completed)]
      case _ => []
  }

  // The turns of thread i, grown by this step: a turn is known once its cycle is published or the loop is left.
  function Grown(m: System, l: Label, i: nat, turns: seq<L.Turn>): seq<L.Turn> {
    if !IsOwn(m, l, i) then turns
    else
      var t := m.threads[i];
      var cycle := L.Turn(LoopConfigOf(m, t), false, L.Finished(""), L.Slept);
      if l.Raise? then (if t.pc == Executing then turns + [cycle.(execution := L.RaisedCycle)] else turns)
      else if t.pc == Publishing then turns + [cycle]
      else if t.pc == CheckStop && m.shared.stopRequested then turns + [cycle.(stopAtTop := true)]
      else if t.pc == CheckLimit && L.LimitReached(cycle.config, t.cycle) then turns + [cycle]
      else if t.pc == Sleeping && m.shared.stopRequested && turns != []
      then turns[|turns| - 1 := turns[|turns| - 1].(sleep := L.SawStop)]
      else turns
  }

  function ReportsOf(m: System, labels: seq<Label>, i: nat): seq<L.Report> {
    if labels == [] then []
    else
      var before := labels[..|labels| - 1];
      ReportsOf(m, before, i) + Published(Run(m, before), labels[|labels| - 1], i)
  }

  function TurnsOf(m: System, labels: seq<Label>, i: nat): seq<L.Turn> {
    if labels == [] then []
    else
      var before := labels[..|labels| - 1];
      Grown(Run(m, before), labels[|labels| - 1], i, TurnsOf(m, before, i))
  }

  // A published payload is what the controller records.
  lemma PublishedIsRecorded(m: System, l: Label, i: nat)
    requires Published(m, l, i) != []
    ensures |Published(m, l, i)| == 1
    ensures var r := Published(m, l, i)[0];
            Step(m, l).shared == AfterRecord(m.shared, Payload(StatusOf(r.status), r.currentCycle))
  {
  }

  predicate BetweenTurns(t: Thread, loop: L.Loop) {
    loop.outcome == L.StillRunning && loop.cycle == t.cycle && |loop.history| == t.history == t.cycle
  }

  predicate InTurn(m: System, t: Thread, loop: L.Loop) {
    && loop.outcome == L.StillRunning && loop.cycle + 1 == t.cycle
    && !L.LimitReached(LoopConfigOf(m, t), loop.cycle)
  }

  // How far the loop has got when the thread stands where it does.
  predicate Matches(m: System, i: nat, turns: seq<L.Turn>, loop: L.Loop, reports: seq<L.Report>) {
    if i >= |m.threads| then turns == [] && reports == []
    else
      var t := m.threads[i];
      match t.pc
      case Loading => BetweenTurns(t, loop) && loop.reports == reports
      case Building => BetweenTurns(t, loop) && loop.reports == reports
      case Calling => BetweenTurns(t, loop) && loop.reports == reports
      case Top => BetweenTurns(t, loop) && loop.reports == reports
      case CheckStop => BetweenTurns(t, loop) && loop.reports == reports
      case CheckLimit => BetweenTurns(t, loop) && loop.reports == reports
      case Begin =>
        BetweenTurns(t, loop) && loop.reports == reports && !L.LimitReached(LoopConfigOf(m, t), loop.cycle)
      case Executing => InTurn(m, t, loop) && |loop.history| == t.history == loop.cycle && loop.reports == reports
      case Publishing => InTurn(m, t, loop) && |loop.history| + 1 == t.history == t.cycle && loop.reports == reports
      case Sleeping =>
        && BetweenTurns(t, loop) && loop.reports == reports
        && turns != [] && turns[|turns| - 1].config == LoopConfigOf(m, t)
      case PublishStopped =>
        loop.outcome == L.Returned && |loop.history| == t.history && loop.reports == reports + [ReportOf(m, t, L.StoppedOperator)]
      case PublishCompleted =>
        loop.outcome == L.Returned && |loop.history| == t.history && loop.reports == reports + [ReportOf(m, t, L.Completed)]
      case Recording =>
        && loop.outcome == L.Returned && |loop.history| == t.history && loop.reports == reports
        && reports != [] && StatusOf(reports[|reports| - 1].status) == t.finalStatus
      case _ => reports <= loop.reports
  }

  // ---- the turns, one step further ----

  lemma OneMoreTurn(turns: seq<L.Turn>, turn: L.Turn, initial: L.LoopConfig)
    requires L.RunTurns(turns, initial).outcome == L.StillRunning
    ensures L.RunTurns(turns + [turn], initial) == L.AfterTurn(L.RunTurns(turns, initial), turn, initial)
  {
    assert (turns + [turn])[..|turns|] == turns;
  }

  // A stop seen while sleeping changes the turn that went to sleep.
  lemma WokenByStop(turns: seq<L.Turn>, initial: L.LoopConfig)
    requires turns != [] && L.RunTurns(turns, initial).outcome == L.StillRunning
    ensures var last := turns[|turns| - 1];
            L.RunTurns(turns[|turns| - 1 := last.(sleep := L.SawStop)], initial)
            == L.Publish(L.RunTurns(turns, initial), L.StoppedOperator, last.config, L.Returned)
  {
    var n := |turns| - 1;
    var woken := turns[n := turns[n].(sleep := L.SawStop)];
    assert woken[..n] == turns[..n];
  }

  // With as many entries as cycles, a report counts and names the last cycle.
  lemma ReportNow(turns: seq<L.Turn>, initial: L.LoopConfig, m: System, t: Thread, status: L.RuntimeStatus)
    requires |L.RunTurns(turns, initial).history| == t.history
    ensures L.ReportOn(status, L.RunTurns(turns, initial).history, LoopConfigOf(m, t)) == ReportOf(m, t, status)
  {
    L.RunTurnsInv(turns, initial);
  }

  // What a command or another thread's step does to thread i.
  lemma Spared(m: System, l: Label, i: nat)
    requires !IsOwn(m, l, i)
    ensures Step(m, l).maxCycles == m.maxCycles
    ensures i < |m.threads| ==>
              && i < |Step(m, l).threads|
              && var t, u := m.threads[i], Step(m, l).threads[i];
                 u == t.(lastStop := u.lastStop, pc := u.pc) && (u.pc == t.pc || u.pc.Dead?)
    ensures |m.threads| <= i < |Step(m, l).threads| ==>
              var u := Step(m, l).threads[i]; u.pc == Loading && u.cycle == u.history == 0
  {
    hide Append, ClampPower;
  }

  lemma OtherStep(m: System, l: Label, i: nat, turns: seq<L.Turn>, loop: L.Loop, reports: seq<L.Report>, initial: L.LoopConfig)
    requires Matches(m, i, turns, loop, reports) && !IsOwn(m, l, i) && loop == L.RunTurns(turns, initial)
    ensures Matches(Step(m, l), i, turns, loop, reports)
  {
    hide Step, IsOwn, L.AfterTurn, L.LimitReached;
    Spared(m, l, i);
  }

  lemma RaiseStep(m: System, l: Label, i: nat, turns: seq<L.Turn>, loop: L.Loop, reports: seq<L.Report>, initial: L.LoopConfig)
    requires Matches(m, i, turns, loop, reports) && IsOwn(m, l, i) && l.Raise? && loop == L.RunTurns(turns, initial)
    ensures Matches(Step(m, l), i, Grown(m, l, i, turns), L.RunTurns(Grown(m, l, i, turns), initial), reports)
  {
    hide Append, L.RunTurns;
    var t := m.threads[i];
    if t.pc == Executing {
      OneMoreTurn(turns, L.Turn(LoopConfigOf(m, t), false, L.RaisedCycle, L.Slept), initial);
    }
  }

  // Where a turn ends, or the loop is left.
  predicate TurnEnds(m: System, t: Thread) {
    || t.pc == Publishing || (t.pc == CheckStop && m.shared.stopRequested)
    || (t.pc == CheckLimit && L.LimitReached(LoopConfigOf(m, t), t.cycle)) || (t.pc == Sleeping && m.shared.stopRequested)
  }

  lemma PublishingStep(m: System, l: Label, i: nat, turns: seq<L.Turn>, loop: L.Loop, reports: seq<L.Report>, initial: L.LoopConfig)
    requires Matches(m, i, turns, loop, reports) && IsOwn(m, l, i) && l.Advance? && loop == L.RunTurns(turns, initial)
    requires m.threads[i].pc == Publishing
    ensures var more := Grown(m, l, i, turns);
            Matches(Step(m, l), i, more, L.RunTurns(more, initial), reports + Published(m, l, i))
  {
    hide L.RunTurns, AfterRecord;
    OneMoreTurn(turns, L.Turn(LoopConfigOf(m, m.threads[i]), false, L.Finished(""), L.Slept), initial);
  }

  lemma LeavingStep(m: System, l: Label, i: nat, turns: seq<L.Turn>, loop: L.Loop, reports: seq<L.Report>, initial: L.LoopConfig)
    requires Matches(m, i, turns, loop, reports) && IsOwn(m, l, i) && l.Advance? && loop == L.RunTurns(turns, initial)
    requires m.threads[i].pc in {CheckStop, CheckLimit} && TurnEnds(m, m.threads[i])
    ensures var more := Grown(m, l, i, turns);
            Matches(Step(m, l), i, more, L.RunTurns(more, initial), reports + Published(m, l, i))
  {
    hide L.RunTurns, L.ReportOn;
    var t := m.threads[i];
    OneMoreTurn(turns, L.Turn(LoopConfigOf(m, t), t.pc == CheckStop, L.Finished(""), L.Slept), initial);
    ReportNow(turns, initial, m, t, if t.pc == CheckStop then L.StoppedOperator else L.Completed);
  }

  lemma WokenStep(m: System, l: Label, i: nat, turns: seq<L.Turn>, loop: L.Loop, reports: seq<L.Report>, initial: L.LoopConfig)
    requires Matches(m, i, turns, loop, reports) && IsOwn(m, l, i) && l.Advance? && loop == L.RunTurns(turns, initial)
    requires m.threads[i].pc == Sleeping && m.shared.stopRequested
    ensures var more := Grown(m, l, i, turns);
            Matches(Step(m, l), i, more, L.RunTurns(more, initial), reports + Published(m, l, i))
  {
    hide L.RunTurns, L.ReportOn;
    WokenByStop(turns, initial);
    ReportNow(turns, initial, m, m.threads[i], L.StoppedOperator);
  }

  lemma EndStep(m: System, l: Label, i: nat, turns: seq<L.Turn>, loop: L.Loop, reports: seq<L.Report>, initial: L.LoopConfig)
    requires Matches(m, i, turns, loop, reports) && IsOwn(m, l, i) && l.Advance? && loop == L.RunTurns(turns, initial)
    requires TurnEnds(m, m.threads[i])
    ensures var more := Grown(m, l, i, turns);
            Matches(Step(m, l), i, more, L.RunTurns(more, initial), reports + Published(m, l, i))
  {
    hide Matches, Step, L.RunTurns, Grown, Published;
    match m.threads[i].pc
    case Publishing => PublishingStep(m, l, i, turns, loop, reports, initial);
    case Sleeping => WokenStep(m, l, i, turns, loop, reports, initial);
    case _ => LeavingStep(m, l, i, turns, loop, reports, initial);
  }

  lemma QuietStep(m: System, l: Label, i: nat, turns: seq<L.Turn>, loop: L.Loop, reports: seq<L.Report>, initial: L.LoopConfig)
    requires Matches(m, i, turns, loop, reports) && IsOwn(m, l, i) && l.Advance? && loop == L.RunTurns(turns, initial)
    requires !TurnEnds(m, m.threads[i])
    ensures Grown(m, l, i, turns) == turns
    ensures Matches(Step(m, l), i, turns, loop, reports + Published(m, l, i))
  {
    hide L.RunTurns, AfterRecord;
  }

  lemma StepMatches(m: System, l: Label, i: nat, turns: seq<L.Turn>, reports: seq<L.Report>, initial: L.LoopConfig)
    requires Matches(m, i, turns, L.RunTurns(turns, initial), reports)
    ensures var more := Grown(m, l, i, turns);
            Matches(Step(m, l), i, more, L.RunTurns(more, initial), reports + Published(m, l, i))
  {
    hide Matches, Step, L.RunTurns, TurnEnds;
    var loop := L.RunTurns(turns, initial);
    if !IsOwn(m, l, i) {
      OtherStep(m, l, i, turns, loop, reports, initial);
      assert reports + [] == reports;
    } else if l.Raise? {
      RaiseStep(m, l, i, turns, loop, reports, initial);
      assert reports + [] == reports;
    } else if TurnEnds(m, m.threads[i]) {
      EndStep(m, l, i, turns, loop, reports, initial);
    } else {
      QuietStep(m, l, i, turns, loop, reports, initial);
    }
  }

  // In every run, whatever commands and other threads do in between, the steps of thread i are the turns of
  // a run of the loop, and the payloads the thread publishes are the reports of that run.
  lemma {:induction false} ThreadRunsTheLoop(m: System, labels: seq<Label>, i: nat, initial: L.LoopConfig)
    requires m.threads == []
    ensures Matches(Run(m, labels), i, TurnsOf(m, labels, i), L.RunTurns(TurnsOf(m, labels, i), initial), ReportsOf(m, labels, i))
  {
    if labels != [] {
      var before := labels[..|labels| - 1];
      ThreadRunsTheLoop(m, before, i, initial);
      hide Matches, Step, L.RunTurns, Grown, Published;
      StepMatches(Run(m, before), labels[|labels| - 1], i, TurnsOf(m, before, i), ReportsOf(m, before, i), initial);
    }
  }
}
