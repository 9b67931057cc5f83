// The autonomous loop: one growing history list, shared by every payload it publishes.
// The outside world (configuration provider, stop request, cycle execution, sleep) is a finite
// script with one entry for each time round the loop.
module RuntimeLoop {

  datatype LoopConfig = LoopConfig(maxCycles: int, power: real, scenario: string, scenarioStart: int)

  // What happens while a cycle executes: it finishes, the user interrupts it, or it raises.
  datatype Execution = Finished(detail: string) | InterruptedCycle | RaisedCycle

  // What happens while the loop sleeps: nothing, the stop request is seen, or the user interrupts.
  datatype Sleep = Slept | SawStop | InterruptedSleep

  datatype Turn = Turn(config: LoopConfig, stopAtTop: bool, execution: Execution, sleep: Sleep)

  datatype Entry = Entry(cycleIndex: nat, config: LoopConfig, detail: string)

  datatype RuntimeStatus = Active | Completed | StoppedOperator | StoppedManually

  // StillRunning: the script is used up.  Escaped: an exception left the loop.
  datatype Outcome = StillRunning | Returned | Escaped

  // What a payload says when it is published.
  datatype Report = Report(status: RuntimeStatus, completedCycles: nat, currentCycle: nat, config: LoopConfig)

  datatype Loop = Loop(cycle: nat, history: seq<Entry>, reports: seq<Report>, outcome: Outcome)

  // ---- the loop on values ----

  function ReportOn(status: RuntimeStatus, history: seq<Entry>, config: LoopConfig): Report {
    Report(status, |history|, if history == [] then 0 else history[|history| - 1].cycleIndex, config)
  }

  predicate LimitReached(config: LoopConfig, cycle: nat) {
    config.maxCycles > 0 && cycle >= config.maxCycles
  }

  function Publish(loop: Loop, status: RuntimeStatus, config: LoopConfig, outcome: Outcome): Loop {
    loop.(reports := loop.reports + [ReportOn(status, loop.history, config)], outcome := outcome)
  }

  // An interrupt is reported with the configuration the loop was started with.
  function AfterTurn(loop: Loop, turn: Turn, initial: LoopConfig): Loop {
    if turn.stopAtTop then Publish(loop, StoppedOperator, turn.config, Returned)
    else if LimitReached(turn.config, loop.cycle) then Publish(loop, Completed, turn.config, Returned)
    else
      var begun := loop.(cycle := loop.cycle + 1);
      match turn.execution
      case InterruptedCycle => Publish(begun, StoppedManually, initial, Returned)
      case RaisedCycle => begun.(outcome := Escaped)
      case Finished(detail) =>
        var done := begun.(history := begun.history + [Entry(begun.cycle, turn.config, detail)]);
        if LimitReached(turn.config, begun.cycle) then Publish(done, Completed, turn.config, Returned)
        else
          var active := Publish(done, Active, turn.config, StillRunning);
          match turn.sleep
          case Slept => active
          case SawStop => Publish(active, StoppedOperator, turn.config, Returned)
          case InterruptedSleep => Publish(active, StoppedManually, initial, Returned)
  }

  function RunTurns(script: seq<Turn>, initial: LoopConfig): Loop {
    if script == [] then Loop(0, [], [], StillRunning)
    else
      var before := RunTurns(script[..|script| - 1], initial);
      if before.outcome != StillRunning then before else AfterTurn(before, script[|script| - 1], initial)
  }

  // ---- the loop on objects ----

  class History {
    var entries: seq<Entry>

    constructor ()
      ensures entries == []
    {
      entries := [];
    }

    method Append(entry: Entry)
      modifies this
      ensures entries == old(entries) + [entry]
    {
      entries := entries + [entry];
    }
  }

  // A published payload holds the list itself, not a copy of it.
  datatype Payload = Payload(report: Report, cycleHistory: History)

  function Reports(payloads: seq<Payload>): (r: seq<Report>)
    ensures |r| == |payloads|
  {
    seq(|payloads|, k requires 0 <= k < |payloads| => payloads[k].report)
  }

  // Every payload holds the one history, and frozen[k], the history as it was when payload k was
  // published, is the prefix that payload counts.
  ghost predicate Frozen(payloads: seq<Payload>, frozen: seq<seq<Entry>>, history: History, entries: seq<Entry>) {
    && |frozen| == |payloads|
    && forall k :: 0 <= k < |payloads| ==>
         && payloads[k].cycleHistory == history
         && |frozen[k]| == payloads[k].report.completedCycles
         && frozen[k] <= entries
  }

  lemma FrozenTogether(payloads: seq<Payload>, frozen: seq<seq<Entry>>, history: History, entries: seq<Entry>,
                       more: seq<Payload>, moreFrozen: seq<seq<Entry>>, longer: seq<Entry>)
    requires Frozen(payloads, frozen, history, entries) && entries <= longer
    requires Frozen(more, moreFrozen, history, longer)
    ensures Frozen(payloads + more, frozen + moreFrozen, history, longer)
    ensures Reports(payloads + more) == Reports(payloads) + Reports(more)
  {
  }

  method BuildRuntimeLogPayload(status: RuntimeStatus, history: History, config: LoopConfig) returns (payload: Payload)
    ensures payload == Payload(ReportOn(status, history.entries, config), history)
  {
    var current := if |history.entries| == 0 then 0 else history.entries[|history.entries| - 1].cycleIndex;
    payload := Payload(Report(status, |history.entries|, current, config), history);
  }

  // One time round the loop: the payloads it publishes, and whether the loop goes on.
  method TakeTurn(turn: Turn, initial: LoopConfig, cycle: nat, history: History)
    returns (next: nat, published: seq<Payload>, outcome: Outcome, ghost frozen: seq<seq<Entry>>)
    modifies history
    ensures Loop(next, history.entries, Reports(published), outcome)
         == AfterTurn(Loop(cycle, old(history.entries), [], StillRunning), turn, initial)
    ensures Frozen(published, frozen, history, history.entries)
    ensures old(history.entries) <= history.entries
  {
    next, published, outcome, frozen := cycle, [], StillRunning, [];
    if turn.stopAtTop {
      var payload := BuildRuntimeLogPayload(StoppedOperator, history, turn.config);
      return next, [payload], Returned, [history.entries];
    }
    if turn.config.maxCycles > 0 && cycle >= turn.config.maxCycles {
      var payload := BuildRuntimeLogPayload(Completed, history, turn.config);
      return next, [payload], Returned, [history.entries];
    }
    next := cycle + 1;
    match turn.execution
    case InterruptedCycle =>
      var payload := BuildRuntimeLogPayload(StoppedManually, history, initial);
      return next, [payload], Returned, [history.entries];
    case RaisedCycle =>
      return next, [], Escaped, [];
    case Finished(detail) =>
      var willContinue := turn.config.maxCycles <= 0 || next < turn.config.maxCycles;
      history.Append(Entry(next, turn.config, detail));
      var payload := BuildRuntimeLogPayload(if willContinue then Active else Completed, history, turn.config);
      if !willContinue {
        return next, [payload], Returned, [history.entries];
      }
      match turn.sleep
      case Slept =>
        return next, [payload], StillRunning, [history.entries];
      case SawStop =>
        var last := BuildRuntimeLogPayload(StoppedOperator, history, turn.config);
        return next, [payload, last], Returned, [history.entries, history.entries];
      case InterruptedSleep =>
        var last := BuildRuntimeLogPayload(StoppedManually, history, initial);
        return next, [payload, last], Returned, [history.entries, history.entries];
  }

  // Earlier reports do not matter to a turn, and are kept.
  lemma TurnKeepsReports(loop: Loop, turn: Turn, initial: LoopConfig)
    ensures AfterTurn(loop, turn, initial)
         == var alone := AfterTurn(loop.(reports := []), turn, initial); alone.(reports := loop.reports + alone.reports)
  {
  }

  lemma NextTurn(script: seq<Turn>, n: nat, initial: LoopConfig)
    requires n < |script| && RunTurns(script[..n], initial).outcome == StillRunning
    ensures RunTurns(script[..n + 1], initial) == AfterTurn(RunTurns(script[..n], initial), script[n], initial)
  {
    assert script[..n + 1][..n] == script[..n];
  }

  method RunAutonomousDemoLoop(script: seq<Turn>, initial: LoopConfig)
    returns (outcome: Outcome, payloads: seq<Payload>, history: History, ghost frozen: seq<seq<Entry>>)
    ensures fresh(history)
    ensures var loop := RunTurns(script, initial);
            outcome == loop.outcome && history.entries == loop.history && Reports(payloads) == loop.reports
    ensures Frozen(payloads, frozen, history, history.entries)
  {
    history := new History();
    outcome, payloads, frozen := StillRunning, [], [];
    var cycle, turn := 0, 0;
    while turn < |script| && outcome == StillRunning
      invariant turn <= |script| && fresh(history)
      invariant RunTurns(script[..turn], initial) == Loop(cycle, history.entries, Reports(payloads), outcome)
      invariant Frozen(payloads, frozen, history, history.entries)
      modifies history
    {
      ghost var entries := history.entries;
      NextTurn(script, turn, initial);
      TurnKeepsReports(RunTurns(script[..turn], initial), script[turn], initial);
      hide AfterTurn, Frozen, RunTurns, Reports;
      var more: seq<Payload>;
      ghost var moreFrozen;
      cycle, more, outcome, moreFrozen := TakeTurn(script[turn], initial, cycle, history);
      FrozenTogether(payloads, frozen, history, entries, more, moreFrozen, history.entries);
      payloads, frozen := payloads + more, frozen + moreFrozen;
      turn := turn + 1;
    }
    RunStops(script, turn, initial);
  }

  // ---- what every run satisfies ----

  // Once the loop has returned, the rest of the script is not looked at.
  lemma {:induction false} RunStops(script: seq<Turn>, n: nat, initial: LoopConfig)
    requires n <= |script|
    requires n == |script| || RunTurns(script[..n], initial).outcome != StillRunning
    ensures RunTurns(script, initial) == RunTurns(script[..n], initial)
  {
    if n == |script| {
      assert script[..n] == script;
    } else {
      var shorter := script[..|script| - 1];
      assert shorter[..n] == script[..n];
      RunStops(shorter, n, initial);
    }
  }

  ghost predicate HistoryInv(loop: Loop) {
    && (forall i :: 0 <= i < |loop.history| ==> loop.history[i].cycleIndex == i + 1)
    && (forall i :: 0 <= i < |loop.history| ==>
          loop.history[i].config.maxCycles <= 0 || loop.history[i].cycleIndex <= loop.history[i].config.maxCycles)
    && |loop.history| <= loop.cycle <= |loop.history| + 1
    && (loop.outcome == StillRunning ==> loop.cycle == |loop.history|)
  }

  ghost predicate PublishedInv(loop: Loop) {
    && (forall k :: 0 <= k < |loop.reports| ==>
          loop.reports[k].completedCycles == loop.reports[k].currentCycle <= |loop.history|)
    && (forall k :: 0 <= k < |loop.reports| && loop.outcome == StillRunning ==> loop.reports[k].status == Active)
    && (loop.outcome == Returned ==>
          && loop.reports != []
          && loop.reports[|loop.reports| - 1].status != Active
          && loop.reports[|loop.reports| - 1].completedCycles == |loop.history|)
  }

  ghost predicate LoopInv(loop: Loop) {
    HistoryInv(loop) && PublishedInv(loop)
  }

  // Some payload was published when n cycles had been completed.
  ghost predicate Reported(reports: seq<Report>, n: nat) {
    exists k :: 0 <= k < |reports| && reports[k].completedCycles == n
  }

  ghost predicate AllReported(loop: Loop) {
    forall n :: 1 <= n <= |loop.history| ==> Reported(loop.reports, n)
  }

  lemma TurnInv(loop: Loop, turn: Turn, initial: LoopConfig)
    requires LoopInv(loop) && loop.outcome == StillRunning
    ensures LoopInv(AfterTurn(loop, turn, initial))
  {
    hide AfterTurn, HistoryInv, PublishedInv;
    TurnHistoryInv(loop, turn, initial);
    TurnPublishedInv(loop, turn, initial);
  }

  lemma TurnHistoryInv(loop: Loop, turn: Turn, initial: LoopConfig)
    requires HistoryInv(loop) && loop.outcome == StillRunning
    ensures HistoryInv(AfterTurn(loop, turn, initial))
  {
    hide ReportOn;
  }

  lemma TurnPublishedInv(loop: Loop, turn: Turn, initial: LoopConfig)
    requires LoopInv(loop) && loop.outcome == StillRunning
    ensures PublishedInv(AfterTurn(loop, turn, initial))
  {
  }

  lemma TurnReports(loop: Loop, turn: Turn, initial: LoopConfig)
    requires AllReported(loop)
    ensures AllReported(AfterTurn(loop, turn, initial))
  {
    var next := AfterTurn(loop, turn, initial);
    forall n: nat | 1 <= n <= |next.history| ensures Reported(next.reports, n) {
      if n <= |loop.history| {
        assert Reported(loop.reports, n);
        var k :| 0 <= k < |loop.reports| && loop.reports[k].completedCycles == n;
        assert next.reports[k] == loop.reports[k];
      } else {
        assert next.reports[|loop.reports|].completedCycles == n;
      }
    }
  }

  // Cycles are numbered 1, 2, ... in order; each was begun within the limit configured at that moment; every
  // one of them was published; and a payload that ends the run counts them all.
  lemma {:induction false} RunTurnsInv(script: seq<Turn>, initial: LoopConfig)
    ensures LoopInv(RunTurns(script, initial)) && AllReported(RunTurns(script, initial))
  {
    if script != [] {
      var before := script[..|script| - 1];
      RunTurnsInv(before, initial);
      hide LoopInv, AllReported;
      if RunTurns(before, initial).outcome == StillRunning {
        TurnInv(RunTurns(before, initial), script[|script| - 1], initial);
        TurnReports(RunTurns(before, initial), script[|script| - 1], initial);
      }
    } else {
      assert RunTurns(script, initial).history == [];
    }
  }

  ghost predicate Undisturbed(script: seq<Turn>, limit: int) {
    forall t :: t in script ==> t.config.maxCycles == limit && !t.stopAtTop && t.execution.Finished? && t.sleep == Slept
  }

  // With a constant positive limit and no disturbance the run makes exactly that many cycles and then
  // reports completion; until then, or without a limit, it keeps running.
  lemma {:induction false} UndisturbedRun(script: seq<Turn>, initial: LoopConfig, limit: int)
    requires Undisturbed(script, limit)
    ensures var loop := RunTurns(script, initial);
            if limit > 0 && |script| >= limit then
              && loop.outcome == Returned && |loop.history| == limit && loop.reports != []
              && loop.reports[|loop.reports| - 1].status == Completed
            else
              loop.outcome == StillRunning && |loop.history| == loop.cycle == |script|
  {
    RunTurnsInv(script, initial);
    if script != [] {
      UndisturbedRun(script[..|script| - 1], initial, limit);
      assert script[|script| - 1] in script;
    }
  }

  // ---- what decides how a run ends ----

  // The turn of cycle c does not end the run: nobody stops or interrupts it, nothing raises, and the limit is further on.
  ghost predicate Quiet(turn: Turn, c: nat) {
    !turn.stopAtTop && turn.execution.Finished? && turn.sleep == Slept && (turn.config.maxCycles <= 0 || c < turn.config.maxCycles)
  }

  // Each of the first n turns made one cycle, kept its own entry and published one active report.
  ghost predicate Cycles(loop: Loop, script: seq<Turn>, n: nat) {
    && n <= |script| && n <= |loop.history| && n <= |loop.reports|
    && forall i :: 0 <= i < n ==>
         && script[i].execution.Finished?
         && loop.history[i] == Entry(i + 1, script[i].config, script[i].execution.detail)
         && loop.reports[i] == Report(Active, i + 1, i + 1, script[i].config)
  }

  // How the turn after n quiet ones ends the run, and with which last report.
  ghost predicate Ends(loop: Loop, turn: Turn, n: nat, initial: LoopConfig) {
    var limit := turn.config.maxCycles;
    if turn.stopAtTop then EndsAt(loop, n, n, Report(StoppedOperator, n, n, turn.config))
    else if 0 < limit <= n then EndsAt(loop, n, n, Report(Completed, n, n, turn.config))
    else if turn.execution.InterruptedCycle? then EndsAt(loop, n, n, Report(StoppedManually, n, n, initial))
    else if turn.execution.RaisedCycle? then loop.outcome == Escaped && |loop.history| == |loop.reports| == n
    else
      && |loop.history| == n + 1 && loop.history[n] == Entry(n + 1, turn.config, turn.execution.detail)
      && if limit == n + 1 then EndsAt(loop, n + 1, n, Report(Completed, n + 1, n + 1, turn.config))
         else
           && |loop.reports| == n + 2 && loop.reports[n] == Report(Active, n + 1, n + 1, turn.config)
           && EndsAt(loop, n + 1, n + 1, if turn.sleep == SawStop then Report(StoppedOperator, n + 1, n + 1, turn.config)
                                         else Report(StoppedManually, n + 1, n + 1, initial))
  }

  // The run returned after so many cycles and earlier reports, with this report as its last.
  ghost predicate EndsAt(loop: Loop, cycles: nat, earlier: nat, last: Report) {
    && loop.outcome == Returned && |loop.history| == cycles && |loop.reports| == earlier + 1 && loop.reports[earlier] == last
  }

  lemma {:induction false} QuietRun(script: seq<Turn>, initial: LoopConfig)
    requires forall i :: 0 <= i < |script| ==> Quiet(script[i], i + 1)
    ensures var loop := RunTurns(script, initial);
            && loop.outcome == StillRunning && loop.cycle == |loop.history| == |loop.reports| == |script|
            && Cycles(loop, script, |script|)
  {
    if script != [] {
      var before := script[..|script| - 1];
      QuietRun(before, initial);
      assert Quiet(script[|script| - 1], |script|);
    }
  }

  // The first turn that is not quiet ends the run, as it says; with none, the run goes on.
  lemma RunSays(script: seq<Turn>, initial: LoopConfig, n: nat)
    requires n <= |script| && forall i :: 0 <= i < n ==> Quiet(script[i], i + 1)
    requires n < |script| ==> !Quiet(script[n], n + 1)
    ensures var loop := RunTurns(script, initial);
            && Cycles(loop, script, n)
            && (if n < |script| then Ends(loop, script[n], n, initial)
                else loop.outcome == StillRunning && |loop.history| == |loop.reports| == n)
  {
    hide AfterTurn, Ends, Quiet, RunTurns, Cycles;
    QuietRun(script[..n], initial);
    if n < |script| {
      NextTurn(script, n, initial);
      LastTurn(RunTurns(script[..n], initial), script, n, initial);
      RunStops(script, n + 1, initial);
    } else {
      assert script[..n] == script;
    }
  }

  lemma LastTurn(loop: Loop, script: seq<Turn>, n: nat, initial: LoopConfig)
    requires n < |script| && Cycles(loop, script[..n], n) && !Quiet(script[n], n + 1)
    requires loop.outcome == StillRunning && loop.cycle == |loop.history| == |loop.reports| == n
    ensures var after := AfterTurn(loop, script[n], initial);
            Cycles(after, script, n) && after.outcome != StillRunning && Ends(after, script[n], n, initial)
  {
    assert n > 0 ==> loop.history[n - 1].cycleIndex == n;
  }
}
