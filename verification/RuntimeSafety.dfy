// What holds in every state that any interleaving of commands and thread steps can reach.
module RuntimeSafety {
  import opened Wrappers
  import opened Rounding
  import opened ControllerState
  import opened RuntimeProtocol

  // The thread is in the loop or on its way into it: the next thing it does with the stop event is look at it.
  predicate InLoop(pc: Pc) {
    pc in {Loading, Building, Calling, Top, CheckStop, CheckLimit, Begin, Executing, Publishing, Sleeping,
           PublishStopped, PublishCompleted}
  }

  // Before the thread clears the stop event.
  predicate BeforeClear(pc: Pc) {
    InLoop(pc) || pc == Recording || pc == Failing || pc == Clearing
  }

  predicate BeforeFirstCycle(pc: Pc) {
    pc in {Loading, Building, Calling}
  }

  // The status shown for a thread that has not got past its import, by where the last stop found it.
  function ImportStatus(lastStop: Option<Pc>): UiStatus {
    if lastStop == None then Starting else if lastStop == Some(Loading) then Stopping else Stopped
  }

  // Status, counters and last published cycle, thread position by thread position.
  ghost predicate ThreadInv(s: Shared, t: Thread) {
    && (InLoop(t.pc) ==> IsActive(s))
    && (InLoop(t.pc) && t.pc != Executing ==> t.cycle == t.history)
    && (t.pc == Executing ==> t.cycle == t.history + 1)
    && (InLoop(t.pc) && t.pc != Publishing ==> CurrentCycle(s) == t.history)
    && (t.pc == Publishing ==> CurrentCycle(s) + 1 == t.history)
    && (BeforeFirstCycle(t.pc) ==> t.cycle == 0)
    && (t.pc == Recording ==> t.finalStatus != Active && (s.status == Stopped || s.status == Stopping))
    && (t.pc in {Clearing, Finishing} ==> s.status == Stopped || s.status == Stopping)
    && (t.lastStop == Some(Exiting) ==> t.pc in {Exiting, Dead(true)})
    && (t.pc in {Exiting, Dead(true)} ==> s.status == if t.lastStop == Some(Exiting) then Stopping else Stopped)
    && (t.pc == Loading ==> t.lastStop in {None, Some(Loading)})
    && (t.pc == Dead(false) ==> t.lastStop in {None, Some(Loading), Some(Dead(false))})
    && (t.pc in {Loading, Dead(false)} ==> s.status == ImportStatus(t.lastStop))
  }

  ghost predicate Inv(m: System) {
    && MINIMUM_POWER <= m.shared.config.power <= MAXIMUM_POWER
    && m.shared.log == Last(m.issued, ACTION_LOG_LIMIT)
    && (if m.threads == [] then m.handle == None && m.shared.status == Stopped
        else
          && m.handle == Some(|m.threads| - 1)
          && (forall i :: 0 <= i < |m.threads| - 1 ==> !Alive(m.threads[i]))
          && ThreadInv(m.shared, m.threads[|m.threads| - 1]))
  }

  lemma StartInv(scenario: string, scenarioStart: int, power: real, maxCycles: int)
    ensures Inv(Start(scenario, scenarioStart, power, maxCycles))
  {
    ClampStaysInRange(power);
  }

  lemma LogStep(m: System, l: Label)
    requires Inv(m) && !l.Advance? && !l.Raise?
    ensures Step(m, l).shared.log == Last(Step(m, l).issued, ACTION_LOG_LIMIT)
  {
    hide Append, Last, ThreadInv;
    var issued := Step(m, l).issued;
    if |issued| == |m.issued| + 1 {
      AppendKeepsLast(m.issued, issued[|m.issued|]);
    } else {
      assert issued == m.issued;
    }
  }

  lemma StartStepInv(m: System)
    requires Inv(m)
    ensures Inv(Step(m, OpStart))
  {
    hide Append, Last, ClampPower, ThreadInv;
    LogStep(m, OpStart);
    if HandleAlive(m) {
      StartKeeps(m.shared, m.threads[|m.threads| - 1]);
    } else {
      FreshThread(m.shared);
    }
  }

  lemma StartKeeps(s: Shared, t: Thread)
    requires ThreadInv(s, t) && Alive(t)
    ensures ThreadInv(AfterStart(s, true), t)
  {
  }

  lemma FreshThread(s: Shared)
    ensures ThreadInv(AfterStart(s, false), Thread(Loading, 0, 0, s.config, NotStarted, None))
  {
  }

  lemma StopStepInv(m: System, exitsMeanwhile: bool)
    requires Inv(m)
    ensures Inv(Step(m, OpStop(exitsMeanwhile)))
  {
    LogStep(m, OpStop(exitsMeanwhile));
    hide Append, Last, ClampPower;
  }

  lemma ConfigStepInv(m: System, l: Label)
    requires Inv(m) && (l.OpSetScenario? || l.OpSetPower?)
    ensures Inv(Step(m, l))
  {
    LogStep(m, l);
    hide Append, Last, ClampPower;
    if l.OpSetPower? {
      ClampStaysInRange(l.level);
    }
  }

  lemma AdvanceKeeps(m: System, t: Thread)
    requires ThreadInv(m.shared, t)
    ensures ThreadInv(AdvanceThread(m, t).0, AdvanceThread(m, t).1)
    ensures AdvanceThread(m, t).0.config == m.shared.config && AdvanceThread(m, t).0.log == m.shared.log
  {
    if t.pc in {Publishing, PublishStopped, PublishCompleted, Recording} {
      RecordKeeps(m, t);
    } else if t.pc in {Clearing, Finishing} {
      EndKeeps(m, t);
    }
  }

  lemma RecordKeeps(m: System, t: Thread)
    requires ThreadInv(m.shared, t) && t.pc in {Publishing, PublishStopped, PublishCompleted, Recording}
    ensures ThreadInv(AdvanceThread(m, t).0, AdvanceThread(m, t).1)
    ensures AdvanceThread(m, t).0.config == m.shared.config && AdvanceThread(m, t).0.log == m.shared.log
  {
  }

  lemma EndKeeps(m: System, t: Thread)
    requires ThreadInv(m.shared, t) && t.pc in {Clearing, Finishing}
    ensures ThreadInv(AdvanceThread(m, t).0, AdvanceThread(m, t).1)
    ensures AdvanceThread(m, t).0.config == m.shared.config && AdvanceThread(m, t).0.log == m.shared.log
  {
  }

  lemma RaiseKeeps(m: System, t: Thread, message: string)
    requires ThreadInv(m.shared, t)
    ensures ThreadInv(RaiseIn(m, t, message).0, RaiseIn(m, t, message).1)
    ensures RaiseIn(m, t, message).0.config == m.shared.config
    ensures RaiseIn(m, t, message).0.log
         == if t.pc == Failing then Append(m.shared.log, FailureAction(m.shared, message)) else m.shared.log
  {
  }

  lemma ThreadStepInv(m: System, l: Label)
    requires Inv(m) && (l.Advance? || l.Raise?)
    ensures Inv(Step(m, l))
  {
    hide AdvanceThread, RaiseIn, ThreadInv, Append, Last, Run, FailureAction;
    if l.thread < |m.threads| {
      var t := m.threads[l.thread];
      if l.thread == |m.threads| - 1 {
        if l.Advance? {
          AdvanceKeeps(m, t);
        } else {
          RaiseKeeps(m, t, l.message);
          AppendKeepsLast(m.issued, FailureAction(m.shared, l.message));
          assert m.issued + [] == m.issued;
        }
      } else {
        DeadStays(m, l);
      }
    }
  }

  lemma DeadStays(m: System, l: Label)
    requires (l.Advance? || l.Raise?) && l.thread < |m.threads| && !Alive(m.threads[l.thread])
    ensures Step(m, l) == m
  {
    assert m.issued + [] == m.issued;
    assert m.threads[l.thread := m.threads[l.thread]] == m.threads;
  }

  lemma StepInv(m: System, l: Label)
    requires Inv(m)
    ensures Inv(Step(m, l))
  {
    match l
    case OpStart => StartStepInv(m);
    case OpStop(exitsMeanwhile) => StopStepInv(m, exitsMeanwhile);
    case OpSetScenario(_) => ConfigStepInv(m, l);
    case OpSetPower(_) => ConfigStepInv(m, l);
    case Advance(_) => ThreadStepInv(m, l);
    case Raise(_, _) => ThreadStepInv(m, l);
  }

  lemma {:induction false} RunInv(m: System, labels: seq<Label>)
    requires Inv(m)
    ensures Inv(Run(m, labels))
  {
    if labels != [] {
      RunInv(m, labels[..|labels| - 1]);
      StepInv(Run(m, labels[..|labels| - 1]), labels[|labels| - 1]);
    }
  }

  ghost predicate Reachable(m: System) {
    exists scenario: string, start: int, power: real, limit: int, labels: seq<Label> ::
      m == Run(Start(scenario, start, power, limit), labels)
  }

  lemma ReachableInv(m: System)
    requires Reachable(m)
    ensures Inv(m)
  {
    var scenario: string, start: int, power: real, limit: int, labels: seq<Label>
      :| m == Run(Start(scenario, start, power, limit), labels);
    StartInv(scenario, start, power, limit);
    RunInv(Start(scenario, start, power, limit), labels);
  }

  // At most one runtime thread is alive, and it is the one the controller holds.
  lemma AtMostOneThread(m: System, i: nat, j: nat)
    requires Reachable(m) && i < |m.threads| && j < |m.threads| && Alive(m.threads[i]) && Alive(m.threads[j])
    ensures i == j && m.handle == Some(i)
  {
    ReachableInv(m);
    hide Reachable, Run, Start, Step, Append, Last;
  }

  // While a thread is in its loop the controller shows the runtime as active, and the last
  // published cycle lags the loop counter by at most one.
  lemma LoopIsShownActive(m: System, i: nat)
    requires Reachable(m) && i < |m.threads| && InLoop(m.threads[i].pc)
    ensures IsActive(m.shared)
    ensures m.threads[i].cycle - 1 <= CurrentCycle(m.shared) <= m.threads[i].cycle
  {
    ReachableInv(m);
    hide Reachable, Run, Start, Step, Append, Last;
  }

  // Once no thread is alive the controller shows stopped, with two exceptions and no others: it shows
  // stopping when the last stop found the thread past its final status write, and it keeps showing
  // starting or stopping when the module import failed, until a stop finds the thread dead.
  lemma NoThreadIsShownStopped(m: System)
    requires Reachable(m) && forall i :: 0 <= i < |m.threads| ==> !Alive(m.threads[i])
    ensures m.threads == [] ==> m.shared.status == Stopped
    ensures m.threads != [] ==>
              var t := m.threads[|m.threads| - 1];
              m.shared.status == if t.pc == Dead(true) then (if t.lastStop == Some(Exiting) then Stopping else Stopped)
                                 else if t.lastStop == None then Starting
                                 else if t.lastStop == Some(Loading) then Stopping
                                 else Stopped
  {
    ReachableInv(m);
    hide Reachable, Run, Start, Step, Append, Last;
  }

  // The second exception does happen: the import fails and nothing is alive, but the runtime is shown starting.
  lemma FailedImportLeavesStarting() returns (m: System)
    ensures Reachable(m) && m.threads != [] && (forall i :: 0 <= i < |m.threads| ==> !Alive(m.threads[i]))
    ensures m.shared.status == Starting
  {
    var start := Start("normal", 1, 50.0, 1);
    var failed := Raise(0, "import");
    assert Run(start, []) == start;
    RunSnoc(start, [], OpStart);
    RunSnoc(start, [OpStart], failed);
    assert [] + [OpStart] == [OpStart];
    m := Step(Step(start, OpStart), failed);
    ReachedBy("normal", 1, 50.0, 1, [OpStart] + [failed]);
  }

  // The positions of a thread that runs a single cycle undisturbed.
  function Stage(k: nat): Pc
    requires k <= 12
  {
    if k == 0 then Loading else if k == 1 then Building else if k == 2 then Calling
    else if k == 3 then Top else if k == 4 then CheckStop else if k == 5 then CheckLimit
    else if k == 6 then Begin else if k == 7 then Executing else if k == 8 then Publishing
    else if k == 9 then Recording else if k == 10 then Clearing else if k == 11 then Finishing else Exiting
  }

  ghost predicate AtStage(m: System, k: nat)
    requires k <= 12
  {
    && |m.threads| == 1 && m.handle == Some(0) && m.maxCycles == 1 && !m.shared.stopRequested
    && m.threads[0].pc == Stage(k) && m.threads[0].lastStop == None && m.threads[0].cycle == if k <= 6 then 0 else 1
  }

  lemma StageStep(m: System, k: nat)
    requires k < 12 && AtStage(m, k)
    ensures AtStage(Step(m, Advance(0)), k + 1)
  {
    hide Append, ClampPower;
  }

  // A run of one cycle, up to where its thread has reported itself stopped and is about to be gone.
  lemma OneCycle() returns (m: System, labels: seq<Label>)
    ensures m == Run(Start("normal", 1, 50.0, 1), labels) && AtStage(m, 12)
  {
    var start := Start("normal", 1, 50.0, 1);
    labels := [OpStart];
    m := Step(start, OpStart);
    assert Run(start, []) == start;
    RunSnoc(start, [], OpStart);
    assert [] + [OpStart] == labels;
    assert AtStage(m, 0);
    for k := 0 to 12
      invariant m == Run(start, labels) && AtStage(m, k)
    {
      hide *;
      RunSnoc(start, labels, Advance(0));
      StageStep(m, k);
      m := Step(m, Advance(0));
      labels := labels + [Advance(0)];
    }
  }

  // The first exception does happen: the thread is told to stop when it has already reported itself stopped.
  lemma LateStopLeavesStopping() returns (m: System)
    ensures Reachable(m) && (forall i :: 0 <= i < |m.threads| ==> !Alive(m.threads[i]))
    ensures m.shared.status == Stopping
  {
    hide Run, AtStage;
    var late, labels := OneCycle();
    RunSnoc(Start("normal", 1, 50.0, 1), labels, OpStop(true));
    StopAtExit(late);
    m := Step(late, OpStop(true));
    ReachedBy("normal", 1, 50.0, 1, labels + [OpStop(true)]);
  }

  lemma StopAtExit(m: System)
    requires AtStage(m, 12)
    ensures var n := Step(m, OpStop(true));
            n.shared.status == Stopping && forall i :: 0 <= i < |n.threads| ==> !Alive(n.threads[i])
  {
    hide Append;
  }

  lemma ReachedBy(scenario: string, scenarioStart: int, power: real, maxCycles: int, labels: seq<Label>)
    ensures Reachable(Run(Start(scenario, scenarioStart, power, maxCycles), labels))
  {
  }

  lemma RunSnoc(m: System, labels: seq<Label>, l: Label)
    ensures Run(m, labels + [l]) == Step(Run(m, labels), l)
  {
    assert (labels + [l])[..|labels|] == labels;
  }

  // The configured power is a level between 0 and 100, and the log is exactly the last 32 actions.
  lemma PowerAndLogStayBounded(m: System)
    requires Reachable(m)
    ensures MINIMUM_POWER <= m.shared.config.power <= MAXIMUM_POWER
    ensures m.shared.log == Last(m.issued, ACTION_LOG_LIMIT) && |m.shared.log| <= ACTION_LOG_LIMIT
  {
    ReachableInv(m);
  }

  // ---- a stop holds until the thread has left its loop ----

  // The highest cycle the thread can still begin before it next looks at the stop event.
  function Committed(t: Thread): nat {
    if t.pc in {CheckLimit, Begin} then t.cycle + 1 else t.cycle
  }

  // Thread i has been told to stop, and will begin no cycle beyond `last`.
  ghost predicate StopHolds(m: System, i: nat, last: nat) {
    && i < |m.threads|
    && m.threads[i].cycle <= last
    && (InLoop(m.threads[i].pc) ==> Committed(m.threads[i]) <= last)
    && (BeforeClear(m.threads[i].pc) ==> m.shared.stopRequested)
  }

  lemma StopHoldsUnderCommand(m: System, l: Label, i: nat, last: nat)
    requires Inv(m) && StopHolds(m, i, last) && !l.Advance? && !l.Raise?
    ensures StopHolds(Step(m, l), i, last)
  {
    hide Append, Last, ClampPower, ThreadInv;
  }

  lemma StopHoldsUnderThread(m: System, l: Label, i: nat, last: nat)
    requires Inv(m) && StopHolds(m, i, last) && (l.Advance? || l.Raise?)
    ensures StopHolds(Step(m, l), i, last)
  {
    hide Append, Last, ClampPower, ThreadInv;
    if l.thread < |m.threads| && l.thread != i && BeforeClear(m.threads[i].pc) {
      assert Alive(m.threads[i]);
      assert !Alive(m.threads[l.thread]);
    }
  }

  lemma StopStepHolds(m: System, l: Label, i: nat, last: nat)
    requires Inv(m) && StopHolds(m, i, last)
    ensures StopHolds(Step(m, l), i, last)
  {
    if l.Advance? || l.Raise? {
      StopHoldsUnderThread(m, l, i, last);
    } else {
      StopHoldsUnderCommand(m, l, i, last);
    }
  }

  lemma {:induction false} StopRunHolds(m: System, labels: seq<Label>, i: nat, last: nat)
    requires Inv(m) && StopHolds(m, i, last)
    ensures StopHolds(Run(m, labels), i, last)
  {
    if labels != [] {
      StopRunHolds(m, labels[..|labels| - 1], i, last);
      RunInv(m, labels[..|labels| - 1]);
      StopStepHolds(Run(m, labels[..|labels| - 1]), labels[|labels| - 1], i, last);
    }
  }

  // A stop issued while a thread is in its loop stays set, whatever happens next, until that thread has
  // left the loop and clears it; and the thread begins no cycle after the one it was committed to.
  lemma StopIsHonoured(m: System, i: nat, exitsMeanwhile: bool, labels: seq<Label>)
    requires Reachable(m) && i < |m.threads| && InLoop(m.threads[i].pc)
    ensures var later := Run(Step(m, OpStop(exitsMeanwhile)), labels);
            && i < |later.threads|
            && later.threads[i].cycle <= Committed(m.threads[i])
            && (BeforeClear(later.threads[i].pc) ==> later.shared.stopRequested)
  {
    ReachableInv(m);
    var stopped := Step(m, OpStop(exitsMeanwhile));
    StepInv(m, OpStop(exitsMeanwhile));
    StopRunHolds(stopped, labels, i, Committed(m.threads[i]));
  }

  // ---- and then the thread ends ----

  // How many steps of its own a thread that has been told to stop can still take.
  function Remaining(pc: Pc): nat {
    match pc
    case Loading => 11
    case Building => 10
    case Calling => 9
    case Top => 8
    case CheckStop => 7
    case CheckLimit => 11
    case Begin => 10
    case Executing => 9
    case Publishing => 8
    case Sleeping => 7
    case PublishStopped => 6
    case PublishCompleted => 6
    case Recording => 5
    case Failing => 4
    case Clearing => 3
    case Finishing => 2
    case Exiting => 1
    case Dead(_) => 0
  }

  // A step of thread i itself, an exception in it included, that moves it.
  predicate Moves(m: System, l: Label, i: nat) {
    && (l.Advance? || l.Raise?) && l.thread == i < |m.threads|
    && |Step(m, l).threads| == |m.threads| && Step(m, l).threads[i] != m.threads[i]
  }

  function OwnSteps(m: System, labels: seq<Label>, i: nat): nat {
    if labels == [] then 0
    else
      var before := labels[..|labels| - 1];
      OwnSteps(m, before, i) + (if Moves(Run(m, before), labels[|labels| - 1], i) then 1 else 0)
  }

  lemma StoppedThreadRunsDown(m: System, l: Label, i: nat, last: nat)
    requires Inv(m) && StopHolds(m, i, last)
    ensures i < |Step(m, l).threads|
    ensures Remaining(Step(m, l).threads[i].pc) + (if Moves(m, l, i) then 1 else 0) <= Remaining(m.threads[i].pc)
  {
    hide Append, Last, ClampPower, ThreadInv;
  }

  lemma {:induction false} StoppedRunRunsDown(m: System, labels: seq<Label>, i: nat, last: nat)
    requires Inv(m) && StopHolds(m, i, last)
    ensures i < |Run(m, labels).threads|
    ensures Remaining(Run(m, labels).threads[i].pc) + OwnSteps(m, labels, i) <= Remaining(m.threads[i].pc)
  {
    if labels != [] {
      var before := labels[..|labels| - 1];
      StoppedRunRunsDown(m, before, i, last);
      StopRunHolds(m, before, i, last);
      RunInv(m, before);
      hide Remaining, Moves, StopHolds, Inv, Step;
      StoppedThreadRunsDown(Run(m, before), labels[|labels| - 1], i, last);
    }
  }

  // A thread that has not ended can always take a step of its own.
  lemma ThreadCanMove(m: System, i: nat, message: string)
    requires i < |m.threads| && Alive(m.threads[i])
    ensures Moves(m, if m.threads[i].pc == Failing then Raise(i, message) else Advance(i), i)
  {
    hide Append;
  }

  // After a stop in the loop the thread takes at most eleven more steps, whatever else happens in between and
  // whatever raises, and having taken them, or as soon as it can take no more, it is gone.
  lemma StopEndsThread(m: System, i: nat, exitsMeanwhile: bool, labels: seq<Label>)
    requires Reachable(m) && i < |m.threads| && InLoop(m.threads[i].pc)
    ensures var stopped := Step(m, OpStop(exitsMeanwhile));
            var later := Run(stopped, labels);
            && i < |later.threads|
            && OwnSteps(stopped, labels, i) <= 11
            && (OwnSteps(stopped, labels, i) == 11 ==> !Alive(later.threads[i]))
            && (Alive(later.threads[i]) <==> exists l :: Moves(later, l, i))
  {
    hide *;
    ReachableInv(m);
    var stopped := Step(m, OpStop(exitsMeanwhile));
    StepInv(m, OpStop(exitsMeanwhile));
    StopSets(m, i, exitsMeanwhile);
    StoppedThreadEnds(stopped, labels, i, Committed(m.threads[i]));
  }

  lemma StoppedThreadEnds(m: System, labels: seq<Label>, i: nat, last: nat)
    requires Inv(m) && StopHolds(m, i, last)
    ensures i < |Run(m, labels).threads|
    ensures OwnSteps(m, labels, i) <= 11 && (OwnSteps(m, labels, i) == 11 ==> !Alive(Run(m, labels).threads[i]))
    ensures Alive(Run(m, labels).threads[i]) <==> exists l :: Moves(Run(m, labels), l, i)
  {
    hide *;
    StopHoldsMeans(m, i, last);
    StoppedRunRunsDown(m, labels, i, last);
    var later := Run(m, labels);
    RemainingBounds(m.threads[i]);
    RemainingBounds(later.threads[i]);
    AliveMoves(later, i);
  }

  lemma RemainingBounds(t: Thread)
    ensures Remaining(t.pc) <= 11 && (Remaining(t.pc) == 0 <==> !Alive(t))
  {
  }

  lemma StopHoldsMeans(m: System, i: nat, last: nat)
    requires StopHolds(m, i, last)
    ensures i < |m.threads|
  {
  }

  lemma StopSets(m: System, i: nat, exitsMeanwhile: bool)
    requires Inv(m) && i < |m.threads| && InLoop(m.threads[i].pc)
    ensures StopHolds(Step(m, OpStop(exitsMeanwhile)), i, Committed(m.threads[i]))
  {
    hide Append, Last, ThreadInv;
  }

  lemma AliveMoves(m: System, i: nat)
    requires i < |m.threads|
    ensures Alive(m.threads[i]) <==> exists l :: Moves(m, l, i)
  {
    hide Moves;
    if Alive(m.threads[i]) {
      ThreadCanMove(m, i, "");
    } else {
      forall l ensures !Moves(m, l, i) {
        DeadDoesNotMove(m, l, i);
      }
    }
  }

  lemma DeadDoesNotMove(m: System, l: Label, i: nat)
    requires i < |m.threads| && !Alive(m.threads[i])
    ensures !Moves(m, l, i)
  {
    if (l.Advance? || l.Raise?) && l.thread == i {
      DeadStays(m, l);
    }
  }

  // ---- which cycle first sees a command ----

  // The cycle for which the thread will next take the configuration, if it does.
  function NextSnapshot(t: Thread): nat {
    if t.pc in {CheckStop, CheckLimit, Begin} then t.cycle + 2 else t.cycle + 1
  }

  predicate TakesSnapshot(m: System, l: Label, i: nat) {
    l == Advance(i) && i < |m.threads| && m.threads[i].pc == Top
  }

  predicate ChangesConfig(l: Label) {
    l.OpSetScenario? || l.OpSetPower?
  }

  // In the loop, the cycle recorded with a command is the next one to take the configuration, or the one before.
  lemma RecordedCycle(m: System, i: nat)
    requires Inv(m) && i < |m.threads| && InLoop(m.threads[i].pc)
    requires m.threads[i].pc != PublishStopped && m.threads[i].pc != PublishCompleted
    ensures AppliesOn(m.shared) <= NextSnapshot(m.threads[i]) <= AppliesOn(m.shared) + 1
  {
  }

  // Thread i is in the loop, or has left it, without having taken another configuration.
  ghost predicate Waiting(m: System, i: nat, cycle: nat) {
    && i < |m.threads|
    && (m.threads[i].pc in {Loading, Building, Calling, Top, CheckStop, CheckLimit, Begin, Executing, Publishing, Sleeping}
        ==> NextSnapshot(m.threads[i]) == cycle)
  }

  lemma WaitingStep(m: System, l: Label, i: nat, cycle: nat)
    requires Inv(m) && Waiting(m, i, cycle) && !TakesSnapshot(m, l, i)
    ensures Waiting(Step(m, l), i, cycle)
    ensures !ChangesConfig(l) ==> Step(m, l).shared.config == m.shared.config
  {
    hide Append, Last, ClampPower, ThreadInv;
  }

  // No step of the run takes thread i's configuration, or changes it.
  ghost predicate Undisturbed(m: System, labels: seq<Label>, i: nat) {
    forall k :: 0 <= k < |labels| ==> !TakesSnapshot(Run(m, labels[..k]), labels[k], i)
  }

  lemma {:induction false} WaitingRun(m: System, labels: seq<Label>, i: nat, cycle: nat)
    requires Inv(m) && Waiting(m, i, cycle) && Undisturbed(m, labels, i)
    ensures Waiting(Run(m, labels), i, cycle)
    ensures (forall l :: l in labels ==> !ChangesConfig(l)) ==> Run(m, labels).shared.config == m.shared.config
  {
    if labels != [] {
      var n := |labels| - 1;
      var before := labels[..n];
      forall k | 0 <= k < n ensures !TakesSnapshot(Run(m, before[..k]), before[k], i) {
        assert before[..k] == labels[..k];
      }
      WaitingRun(m, before, i, cycle);
      RunInv(m, before);
      WaitingStep(Run(m, before), labels[n], i, cycle);
    }
  }

  // The configuration that a command leaves behind: a supported scenario holds from the recorded cycle on at the
  // power there was, an unsupported one changes nothing, and a level, clamped, is the power of the scenario there was.
  ghost predicate Obeys(config: Config, command: Label, before: Shared) {
    match command
    case OpSetScenario(name) =>
      var scenario := if name == "" then "normal" else name;
      if scenario in {"normal", "scada_replay", "scada_freeze", "scada_divergence", "single_edge_exclusion", "quorum_loss"}
      then
        config.scenario == scenario && config.scenarioStart == FromCycle(before) && config.power == before.config.power
      else config == before.config
    case OpSetPower(level) =>
      && 0.0 <= config.power <= 100.0
      && (level <= 0.0 ==> config.power == 0.0) && (level >= 100.0 ==> config.power == 100.0)
      && (0.0 <= level <= 100.0 ==> IsPublished(config.power, level))
      && config.scenario == before.config.scenario && config.scenarioStart == before.config.scenarioStart
    case _ => config == before.config
  }

  lemma CommandIsObeyed(m: System, command: Label)
    requires ChangesConfig(command)
    ensures Obeys(Step(m, command).shared.config, command, m.shared)
  {
    hide Append, ClampPower, IsPublished;
    if command.OpSetPower? {
      ClampStaysInRange(command.level);
      SetPowerDoes(m.shared, command.level);
    } else {
      SetScenarioDoes(m.shared, command.name);
    }
  }

  // A scenario or power command issued while the loop is live, and recorded as applying on cycle a, is seen
  // by the configuration of cycle a or a + 1: the next time the thread takes one, it is for one of these
  // cycles, and it holds what was commanded unless another command came in between.
  lemma CommandIsSeen(m: System, command: Label, labels: seq<Label>, i: nat)
    requires Reachable(m) && ChangesConfig(command) && i < |m.threads|
    requires InLoop(m.threads[i].pc) && m.threads[i].pc != PublishStopped && m.threads[i].pc != PublishCompleted
    requires var after := Step(m, command);
             Undisturbed(after, labels, i) && TakesSnapshot(Run(after, labels), Advance(i), i)
    ensures i < |Step(Run(Step(m, command), labels), Advance(i)).threads|
    ensures var after, a := Step(m, command), FromCycle(m.shared);
            var taken := Step(Run(after, labels), Advance(i)).threads[i];
            && taken.pc == CheckStop
            && a <= taken.cycle + 1 <= a + 1
            && ((forall l :: l in labels ==> !ChangesConfig(l)) ==> Obeys(taken.seen, command, m.shared))
  {
    CommandIsObeyed(m, command);
    assert FromCycle(m.shared) == AppliesOn(m.shared);
    ReachableInv(m);
    var after := Step(m, command);
    StepInv(m, command);
    RecordedCycle(m, i);
    ConfigKeepsThreads(m, command);
    WaitsFor(after, i);
    hide Step, Run, Inv, InLoop, Undisturbed, AppliesOn, FromCycle, Obeys, ThreadInv, Reachable, NextSnapshot, Waiting;
    WaitingRun(after, labels, i, NextSnapshot(m.threads[i]));
    Snapshot(Run(after, labels), i, NextSnapshot(m.threads[i]));
  }

  lemma ConfigKeepsThreads(m: System, command: Label)
    requires ChangesConfig(command)
    ensures Step(m, command).threads == m.threads
  {
  }

  lemma WaitsFor(m: System, i: nat)
    requires i < |m.threads|
    ensures Waiting(m, i, NextSnapshot(m.threads[i]))
  {
  }

  lemma Snapshot(m: System, i: nat, cycle: nat)
    requires Waiting(m, i, cycle) && TakesSnapshot(m, Advance(i), i)
    ensures |Step(m, Advance(i)).threads| == |m.threads|
    ensures var taken := Step(m, Advance(i)).threads[i];
            taken.pc == CheckStop && taken.cycle + 1 == cycle && taken.seen == m.shared.config
  {
  }
}
