// When a start command is lost: it is only logged, and nothing runs on.
module RuntimeStart {
  import opened ControllerState
  import opened RuntimeProtocol
  import opened RuntimeSafety

  // The thread is past every look at the stop event and the limit.
  predicate IsLeaving(pc: Pc) {
    pc in {PublishStopped, PublishCompleted, Recording, Failing, Clearing, Finishing, Exiting}
  }

  // No stop is pending, the loop is not being left, and the limit leaves room for another cycle.
  predicate GoesOn(m: System, t: Thread) {
    && Alive(t) && !IsLeaving(t.pc) && !m.shared.stopRequested
    && (m.maxCycles <= 0 || Committed(t) < m.maxCycles)
  }

  // The start makes no thread, and whatever follows but another start, no cycle begins that was not already
  // committed to when it came.
  ghost predicate StartIsLost(m: System) {
    var after := Step(m, OpStart);
    && m.threads != [] && after.threads == m.threads
    && forall labels :: OpStart !in labels ==> NothingMore(m, Run(after, labels))
  }

  ghost predicate NothingMore(m: System, later: System)
    requires m.threads != []
  {
    var i := |m.threads| - 1;
    |later.threads| == |m.threads| && later.threads[i].cycle <= Committed(m.threads[i])
  }

  // ---- a thread that begins no more cycles ----

  // Thread i will begin no cycle beyond `last`: it is leaving, or told to stop, or held by the limit.
  ghost predicate Bounded(m: System, i: nat, last: nat) {
    && i < |m.threads|
    && var t := m.threads[i];
       && t.cycle <= last
       && (t.pc == Begin ==> WillContinue(m, t))
       && (|| !Alive(t) || IsLeaving(t.pc)
           || (m.shared.stopRequested && Committed(t) <= last)
           || 0 < m.maxCycles <= last)
  }

  lemma BoundedUnderCommand(m: System, l: Label, i: nat, last: nat)
    requires Inv(m) && Bounded(m, i, last) && !l.Advance? && !l.Raise?
    ensures Bounded(Step(m, l), i, last)
    ensures l != OpStart ==> |Step(m, l).threads| == |m.threads|
  {
    hide Append, Last, ClampPower, ThreadInv;
  }

  lemma BoundedUnderThread(m: System, l: Label, i: nat, last: nat)
    requires Inv(m) && Bounded(m, i, last) && (l.Advance? || l.Raise?)
    ensures Bounded(Step(m, l), i, last) && |Step(m, l).threads| == |m.threads|
  {
    hide Append, Last, ClampPower, ThreadInv;
    if l.thread < |m.threads| && l.thread != i && Alive(m.threads[i]) {
      assert !Alive(m.threads[l.thread]);
      DeadStays(m, l);
    }
  }

  lemma {:induction false} BoundedRun(m: System, labels: seq<Label>, i: nat, last: nat)
    requires Inv(m) && Bounded(m, i, last) && OpStart !in labels
    ensures Bounded(Run(m, labels), i, last) && |Run(m, labels).threads| == |m.threads|
  {
    if labels != [] {
      var before, l := labels[..|labels| - 1], labels[|labels| - 1];
      BoundedRun(m, before, i, last);
      RunInv(m, before);
      hide Bounded, Inv, Step;
      if l.Advance? || l.Raise? {
        BoundedUnderThread(Run(m, before), l, i, last);
      } else {
        BoundedUnderCommand(Run(m, before), l, i, last);
      }
    }
  }

  // A thread begins a cycle only within the limit.
  ghost predicate BeginsWithin(m: System) {
    forall i :: 0 <= i < |m.threads| && m.threads[i].pc == Begin ==> WillContinue(m, m.threads[i])
  }

  lemma StepWithin(m: System, l: Label)
    requires BeginsWithin(m)
    ensures BeginsWithin(Step(m, l)) && Step(m, l).maxCycles == m.maxCycles
  {
    hide Append, ClampPower;
  }

  lemma {:induction false} RunWithin(m: System, labels: seq<Label>)
    requires BeginsWithin(m)
    ensures BeginsWithin(Run(m, labels)) && Run(m, labels).maxCycles == m.maxCycles
  {
    if labels != [] {
      RunWithin(m, labels[..|labels| - 1]);
      hide BeginsWithin, Step;
      StepWithin(Run(m, labels[..|labels| - 1]), labels[|labels| - 1]);
    }
  }

  lemma ReachableWithin(m: System)
    requires Reachable(m)
    ensures BeginsWithin(m)
  {
    var scenario: string, start: int, power: real, limit: int, labels: seq<Label>
      :| m == Run(Start(scenario, start, power, limit), labels);
    RunWithin(Start(scenario, start, power, limit), labels);
  }

  // ---- a thread that does ----

  predicate Going(m: System, i: nat, target: nat) {
    && i < |m.threads| && Alive(m.threads[i]) && !IsLeaving(m.threads[i].pc) && !m.shared.stopRequested
    && m.threads[i].cycle < target && (m.maxCycles <= 0 || target <= m.maxCycles)
  }

  // How many steps to the next begin.
  function ToBegin(pc: Pc): nat {
    match pc
    case Begin => 1
    case CheckLimit => 2
    case CheckStop => 3
    case Top => 4
    case Calling => 5
    case Sleeping => 5
    case Building => 6
    case Publishing => 6
    case _ => 7
  }

  lemma GoingStep(m: System, i: nat, target: nat)
    requires Going(m, i, target)
    ensures var n := Step(m, Advance(i)); var t, u := m.threads[i], n.threads[i];
            && (Going(n, i, target) || u.cycle == target)
            && t.cycle <= u.cycle && 10 * (target - u.cycle) + ToBegin(u.pc) < 10 * (target - t.cycle) + ToBegin(t.pc)
  {
    hide Append;
  }

  lemma RunCons(m: System, l: Label, labels: seq<Label>)
    ensures Run(m, [l] + labels) == Run(Step(m, l), labels)
    decreases |labels|
  {
    hide Step;
    if labels == [] {
      assert [l] + labels == [l] && [l][..0] == [];
      assert Run(m, [l]) == Step(Run(m, []), l);
    } else {
      var n := |labels| - 1;
      RunCons(m, l, labels[..n]);
      assert ([l] + labels)[..|labels|] == [l] + labels[..n];
    }
  }

  // Left alone, the thread begins the cycle.
  lemma {:induction false} ReachesCycle(m: System, i: nat, target: nat) returns (labels: seq<Label>)
    requires Going(m, i, target)
    ensures OpStart !in labels && i < |Run(m, labels).threads| && Run(m, labels).threads[i].cycle == target
    decreases 10 * (target - m.threads[i].cycle) + ToBegin(m.threads[i].pc)
  {
    GoingStep(m, i, target);
    hide Going, ToBegin, Step;
    var n := Step(m, Advance(i));
    if n.threads[i].cycle == target {
      labels := [Advance(i)];
      RunCons(m, Advance(i), []);
      assert [Advance(i)] + [] == [Advance(i)];
    } else {
      var rest := ReachesCycle(n, i, target);
      labels := [Advance(i)] + rest;
      RunCons(m, Advance(i), rest);
    }
  }

  // ---- the lost start ----

  lemma StartOnlyLogs(m: System)
    requires Inv(m) && m.threads != []
    ensures var t, after := m.threads[|m.threads| - 1], Step(m, OpStart);
            && (Alive(t) <==> after.threads == m.threads)
            && (Alive(t) ==> after.shared == m.shared.(log := after.shared.log) && after.maxCycles == m.maxCycles)
  {
    hide Append, Last, ThreadInv, ClampPower;
  }

  // A start is lost exactly when a thread is alive that is leaving the loop, or has a stop pending, or is held by
  // the limit: it may be shown as running or stopped, but it begins nothing new, and no thread takes its place.
  lemma StartIsLostExactlyWhen(m: System)
    requires Reachable(m)
    ensures StartIsLost(m) <==> m.threads != [] && Alive(m.threads[|m.threads| - 1]) && !GoesOn(m, m.threads[|m.threads| - 1])
  {
    ReachableInv(m);
    ReachableWithin(m);
    if m.threads != [] {
      StartOnlyLogs(m);
      StepInv(m, OpStart);
      hide Reachable, Inv, Run, Step;
      if Alive(m.threads[|m.threads| - 1]) {
        AliveLost(m);
      }
    }
  }

  lemma AliveLost(m: System)
    requires Inv(Step(m, OpStart)) && BeginsWithin(m) && m.threads != [] && Alive(m.threads[|m.threads| - 1])
    requires Step(m, OpStart).threads == m.threads && Step(m, OpStart).maxCycles == m.maxCycles
    requires Step(m, OpStart).shared == m.shared.(log := Step(m, OpStart).shared.log)
    ensures StartIsLost(m) <==> !GoesOn(m, m.threads[|m.threads| - 1])
  {
    var i := |m.threads| - 1;
    var t, after := m.threads[i], Step(m, OpStart);
    hide Run, Step, Inv;
    if GoesOn(m, t) {
      assert Going(after, i, Committed(t) + 1);
      var labels := ReachesCycle(after, i, Committed(t) + 1);
      assert !NothingMore(m, Run(after, labels));
    } else {
      assert Bounded(after, i, Committed(t));
      forall labels | OpStart !in labels ensures NothingMore(m, Run(after, labels)) {
        BoundedRun(after, labels, i, Committed(t));
      }
    }
  }

  // It does happen: the thread has reported itself stopped, the start finds it alive, the thread goes, and the
  // last command was a start but nothing is alive and the runtime is shown stopped.
  lemma LateStartIsLost() returns (before: System, m: System)
    ensures Reachable(before) && StartIsLost(before) && before.shared.status == Stopped
    ensures Reachable(m) && forall i :: 0 <= i < |m.threads| ==> !Alive(m.threads[i])
    ensures m.shared.status == Stopped && m.issued != [] && m.issued[|m.issued| - 1].command == StartRuntime
  {
    hide Run, AtStage, StartIsLost;
    var late, labels := OneCycle();
    var start := Start("normal", 1, 50.0, 1);
    ReachedBy("normal", 1, 50.0, 1, labels);
    before := late;
    AtExit(late);
    StartIsLostExactlyWhen(late);
    RunSnoc(start, labels, OpStart);
    RunSnoc(start, labels + [OpStart], Advance(0));
    m := Step(Step(late, OpStart), Advance(0));
    ReachedBy("normal", 1, 50.0, 1, labels + [OpStart] + [Advance(0)]);
  }

  lemma AtExit(m: System)
    requires Reachable(m) && AtStage(m, 12)
    ensures m.threads != [] && Alive(m.threads[|m.threads| - 1]) && !GoesOn(m, m.threads[|m.threads| - 1])
    ensures m.shared.status == Stopped
    ensures var n := Step(Step(m, OpStart), Advance(0));
            && (forall i :: 0 <= i < |n.threads| ==> !Alive(n.threads[i]))
            && n.shared.status == Stopped && n.issued != [] && n.issued[|n.issued| - 1].command == StartRuntime
  {
    ReachableInv(m);
    assert m.shared.status == Stopped;
    hide Reachable, Inv, Append, Last, ClampPower;
    var started := Step(m, OpStart);
    assert started == m.(shared := started.shared, issued := m.issued + [StartAction(m.shared, true)]);
    assert started.shared == m.shared.(log := started.shared.log);
    assert started.issued[|m.issued|].command == StartRuntime;
  }
}
