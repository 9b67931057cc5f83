// Sleeping in slices, so that a stop is noticed between two of them.
module SlicedSleep {
  import opened Wrappers
  import opened Rounding
  import opened Sums

  function Itself(): real -> real {
    (x: real) => x
  }

  // The time covered by n full slices.
  function Covered(n: nat, poll: real): real {
    n as real * poll
  }

  lemma CoveredNext(n: nat, poll: real)
    ensures Covered(0, poll) == 0.0 && Covered(n + 1, poll) == Covered(n, poll) + poll
  {
    assert (n + 1) as real == n as real + 1.0;
  }

  lemma {:induction false} CoveredGrows(a: nat, b: nat, poll: real)
    requires poll > 0.0 && a <= b
    ensures Covered(a, poll) <= Covered(b, poll)
    decreases b
  {
    if a < b {
      CoveredGrows(a, b - 1, poll);
      CoveredNext(b - 1, poll);
    }
  }

  // n slices cover the total, and n - 1 do not: the total divided by the interval, rounded up.
  ghost predicate JustCovers(n: nat, total: real, poll: real) {
    total <= Covered(n, poll) && (n > 0 ==> Covered(n - 1, poll) < total)
  }

  lemma Product(a: real, b: real, c: real)
    requires a <= b && c > 0.0
    ensures a * c <= b * c
  {
  }

  // Only one number of slices is right.
  lemma CoverIsUnique(m: nat, n: nat, total: real, poll: real)
    requires poll > 0.0 && JustCovers(m, total, poll) && JustCovers(n, total, poll)
    ensures m == n
  {
    if m < n {
      CoveredGrows(m, n - 1, poll);
    } else if n < m {
      CoveredGrows(n, m - 1, poll);
    }
  }

  lemma SomeCover(total: real, poll: real) returns (n: nat)
    requires total >= 0.0 && poll > 0.0
    ensures JustCovers(n, total, poll)
  {
    var q := total / poll;
    assert q * poll == total;
    var bound := q.Floor + 1;
    assert q <= bound as real;
    Product(q, bound as real, poll);
    assert Covered(bound, poll) >= total;
    n := 0;
    CoveredNext(0, poll);
    while Covered(n, poll) < total
      invariant n > 0 ==> Covered(n - 1, poll) < total
      invariant n <= bound
      decreases bound - n
    {
      n := n + 1;
    }
  }

  // What one more slice leaves.
  lemma SliceStep(total: real, poll: real, n: nat, i: nat)
    requires poll > 0.0 && JustCovers(n, total, poll) && i < n && total > Covered(i, poll)
    ensures var remaining := total - Covered(i, poll);
            var slice := Min(remaining, poll);
            var next := Max(remaining - slice, 0.0);
            && 0.0 < slice <= poll && (i < n - 1 ==> slice == poll)
            && next == remaining - slice
            && next == (if i + 1 < n then total - Covered(i + 1, poll) else 0.0)
            && (next > 0.0 <==> i + 1 < n)
  {
    CoveredNext(i, poll);
    if i < n - 1 {
      CoveredGrows(i + 1, n - 1, poll);
    }
    hide Covered;
  }

  // No answer before the n-th is a stop.
  ghost predicate NoStopBefore(stop: nat -> bool, n: nat) {
    forall k :: 0 <= k < n ==> !stop(k)
  }

  // How the sleep may end: n slices are needed, and stop(k) is what the k-th look at the stop request answers.
  ghost predicate SleptRight(stop: nat -> bool, total: real, poll: real, n: nat, stopped: bool, slices: seq<real>) {
    && |slices| <= n
    // It ends early exactly when a look sees a stop, and no slice is slept after the first that does.
    && NoStopBefore(stop, |slices|)
    && (stopped <==> stop(|slices|))
    && (!stopped ==> |slices| == n && SumBy(Itself(), slices) == total)
    && (forall k :: 0 <= k < |slices| ==> 0.0 < slices[k] <= poll)
    && (forall k :: 0 <= k < |slices| && k < n - 1 ==> slices[k] == poll)
  }

  lemma AnySliceIsNeeded(total: real, poll: real, n: nat)
    requires poll > 0.0 && JustCovers(n, total, poll)
    ensures Covered(0, poll) == 0.0 && (total > 0.0 <==> n > 0)
  {
    CoveredNext(0, poll);
    if n > 0 {
      CoveredGrows(0, n - 1, poll);
    }
  }

  method SleepInSlices(total: real, poll: real, stop: nat -> bool, ghost n: nat)
    returns (stopped: bool, slices: seq<real>)
    requires poll > 0.0 && total >= 0.0 && JustCovers(n, total, poll)
    ensures SleptRight(stop, total, poll, n, stopped, slices)
  {
    slices := [];
    var remaining := total;
    AnySliceIsNeeded(total, poll, n);
    hide Covered, Min, Max, JustCovers;
    while remaining > 0.0
      invariant |slices| <= n && (remaining > 0.0 <==> |slices| < n)
      invariant remaining == if |slices| < n then total - Covered(|slices|, poll) else 0.0
      invariant SumBy(Itself(), slices) == total - remaining
      invariant NoStopBefore(stop, |slices|)
      invariant forall k :: 0 <= k < |slices| ==> 0.0 < slices[k] <= poll
      invariant forall k :: 0 <= k < |slices| && k < n - 1 ==> slices[k] == poll
      decreases n - |slices|
    {
      if stop(|slices|) {
        return true, slices;
      }
      var slice := Min(remaining, poll);
      SliceStep(total, poll, n, |slices|);
      assert (slices + [slice])[..|slices|] == slices;
      slices := slices + [slice];
      remaining := Max(remaining - slice, 0.0);
    }
    stopped := stop(|slices|);
  }

  // A poll interval that is not positive would never use up the time.
  method SleepUntilNextCycle(totalSeconds: real, poll: real, stopRequested: Option<nat -> bool>)
    returns (stopped: bool, slices: seq<real>)
    requires poll > 0.0
    ensures stopRequested.None? ==> !stopped && slices == if totalSeconds > 0.0 then [totalSeconds] else []
    ensures stopRequested.Some? ==>
              exists n: nat :: JustCovers(n, Max(totalSeconds, 0.0), poll)
                && SleptRight(stopRequested.value, Max(totalSeconds, 0.0), poll, n, stopped, slices)
  {
    var remaining := Max(totalSeconds, 0.0);
    if stopRequested.None? {
      return false, if remaining > 0.0 then [remaining] else [];
    }
    ghost var n := SomeCover(remaining, poll);
    stopped, slices := SleepInSlices(remaining, poll, stopRequested.value, n);
  }
}
