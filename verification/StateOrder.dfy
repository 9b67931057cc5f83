// When the order of the participants and states decides a round: only if some owner has several states, since
// the later one is the owner's view.
module StateOrder {
  import opened Lists
  import opened Readings
  import opened Sums
  import opened TrustModel
  import opened TrustProperties
  import opened Engine
  import opened EngineProperties
  import opened EngineOrder

  // Same status, same excluded and surviving edges, same agreed values.
  ghost predicate SameVerdict(a: RoundInput, b: RoundInput)
    requires a.participants != [] && b.participants != []
  {
    && PackageOf(a).status == PackageOf(b).status
    && ExcludedEdges(PackageOf(a).exclusions) == ExcludedEdges(PackageOf(b).exclusions)
    && Elements(SurvivorsOf(a)) == Elements(SurvivorsOf(b))
    && (PackageOf(a).validState.Some? <==> PackageOf(b).validState.Some?)
    && (PackageOf(a).validState.Some? ==> PackageOf(a).validState.value.values == PackageOf(b).validState.value.values)
  }

  lemma SameMembers(a: RoundInput, b: RoundInput)
    requires Reordered(a, b)
    ensures |a.participants| == |b.participants| && |a.states| == |b.states|
    ensures forall p :: p in a.participants <==> p in b.participants
    ensures forall s :: s in a.states <==> s in b.states
  {
    assert |a.participants| == |multiset(a.participants)| == |multiset(b.participants)| == |b.participants|;
    assert |a.states| == |multiset(a.states)| == |multiset(b.states)| == |b.states|;
    forall p ensures p in a.participants <==> p in b.participants {
      assert p in multiset(a.participants) <==> p in multiset(b.participants);
    }
    forall s ensures s in a.states <==> s in b.states {
      assert s in multiset(a.states) <==> s in multiset(b.states);
    }
  }

  lemma ReorderedIsEvaluable(a: RoundInput, b: RoundInput)
    requires Evaluable(a) && Reordered(a, b)
    ensures Evaluable(b)
  {
    SameMembers(a, b);
    hide Peers;
    forall e | e in b.participants ensures Peers(b.participants, e) != [] {
      var i := IndexOf(a.participants, e);
      PeersUpToMeans(a.participants, |a.participants|, i);
      PeersAre(a.participants, e);
      PeersAre(b.participants, e);
      assert Peers(a.participants, e)[0] in Peers(b.participants, e);
    }
    PeersUpToHolds(b.participants, |b.participants|);
  }

  // The participants' order is no matter to who is isolated.
  lemma IsolatedReordered(a: RoundInput, b: RoundInput, views: Views)
    requires Evaluable(a) && Reordered(a, b) && Known(views, a.participants)
    ensures Known(views, b.participants)
    ensures IsolatedEdges(a.participants, views) == IsolatedEdges(b.participants, views)
  {
    SameMembers(a, b);
    hide Peers, EvidenceFor;
    forall e | e in a.participants
      ensures CompatiblePeers(a.participants, views, e) == CompatiblePeers(b.participants, views, e)
    {
      var i := IndexOf(a.participants, e);
      PeersUpToMeans(a.participants, |a.participants|, i);
      SamePeers(a, b, views, e);
    }
  }

  lemma SamePeers(a: RoundInput, b: RoundInput, views: Views, e: EdgeId)
    requires Reordered(a, b) && Known(views, a.participants) && Known(views, b.participants)
    requires e in a.participants && e in b.participants && Peers(a.participants, e) != []
    ensures CompatiblePeers(a.participants, views, e) == CompatiblePeers(b.participants, views, e)
  {
    hide Peers, CountCompatible, DeviationOf, Deviations, AllPairs;
    EvidencePermute(a.round, a.participants, b.participants, views, e);
  }

  // ---- from who is excluded to the verdict ----

  lemma {:induction false} ValidCounts(states: seq<ReplicatedState>, excluded: set<EdgeId>, s: ReplicatedState)
    ensures multiset(ValidStates(states, excluded))[s] == if s.owner in excluded then 0 else multiset(states)[s]
  {
    if states != [] {
      var n := |states| - 1;
      ValidCounts(states[..n], excluded, s);
      assert states == states[..n] + [states[n]];
    }
  }

  lemma ValidReordered(s: seq<ReplicatedState>, t: seq<ReplicatedState>, excluded: set<EdgeId>)
    requires multiset(s) == multiset(t)
    ensures multiset(ValidStates(s, excluded)) == multiset(ValidStates(t, excluded))
    ensures |ValidStates(s, excluded)| == |ValidStates(t, excluded)|
  {
    var v, u := ValidStates(s, excluded), ValidStates(t, excluded);
    hide ValidStates;
    forall o ensures multiset(v)[o] == multiset(u)[o] {
      ValidCounts(s, excluded, o);
      ValidCounts(t, excluded, o);
    }
    assert |v| == |multiset(v)| == |multiset(u)| == |u|;
  }

  function OfReading(f: Reading -> real): ReplicatedState -> real {
    (s: ReplicatedState) => f(s.reading)
  }

  lemma {:induction false} SumOfReadings(f: Reading -> real, states: seq<ReplicatedState>)
    ensures SumBy(f, ReadingsIn(states)) == SumBy(OfReading(f), states)
  {
    if states != [] {
      var n := |states| - 1;
      SumOfReadings(f, states[..n]);
      assert ReadingsIn(states)[..n] == ReadingsIn(states[..n]);
    }
  }

  lemma SameMean(s: seq<ReplicatedState>, t: seq<ReplicatedState>)
    requires multiset(s) == multiset(t) && s != [] && t != []
    ensures MeanReading(ReadingsIn(s)) == MeanReading(ReadingsIn(t))
  {
    assert |s| == |multiset(s)| == |multiset(t)| == |t|;
    forall f: Reading -> real ensures SumBy(f, ReadingsIn(s)) == SumBy(f, ReadingsIn(t)) {
      SumOfReadings(f, s);
      SumOfReadings(f, t);
      SumPermute(OfReading(f), s, t);
    }
  }

  // Two orders reach one verdict exactly when the same edges are isolated in both.
  lemma VerdictsAgreeExactlyWhen(a: RoundInput, b: RoundInput)
    requires Evaluable(a) && Reordered(a, b)
    ensures Evaluable(b)
    ensures SameVerdict(a, b)
       <==> IsolatedEdges(a.participants, ByEdge(a.states)) == IsolatedEdges(b.participants, ByEdge(b.states))
  {
    ReorderedIsEvaluable(a, b);
    ExcludedAreIsolated(a);
    ExcludedAreIsolated(b);
    hide TrustOf, ByEdge, IsolatedEdges, SameVerdict, Reordered;
    if ExcludedEdges(TrustOf(a).exclusions) == ExcludedEdges(TrustOf(b).exclusions) {
      SameExclusionsSameVerdict(a, b);
    } else {
      SameVerdictExcludes(a, b);
    }
  }

  lemma SameVerdictExcludes(a: RoundInput, b: RoundInput)
    requires a.participants != [] && b.participants != []
    ensures SameVerdict(a, b) ==> ExcludedEdges(TrustOf(a).exclusions) == ExcludedEdges(TrustOf(b).exclusions)
  {
    hide TrustOf;
  }

  // The verdict, from the states that are kept.
  lemma PackageIs(input: RoundInput)
    requires input.participants != []
    ensures var package, valid := PackageOf(input), ValidStates(input.states, ExcludedEdges(TrustOf(input).exclusions));
            && package.exclusions == TrustOf(input).exclusions
            && (package.status == Success <==> |valid| >= Majority(|input.participants|))
            && (package.validState.Some? <==> package.status == Success)
            && (package.validState.Some? ==>
                  valid != [] && package.validState.value.values == Published(MeanReading(ReadingsIn(valid))))
  {
    hide TrustOf, ValidStates, Published, MeanReading;
  }

  lemma SameExclusionsSameVerdict(a: RoundInput, b: RoundInput)
    requires Evaluable(a) && Evaluable(b) && Reordered(a, b)
    requires ExcludedEdges(TrustOf(a).exclusions) == ExcludedEdges(TrustOf(b).exclusions)
    ensures a.participants != [] && b.participants != [] && SameVerdict(a, b)
  {
    EvaluableHolds(a);
    EvaluableHolds(b);
    SameMembers(a, b);
    PackageIs(a);
    PackageIs(b);
    hide PackageOf, TrustOf, Evaluable, ValidStates, SurvivorsOf, Published, MeanReading;
    var excluded := ExcludedEdges(TrustOf(a).exclusions);
    ValidReordered(a.states, b.states, excluded);
    forall e ensures e in SurvivorsOf(a) <==> e in SurvivorsOf(b) {
      SurvivingOwner(a, e);
      SurvivingOwner(b, e);
    }
    if ValidStates(a.states, excluded) != [] {
      SameMean(ValidStates(a.states, excluded), ValidStates(b.states, excluded));
    }
  }

  // ---- all orders ----

  // One reading for each owner, of those that its states give.
  ghost predicate Choice(states: seq<ReplicatedState>, views: Views) {
    && (forall s :: s in states ==> s.owner in views)
    && (forall e :: e in views ==> exists s :: s in states && s.owner == e && s.reading == views[e])
  }

  lemma {:induction false} ViewIsGiven(states: seq<ReplicatedState>, e: EdgeId) returns (s: ReplicatedState)
    requires e in ByEdge(states)
    ensures s in states && s.owner == e && s.reading == ByEdge(states)[e]
  {
    var n := |states| - 1;
    if states[n].owner == e {
      s := states[n];
    } else {
      s := ViewIsGiven(states[..n], e);
    }
  }

  lemma ViewsAreAChoice(states: seq<ReplicatedState>)
    ensures Choice(states, ByEdge(states))
  {
    forall e | e in ByEdge(states) ensures exists s :: s in states && s.owner == e && s.reading == ByEdge(states)[e] {
      var s := ViewIsGiven(states, e);
    }
  }

  lemma {:induction false} LaterIsSeen(s: seq<ReplicatedState>, t: seq<ReplicatedState>, e: EdgeId)
    requires e in ByEdge(t)
    ensures e in ByEdge(s + t) && ByEdge(s + t)[e] == ByEdge(t)[e]
  {
    assert (s + t)[..|s + t| - 1] == s + t[..|t| - 1];
    if e != t[|t| - 1].owner {
      LaterIsSeen(s, t[..|t| - 1], e);
    }
  }

  predicate Gives(s: ReplicatedState, views: Views) {
    s.owner in views && s.reading == views[s.owner]
  }

  // The states that do, or do not, give the chosen reading.
  function Picked(states: seq<ReplicatedState>, views: Views, chosen: bool): seq<ReplicatedState> {
    if states == [] then []
    else
      var last := states[|states| - 1];
      Picked(states[..|states| - 1], views, chosen) + (if Gives(last, views) == chosen then [last] else [])
  }

  lemma {:induction false} PickedCounts(states: seq<ReplicatedState>, views: Views, chosen: bool, s: ReplicatedState)
    ensures multiset(Picked(states, views, chosen))[s] == if Gives(s, views) == chosen then multiset(states)[s] else 0
  {
    hide Gives;
    if states != [] {
      var n := |states| - 1;
      PickedCounts(states[..n], views, chosen, s);
      assert states == states[..n] + [states[n]];
    }
  }

  lemma PickedAre(states: seq<ReplicatedState>, views: Views, s: ReplicatedState)
    ensures s in Picked(states, views, true) <==> s in states && Gives(s, views)
  {
    PickedCounts(states, views, true, s);
    assert s in Picked(states, views, true) <==> multiset(Picked(states, views, true))[s] > 0;
    assert s in states <==> multiset(states)[s] > 0;
  }

  // With the chosen readings last, the choice is what everyone sees.
  lemma ChoiceIsAnOrder(states: seq<ReplicatedState>, views: Views) returns (t: seq<ReplicatedState>)
    requires Choice(states, views)
    ensures multiset(t) == multiset(states) && ByEdge(t) == views
  {
    var rest, chosen := Picked(states, views, false), Picked(states, views, true);
    t := rest + chosen;
    hide Picked, ByEdge;
    forall s ensures multiset(t)[s] == multiset(states)[s] {
      PickedCounts(states, views, false, s);
      PickedCounts(states, views, true, s);
    }
    forall e | e in views ensures e in ByEdge(t) && ByEdge(t)[e] == views[e] {
      var s :| s in states && s.owner == e && s.reading == views[e];
      PickedAre(states, views, s);
      LaterIsSeen(rest, chosen, e);
      var seen := ViewIsGiven(chosen, e);
      PickedAre(states, views, seen);
    }
    forall e | e in ByEdge(t) ensures e in views {
      var s := ViewIsGiven(t, e);
      assert s in multiset(t);
      assert s in states;
    }
  }

  lemma ChoiceKnows(input: RoundInput, views: Views)
    requires Evaluable(input) && Choice(input.states, views)
    ensures Known(views, input.participants)
  {
    hide Peers;
    forall p | p in input.participants ensures p in views {
      var s :| s in input.states && s.owner == p;
    }
  }

  // All orders of the participants and states reach one verdict exactly when every choice of one reading for each
  // owner isolates the same edges.
  lemma OrderIsIrrelevantExactlyWhen(input: RoundInput)
    requires Evaluable(input)
    ensures (forall b :: Reordered(input, b) ==> b.participants != [] && SameVerdict(input, b))
       <==> forall views :: Choice(input.states, views) ==>
              Known(views, input.participants)
              && IsolatedEdges(input.participants, views) == IsolatedEdges(input.participants, ByEdge(input.states))
  {
    hide SameVerdict, Evaluable, IsolatedEdges, ByEdge, Choice;
    EvaluableHolds(input);
    forall b | Reordered(input, b)
      ensures b.participants != [] && Known(ByEdge(b.states), input.participants) && Choice(input.states, ByEdge(b.states))
      ensures SameVerdict(input, b)
         <==> IsolatedEdges(input.participants, ByEdge(input.states)) == IsolatedEdges(input.participants, ByEdge(b.states))
    {
      ReorderedChoice(input, b);
    }
    forall views | Choice(input.states, views)
      ensures Known(views, input.participants)
      ensures exists b :: Reordered(input, b) && ByEdge(b.states) == views
    {
      ChoiceKnows(input, views);
      var t := ChoiceIsAnOrder(input.states, views);
      assert Reordered(input, input.(states := t));
    }
  }

  lemma EvaluableHolds(input: RoundInput)
    requires Evaluable(input)
    ensures input.participants != [] && Known(ByEdge(input.states), input.participants)
  {
  }

  lemma ReorderedChoice(input: RoundInput, b: RoundInput)
    requires Evaluable(input) && Reordered(input, b)
    ensures b.participants != [] && Known(ByEdge(b.states), input.participants) && Choice(input.states, ByEdge(b.states))
    ensures SameVerdict(input, b)
       <==> IsolatedEdges(input.participants, ByEdge(input.states)) == IsolatedEdges(input.participants, ByEdge(b.states))
  {
    hide SameVerdict, IsolatedEdges, ByEdge;
    VerdictsAgreeExactlyWhen(input, b);
    SameMembers(input, b);
    ViewsAreAChoice(b.states);
    EvaluableHolds(b);
    hide Evaluable;
    IsolatedReordered(input, b, ByEdge(b.states));
  }

  // ---- an order that decides ----

  lemma TwoAndThree(a: EdgeId, b: EdgeId, s: ReplicatedState, t: ReplicatedState, u: ReplicatedState)
    requires a != b && s.owner == a && t.owner == a && u.owner == b
    ensures ByEdge([s, t, u]) == map[a := t.reading, b := u.reading]
    ensures Peers([a, b], a) == [b] && Peers([a, b], b) == [a]
    ensures |ValidStates([s, t, u], {})| == 3 && |ValidStates([s, t, u], {a, b})| == 0
  {
    var all := [s, t, u];
    assert all[..2] == [s, t] && [s, t][..1] == [s] && [s][..0] == [];
    assert ByEdge([s]) == map[a := s.reading] && ByEdge([s, t]) == map[a := t.reading];
    assert [a, b][..1] == [a] && [a][..0] == [];
    assert Peers([a], a) == [] && Peers([a], b) == [a];
    assert |ValidStates([s], {})| == 1;
    assert |ValidStates([s, t], {})| == 2;
    assert |ValidStates([s], {a, b})| == 0;
    assert |ValidStates([s, t], {a, b})| == 0;
  }

  lemma PairIsolated(a: EdgeId, b: EdgeId, views: Views)
    requires a != b && a in views && b in views && Peers([a, b], a) == [b] && Peers([a, b], b) == [a]
    ensures Known(views, [a, b])
    ensures IsolatedEdges([a, b], views)
         == if Compatible(views[a], views[b]) && Compatible(views[b], views[a]) then {}
            else if !Compatible(views[a], views[b]) && !Compatible(views[b], views[a]) then {a, b}
            else IsolatedEdges([a, b], views)
  {
    hide Peers, Compatible;
    assert ReadingsOf(views, [b]) == [views[b]] && ReadingsOf(views, [a]) == [views[a]];
    assert [views[b]][..0] == [] && [views[a]][..0] == [];
    assert CountCompatible(views[a], [views[b]]) == if Compatible(views[a], views[b]) then 1 else 0;
    assert CountCompatible(views[b], [views[a]]) == if Compatible(views[b], views[a]) then 1 else 0;
  }

  lemma PairIsEvaluable(input: RoundInput, a: EdgeId, b: EdgeId, s: ReplicatedState, t: ReplicatedState, u: ReplicatedState)
    requires input.participants == [a, b] && input.states == [s, t, u] && Known(ByEdge(input.states), [a, b])
    requires s.owner == a && t.owner == a && u.owner == b && s.round == t.round == u.round == input.round
    requires Peers([a, b], a) == [b] && Peers([a, b], b) == [a]
    ensures Evaluable(input)
  {
    hide Peers, ByEdge;
    PeersUpToHolds(input.participants, 2);
  }

  // Edge a owns a near and a far state: with the far one last the two edges disagree and the round fails, with the
  // near one last they agree and it succeeds.
  lemma OrderCanDecide(round: RoundIdentity, a: EdgeId, b: EdgeId, near: Reading, far: Reading)
    returns (s: RoundInput, t: RoundInput)
    requires a != b && !Compatible(near, far)
    ensures Evaluable(s) && Reordered(s, t) && s.participants == t.participants == [a, b]
    ensures PackageOf(s).status == FailedConsensus && PackageOf(t).status == Success
  {
    var x, y, z := ReplicatedState(round, a, near), ReplicatedState(round, a, far), ReplicatedState(round, b, near);
    s, t := RoundInput(round, [a, b], [x, y, z]), RoundInput(round, [a, b], [y, x, z]);
    assert multiset(s.states) == multiset{x, y, z} == multiset(t.states);
    NearAndFar(near, far);
    hide Compatible, PackageOf, Evaluable;
    PairVerdict(s, a, b, x, y, z);
    PairVerdict(t, a, b, y, x, z);
  }

  // The later state of a decides with the state of b.
  lemma PairVerdict(input: RoundInput, a: EdgeId, b: EdgeId, s: ReplicatedState, t: ReplicatedState, u: ReplicatedState)
    requires a != b && input.participants == [a, b] && input.states == [s, t, u]
    requires s.owner == a && t.owner == a && u.owner == b && s.round == t.round == u.round == input.round
    requires Compatible(t.reading, u.reading) <==> Compatible(u.reading, t.reading)
    ensures Evaluable(input)
    ensures PackageOf(input).status == if Compatible(t.reading, u.reading) then Success else FailedConsensus
  {
    hide Peers, ByEdge, ValidStates, Compatible, IsolatedEdges;
    TwoAndThree(a, b, s, t, u);
    PairIsolated(a, b, ByEdge(input.states));
    PairIsEvaluable(input, a, b, s, t, u);
    hide Evaluable, IsolatedEdges, Compatible, Peers, ByEdge, ValidStates, TrustOf, PackageOf;
    FailedRoundReason(input);
  }

  lemma NearAndFar(near: Reading, far: Reading)
    requires !Compatible(near, far)
    ensures !Compatible(far, near) && Compatible(near, near)
  {
    hide Distance;
    DistanceIsMetric(near, far, near);
    DistanceIsMetric(near, near, near);
  }
}
