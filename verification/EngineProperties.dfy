// What one round of the engine guarantees, for every number of edges and all real readings.
module EngineProperties {
  import opened Lists
  import opened Wrappers
  import opened Rounding
  import opened Readings
  import opened Sums
  import opened TrustModel
  import opened TrustGeometry
  import opened TrustProperties
  import opened Engine

  // At least two distinct participants, and exactly one replicated state for each of them.
  ghost predicate WellFormed(input: RoundInput) {
    && input.Accepted()
    && |input.participants| >= 2
    && NoRepeat(input.participants)
    && NoRepeat(Owners(input.states))
    && (forall p :: p in input.participants ==> p in ByEdge(input.states))
  }

  // What `evaluate` needs in order not to raise: a state for each participant, and for each
  // participant somebody else to be compared with.  Owners may repeat.
  ghost predicate Evaluable(input: RoundInput) {
    && input.Accepted()
    && input.participants != []
    && Known(ByEdge(input.states), input.participants)
    && PeersUpTo(input.participants, |input.participants|)
  }

  lemma WellFormedIsEvaluable(input: RoundInput)
    requires WellFormed(input)
    ensures Evaluable(input)
  {
    PeersExist(input.participants);
  }

  // ---- from lists of records to sets of edges ----

  lemma {:induction false} ExclusionIff(participants: seq<EdgeId>, evidence: seq<Evidence>, x: Exclusion)
    ensures x in ExclusionsOf(participants, evidence)
       <==> exists ev :: ev in evidence && IsExcluded(participants, ev) && x == Exclusion(ev.round, ev.edge, ReasonFor(ev))
  {
    if evidence != [] {
      var n := |evidence| - 1;
      ExclusionIff(participants, evidence[..n], x);
      assert evidence == evidence[..n] + [evidence[n]];
    }
  }

  lemma {:induction false} ExclusionsDistinct(participants: seq<EdgeId>, evidence: seq<Evidence>)
    requires forall i, j :: 0 <= i < j < |evidence| ==> evidence[i].edge != evidence[j].edge
    ensures |ExclusionsOf(participants, evidence)| == |ExcludedEdges(ExclusionsOf(participants, evidence))|
  {
    if evidence != [] {
      var n := |evidence| - 1;
      ExclusionsDistinct(participants, evidence[..n]);
      var before, after := ExclusionsOf(participants, evidence[..n]), ExclusionsOf(participants, evidence);
      if IsExcluded(participants, evidence[n]) {
        var next := Exclusion(evidence[n].round, evidence[n].edge, ReasonFor(evidence[n]));
        assert after == before + [next];
        forall x | x in before ensures x.edge != next.edge {
          ExclusionIff(participants, evidence[..n], x);
        }
        assert next.edge !in ExcludedEdges(before);
        ExcludedEdgesSnoc(before, next);
        assert |ExcludedEdges(before) + {next.edge}| == |ExcludedEdges(before)| + 1;
      } else {
        assert after == before;
      }
    }
  }

  lemma ExcludedEdgesSnoc(exclusions: seq<Exclusion>, next: Exclusion)
    ensures ExcludedEdges(exclusions + [next]) == ExcludedEdges(exclusions) + {next.edge}
  {
    forall e | e in ExcludedEdges(exclusions) + {next.edge} ensures e in ExcludedEdges(exclusions + [next]) {
      if e == next.edge {
        assert next in exclusions + [next];
      } else {
        var x :| x in exclusions && x.edge == e;
        assert x in exclusions + [next];
      }
    }
  }

  lemma {:induction false} ValidStateIff(states: seq<ReplicatedState>, excluded: set<EdgeId>, s: ReplicatedState)
    ensures s in ValidStates(states, excluded) <==> s in states && s.owner !in excluded
  {
    if states != [] {
      var n := |states| - 1;
      ValidStateIff(states[..n], excluded, s);
      assert states == states[..n] + [states[n]];
    }
  }

  lemma {:induction false} ValidOwnersDistinct(states: seq<ReplicatedState>, excluded: set<EdgeId>)
    requires NoRepeat(Owners(states))
    ensures NoRepeat(Owners(ValidStates(states, excluded)))
  {
    if states != [] {
      var n := |states| - 1;
      assert Owners(states[..n]) == Owners(states)[..n];
      ValidOwnersDistinct(states[..n], excluded);
      var before := ValidStates(states[..n], excluded);
      forall i | 0 <= i < |before| ensures before[i].owner != states[n].owner {
        ValidStateIff(states[..n], excluded, before[i]);
        var j :| 0 <= j < n && states[j] == before[i];
        assert Owners(states)[j] != Owners(states)[n];
      }
    }
  }

  // With one state per owner, the dictionary of states holds that state.
  lemma {:induction false} ViewOf(states: seq<ReplicatedState>, s: ReplicatedState)
    requires NoRepeat(Owners(states)) && s in states
    ensures s.owner in ByEdge(states) && ByEdge(states)[s.owner] == s.reading
  {
    var n := |states| - 1;
    assert Owners(states[..n]) == Owners(states)[..n];
    if s != states[n] {
      ViewOf(states[..n], s);
      var j :| 0 <= j < n && states[j] == s;
      assert Owners(states)[j] != Owners(states)[n];
    }
  }

  // ---- the trust outcome of a well-formed round ----

  lemma PeersExist(participants: seq<EdgeId>)
    requires NoRepeat(participants) && |participants| >= 2
    ensures forall e :: e in participants ==> Peers(participants, e) != []
    ensures PeersUpTo(participants, |participants|)
  {
    forall e | e in participants ensures Peers(participants, e) != [] {
      PeersAre(participants, e);
      var other := if participants[0] == e then participants[1] else participants[0];
      assert other in Peers(participants, e);
    }
    PeersUpToHolds(participants, |participants|);
  }

  ghost function TrustOf(input: RoundInput): TrustOutcome {
    match TrustSpec(input.round, input.participants, input.states)
    case Ok(trust) => trust
    case Err(_) => TrustOutcome(Ranking(input.round, [], []), [], [])
  }

  ghost function PackageOf(input: RoundInput): AuditPackage
    requires input.participants != []
  {
    Assemble(input, TrustOf(input))
  }

  lemma TrustShape(input: RoundInput)
    requires Evaluable(input)
    ensures var trust := TrustOf(input);
            && TrustSpec(input.round, input.participants, input.states) == Ok(trust)
            && |trust.evidence| == |input.participants|
            && trust.exclusions == ExclusionsOf(input.participants, trust.evidence)
            && trust.ranking == Ranking(input.round, input.participants, EntriesOf(trust.evidence))
  {
  }

  lemma EvidenceOf(input: RoundInput, i: nat)
    requires Evaluable(input) && i < |input.participants|
    ensures Peers(input.participants, input.participants[i]) != []
    ensures |TrustOf(input).evidence| == |input.participants|
    ensures TrustOf(input).evidence[i].round == input.round
    ensures TrustOf(input).evidence[i].edge == input.participants[i]
    ensures TrustOf(input).evidence[i]
         == EvidenceFor(input.round, input.participants, ByEdge(input.states), input.participants[i])
  {
    EvidenceAt(input.round, input.participants, ByEdge(input.states), |input.participants|, i);
  }

  // An edge is excluded exactly when its closed neighbourhood is not a majority.
  lemma ExcludedIff(input: RoundInput, edge: EdgeId)
    requires Evaluable(input) && NoRepeat(input.participants)
    ensures edge in ExcludedEdges(TrustOf(input).exclusions)
       <==> edge in input.participants && !Survives(input.participants, ByEdge(input.states), edge)
  {
    hide Peers, IsExcluded, EvidenceFor, Survives, TrustOf;
    var trust := TrustOf(input);
    TrustShape(input);
    forall i | 0 <= i < |input.participants|
      ensures trust.evidence[i].edge == input.participants[i]
      ensures IsExcluded(input.participants, trust.evidence[i])
         <==> !Survives(input.participants, ByEdge(input.states), input.participants[i])
    {
      EvidenceOf(input, i);
      ExcludedIffNotSurviving(input.round, input.participants, ByEdge(input.states), input.participants[i]);
    }
    if edge in ExcludedEdges(trust.exclusions) {
      var x :| x in trust.exclusions && x.edge == edge;
      ExclusionIff(input.participants, trust.evidence, x);
    }
    if edge in input.participants && !Survives(input.participants, ByEdge(input.states), edge) {
      var i :| 0 <= i < |input.participants| && input.participants[i] == edge;
      var ev := trust.evidence[i];
      ExclusionIff(input.participants, trust.evidence, Exclusion(ev.round, ev.edge, ReasonFor(ev)));
    }
  }

  ghost function SurvivorsOf(input: RoundInput): seq<EdgeId> {
    Owners(ValidStates(input.states, ExcludedEdges(TrustOf(input).exclusions)))
  }

  // The states kept by the engine are those of the surviving participants, each once, as they see them.
  lemma SurvivorsAre(input: RoundInput)
    requires WellFormed(input)
    ensures AreTheSurvivors(input.participants, ByEdge(input.states), SurvivorsOf(input))
    ensures Known(ByEdge(input.states), SurvivorsOf(input))
    ensures ReadingsIn(ValidStates(input.states, ExcludedEdges(TrustOf(input).exclusions)))
         == ReadingsOf(ByEdge(input.states), SurvivorsOf(input))
  {
    WellFormedIsEvaluable(input);
    hide Survives, TrustOf, Evaluable, ByEdge, ExcludedEdges, ValidStates;
    var excluded := ExcludedEdges(TrustOf(input).exclusions);
    var valid, views := ValidStates(input.states, excluded), ByEdge(input.states);
    ValidOwnersDistinct(input.states, excluded);
    forall i | 0 <= i < |valid|
      ensures valid[i] in input.states && valid[i].owner !in excluded
      ensures valid[i].owner in views && views[valid[i].owner] == valid[i].reading
    {
      ValidStateIff(input.states, excluded, valid[i]);
      ViewOf(input.states, valid[i]);
    }
    forall e ensures e in Owners(valid) <==> e in input.participants && e in views && Survives(input.participants, views, e) {
      ExcludedIff(input, e);
      if e in views && e !in excluded {
        var s :| s in input.states && s.owner == e;
        ValidStateIff(input.states, excluded, s);
        var i :| 0 <= i < |valid| && valid[i] == s;
        assert Owners(valid)[i] == e;
      }
    }
  }

  // ---- totality and agreement of the two counts ----

  lemma RankingListsParticipants(input: RoundInput)
    requires Evaluable(input)
    ensures (set x | x in TrustOf(input).ranking.entries :: x.edge) == (set p | p in input.participants)
  {
    hide Peers, EvidenceFor, TrustOf, ExclusionsOf;
    var trust := TrustOf(input);
    TrustShape(input);
    var entries := trust.ranking.entries;
    forall i | 0 <= i < |input.participants| ensures entries[i].edge == input.participants[i] {
      EvidenceOf(input, i);
    }
    forall p | p in input.participants ensures exists x :: x in entries && x.edge == p {
      var i :| 0 <= i < |input.participants| && input.participants[i] == p;
      assert entries[i] in entries;
    }
  }

  lemma RecordsShareTheRound(input: RoundInput)
    requires Evaluable(input)
    ensures forall ev :: ev in TrustOf(input).evidence ==> ev.round == input.round
    ensures forall x :: x in TrustOf(input).exclusions ==> x.round == input.round
  {
    hide Peers, EvidenceFor, TrustOf, ExclusionsOf;
    var trust := TrustOf(input);
    TrustShape(input);
    forall ev | ev in trust.evidence ensures ev.round == input.round {
      var i :| 0 <= i < |trust.evidence| && trust.evidence[i] == ev;
      EvidenceOf(input, i);
    }
    forall x | x in trust.exclusions ensures x.round == input.round {
      ExclusionIff(input.participants, trust.evidence, x);
    }
  }

  // On a well-formed round nothing raises, and success, a quorum of survivors and a present
  // valid state are one and the same thing.
  lemma EngineTotal(input: RoundInput)
    requires WellFormed(input)
    ensures EngineSpec(input) == Ok(PackageOf(input))
    ensures var p := PackageOf(input);
            && p.Accepted() && p.result.Accepted() && p.ranking.Accepted()
            && (p.status == Success <==> |SurvivorsOf(input)| >= Majority(|input.participants|))
            && (p.validState.Some? <==> p.status == Success)
            && Known(ByEdge(input.states), SurvivorsOf(input))
            && (p.validState.Some? ==>
                && SurvivorsOf(input) != []
                && p.validState.value
                   == ValidState(input.round, SurvivorsOf(input),
                                 Published(MeanReading(ReadingsOf(ByEdge(input.states), SurvivorsOf(input))))))
  {
    WellFormedIsEvaluable(input);
    hide TrustOf, Published, MeanReading, WellFormed, Evaluable, AreTheSurvivors;
    NoConstructorRaises(input);
    SurvivorsAre(input);
  }

  lemma NoConstructorRaises(input: RoundInput)
    requires Evaluable(input)
    ensures EngineSpec(input) == Ok(PackageOf(input))
    ensures PackageOf(input).Accepted() && PackageOf(input).result.Accepted() && PackageOf(input).ranking.Accepted()
  {
    hide Peers, EvidenceFor, TrustOf, ExclusionsOf, Published, MeanReading;
    TrustShape(input);
    RankingListsParticipants(input);
    RecordsShareTheRound(input);
  }

  // Which inputs raise, and how, is decided by the participants alone: each needs a state, and there
  // must be two distinct ones.  No accepted input trips a constructor.
  lemma EngineRaises(input: RoundInput)
    requires input.Accepted()
    ensures EngineSpec(input).Ok?
       <==> Known(ByEdge(input.states), input.participants) && |Elements(input.participants)| >= 2
    ensures EngineSpec(input) == Err(TrustFailed(MissingReplicatedState))
       <==> exists p :: p in input.participants && p !in ByEdge(input.states)
    ensures EngineSpec(input) == Err(TrustFailed(NoPeers))
       <==> Known(ByEdge(input.states), input.participants) && |Elements(input.participants)| == 1
    ensures EngineSpec(input) == Err(NonPositiveParticipants) <==> input.participants == []
  {
    hide Peers, EvidenceFor, EvidenceUpTo, ExclusionsOf, ByEdge, Published, MeanReading, IsExcluded;
    var ps := input.participants;
    if Known(ByEdge(input.states), ps) && ps != [] {
      PeersIffTwo(ps);
      assert |Elements(ps)| > 0 by {
        assert ps[0] in Elements(ps);
      }
      if PeersUpTo(ps, |ps|) {
        RankingListsParticipants(input);
        RecordsShareTheRound(input);
        TrustShape(input);
      }
    }
  }

  lemma PeersIffTwo(participants: seq<EdgeId>)
    requires participants != []
    ensures PeersUpTo(participants, |participants|) <==> |Elements(participants)| != 1
  {
    OneParticipant(participants);
    if PeersUpTo(participants, |participants|) {
      forall e | e in participants ensures Peers(participants, e) != [] {
        var i :| 0 <= i < |participants| && participants[i] == e;
        PeersUpToMeans(participants, |participants|, i);
      }
    } else if forall e :: e in participants ==> Peers(participants, e) != [] {
      PeersUpToHolds(participants, |participants|);
    }
  }

  lemma OneParticipant(participants: seq<EdgeId>)
    requires participants != []
    ensures |Elements(participants)| == 1 <==> exists e :: e in participants && Peers(participants, e) == []
  {
    hide Peers;
    forall e | e in participants ensures Peers(participants, e) == [] <==> Elements(participants) == {e} {
      PeersAre(participants, e);
      if Peers(participants, e) != [] {
        assert Peers(participants, e)[0] in Elements(participants);
      }
    }
    var first := participants[0];
    if |Elements(participants)| == 1 {
      var rest := Elements(participants) - {first};
      assert |rest| == 0;
      assert Elements(participants) == {first};
    }
  }

  // The summary counts surviving participants, the engine the states they own.
  lemma SummaryCountsParticipants(input: RoundInput)
    requires Evaluable(input) && NoRepeat(input.participants)
    ensures |input.participants| - |PackageOf(input).exclusions| == |Elements(SurvivorsOf(input))|
  {
    hide Survives, TrustOf, EvidenceFor, Peers, ExclusionsOf;
    var trust := TrustOf(input);
    var excluded, owners := ExcludedEdges(trust.exclusions), Elements(SurvivorsOf(input));
    TrustShape(input);
    forall i, j | 0 <= i < j < |trust.evidence| ensures trust.evidence[i].edge != trust.evidence[j].edge {
      EvidenceOf(input, i);
      EvidenceOf(input, j);
    }
    ExclusionsDistinct(input.participants, trust.evidence);
    DistinctCount(input.participants);
    forall e ensures e in owners <==> e in input.participants && e !in excluded {
      SurvivingOwner(input, e);
    }
    forall e | e in excluded ensures e in input.participants {
      ExcludedIff(input, e);
    }
    assert Elements(input.participants) == excluded + owners;
    assert excluded !! owners;
  }

  lemma SurvivingOwner(input: RoundInput, e: EdgeId)
    requires Evaluable(input)
    ensures e in SurvivorsOf(input) <==> e in input.participants && e !in ExcludedEdges(TrustOf(input).exclusions)
  {
    hide TrustOf;
    var excluded := ExcludedEdges(TrustOf(input).exclusions);
    var valid := ValidStates(input.states, excluded);
    if e in SurvivorsOf(input) {
      var i :| 0 <= i < |valid| && valid[i].owner == e;
      ValidStateIff(input.states, excluded, valid[i]);
    }
    if e in input.participants && e !in excluded {
      var s :| s in input.states && s.owner == e;
      ValidStateIff(input.states, excluded, s);
      var i :| 0 <= i < |valid| && valid[i] == s;
      assert Owners(valid)[i] == e;
    }
  }

  // The two counts agree exactly when no surviving participant owns two states.
  lemma CountsAgreeIff(input: RoundInput)
    requires Evaluable(input) && NoRepeat(input.participants)
    ensures |input.participants| - |PackageOf(input).exclusions| == |SurvivorsOf(input)| <==> NoRepeat(SurvivorsOf(input))
  {
    SummaryCountsParticipants(input);
    DistinctCount(SurvivorsOf(input));
  }

  // A failed round is reported as a missing quorum, whoever owns the states.
  lemma FailedRoundsReportNoQuorum(input: RoundInput)
    requires Evaluable(input) && NoRepeat(input.participants)
    ensures BuildRoundSummary(PackageOf(input)).Ok?
    ensures PackageOf(input).status == FailedConsensus
        ==> ResolveConsensusBlockReason(BuildRoundSummary(PackageOf(input)).value) == NoQuorumReached
  {
    hide TrustOf;
    SummaryCountsParticipants(input);
    DistinctCount(SurvivorsOf(input));
  }

  // The places in the list of participants that no exclusion names; a repeated participant has several.
  function Places(participants: seq<EdgeId>, excluded: set<EdgeId>): seq<EdgeId> {
    if participants == [] then []
    else
      var n := |participants| - 1;
      Places(participants[..n], excluded) + (if participants[n] in excluded then [] else [participants[n]])
  }

  lemma {:induction false} PlacesAndExclusions(participants: seq<EdgeId>, some: seq<EdgeId>, evidence: seq<Evidence>,
                                              excluded: set<EdgeId>)
    requires |some| == |evidence|
    requires forall i :: 0 <= i < |some| ==> (some[i] in excluded <==> IsExcluded(participants, evidence[i]))
    ensures |Places(some, excluded)| + |ExclusionsOf(participants, evidence)| == |some|
  {
    if some != [] {
      PlacesAndExclusions(participants, some[..|some| - 1], evidence[..|some| - 1], excluded);
    }
  }

  lemma ExcludedPlace(input: RoundInput, i: nat)
    requires Evaluable(input) && i < |input.participants|
    ensures |TrustOf(input).evidence| == |input.participants|
    ensures input.participants[i] in ExcludedEdges(TrustOf(input).exclusions)
       <==> IsExcluded(input.participants, TrustOf(input).evidence[i])
  {
    hide Peers, IsExcluded, EvidenceFor, TrustOf, Evaluable;
    var trust, e := TrustOf(input), input.participants[i];
    TrustShape(input);
    EvidenceOf(input, i);
    if e in ExcludedEdges(trust.exclusions) {
      var x :| x in trust.exclusions && x.edge == e;
      ExclusionIff(input.participants, trust.evidence, x);
      var ev :| ev in trust.evidence && IsExcluded(input.participants, ev) && x == Exclusion(ev.round, ev.edge, ReasonFor(ev));
      var j :| 0 <= j < |trust.evidence| && trust.evidence[j] == ev;
      EvidenceOf(input, j);
    }
    if IsExcluded(input.participants, trust.evidence[i]) {
      var ev := trust.evidence[i];
      ExclusionIff(input.participants, trust.evidence, Exclusion(ev.round, ev.edge, ReasonFor(ev)));
    }
  }

  // The participants who agree with too few of their peers, read off the views alone.
  ghost function IsolatedEdges(participants: seq<EdgeId>, views: Views): set<EdgeId>
    requires Known(views, participants)
  {
    set p | p in participants && CompatiblePeers(participants, views, p) + 1 < Majority(|participants|)
  }

  ghost function CompatiblePeers(participants: seq<EdgeId>, views: Views, e: EdgeId): nat
    requires Known(views, participants) && e in participants
  {
    PeersAre(participants, e);
    CountCompatible(views[e], ReadingsOf(views, Peers(participants, e)))
  }

  lemma ExcludedAreIsolated(input: RoundInput)
    requires Evaluable(input)
    ensures ExcludedEdges(TrustOf(input).exclusions) == IsolatedEdges(input.participants, ByEdge(input.states))
  {
    hide Peers, TrustOf, ExclusionsOf, ByEdge;
    var ps, trust := input.participants, TrustOf(input);
    TrustShape(input);
    forall e ensures e in ExcludedEdges(trust.exclusions) <==> e in IsolatedEdges(ps, ByEdge(input.states)) {
      if e in ps {
        var i :| 0 <= i < |ps| && ps[i] == e;
        ExcludedPlace(input, i);
        EvidenceOf(input, i);
        PeersAre(ps, e);
      } else if e in ExcludedEdges(trust.exclusions) {
        ExcludedParticipates(input, e);
      }
    }
  }

  lemma ExcludedParticipates(input: RoundInput, e: EdgeId)
    requires Evaluable(input) && e in ExcludedEdges(TrustOf(input).exclusions)
    ensures e in input.participants
  {
    hide Peers, IsExcluded, EvidenceFor, TrustOf, Evaluable;
    var trust := TrustOf(input);
    TrustShape(input);
    var x :| x in trust.exclusions && x.edge == e;
    ExclusionIff(input.participants, trust.evidence, x);
    var ev :| ev in trust.evidence && IsExcluded(input.participants, ev) && x == Exclusion(ev.round, ev.edge, ReasonFor(ev));
    var j :| 0 <= j < |trust.evidence| && trust.evidence[j] == ev;
    EvidenceOf(input, j);
  }

  // Repeated participants included: the round fails when the states of participants who are not isolated
  // are no majority, and the failure is reported as a missing quorum exactly when their places are none.
  lemma FailedRoundReason(input: RoundInput)
    requires Evaluable(input)
    ensures var isolated := IsolatedEdges(input.participants, ByEdge(input.states));
            var states, places := |ValidStates(input.states, isolated)|, |Places(input.participants, isolated)|;
            var quorum := Majority(|input.participants|);
            && |input.participants| - |PackageOf(input).exclusions| == places
            && BuildRoundSummary(PackageOf(input)).Ok?
            && (PackageOf(input).status == FailedConsensus <==> states < quorum)
            && (PackageOf(input).status == FailedConsensus ==>
                  ResolveConsensusBlockReason(BuildRoundSummary(PackageOf(input)).value)
                  == if places < quorum then NoQuorumReached else NoConsensusedValidState)
  {
    hide TrustOf, IsExcluded, IsolatedEdges;
    var trust := TrustOf(input);
    TrustShape(input);
    ExcludedAreIsolated(input);
    forall i | 0 <= i < |input.participants|
      ensures input.participants[i] in ExcludedEdges(trust.exclusions)
         <==> IsExcluded(input.participants, trust.evidence[i])
    {
      ExcludedPlace(input, i);
    }
    PlacesAndExclusions(input.participants, input.participants, trust.evidence, ExcludedEdges(trust.exclusions));
  }

  lemma TwicePeers(a: EdgeId, b: EdgeId)
    requires a != b
    ensures Peers([a, a, b, b], a) == [b, b] && Peers([a, a, b, b], b) == [a, a]
  {
    assert [a, a, b, b][..3] == [a, a, b] && [a, a, b][..2] == [a, a] && [a, a][..1] == [a] && [a][..0] == [];
    forall e ensures Peers([a, a], e) == (if a == e then [] else [a, a]) {
      assert Peers([a], e) == if a == e then [] else [a];
    }
    assert Peers([a, a, b], a) == [b] && Peers([a, a, b], b) == [a, a];
  }

  lemma TwiceAgreed(view: Reading)
    ensures CountCompatible(view, [view, view]) == 2
  {
    hide Distance;
    DistanceIsMetric(view, view, view);
    assert [view, view][..1] == [view] && [view][..0] == [];
    assert CountCompatible(view, [view]) == 1;
  }

  lemma NobodyIsolated(a: EdgeId, b: EdgeId, views: Views, view: Reading)
    requires a != b && views == map[a := view, b := view]
    ensures Known(views, [a, a, b, b]) && IsolatedEdges([a, a, b, b], views) == {}
  {
    hide Peers, CountCompatible;
    TwicePeers(a, b);
    TwiceAgreed(view);
    assert ReadingsOf(views, [a, a]) == [view, view] && ReadingsOf(views, [b, b]) == [view, view];
  }

  lemma NothingDropped(a: EdgeId, b: EdgeId, states: seq<ReplicatedState>)
    requires |states| == 2
    ensures |ValidStates(states, {})| == 2 && |Places([a, a, b, b], {})| == 4
  {
    assert [a, a, b, b][..3] == [a, a, b] && [a, a, b][..2] == [a, a] && [a, a][..1] == [a] && [a][..0] == [];
    assert |Places([a], {})| == 1;
    assert |Places([a, a], {})| == 2;
    assert |Places([a, a, b], {})| == 3;
    assert states[..1][..0] == [] && |ValidStates(states[..1], {})| == 1;
  }

  // Two participants named twice, with one equal view each: nobody is isolated, their four places are a
  // majority of four, but the two states are not, and the failure is not reported as a missing quorum.
  lemma RepeatedPairFails(round: RoundIdentity, a: EdgeId, b: EdgeId, view: Reading) returns (input: RoundInput)
    requires a != b
    ensures Evaluable(input) && input.participants == [a, a, b, b] && |input.states| == 2
    ensures PackageOf(input).status == FailedConsensus && |PackageOf(input).exclusions| == 0
    ensures BuildRoundSummary(PackageOf(input)).Ok?
    ensures ResolveConsensusBlockReason(BuildRoundSummary(PackageOf(input)).value) == NoConsensusedValidState
  {
    var states := [ReplicatedState(round, a, view), ReplicatedState(round, b, view)];
    input := RoundInput(round, [a, a, b, b], states);
    PairViews(states);
    RepeatedPairIsEvaluable(input, a, b, view);
    hide Evaluable, TrustOf, IsolatedEdges, ValidStates, Places, ByEdge;
    NobodyIsolated(a, b, ByEdge(states), view);
    NothingDropped(a, b, states);
    FailedRoundReason(input);
  }

  lemma PairViews(states: seq<ReplicatedState>)
    requires |states| == 2 && states[0].owner != states[1].owner
    ensures ByEdge(states) == map[states[0].owner := states[0].reading, states[1].owner := states[1].reading]
  {
    assert states[..1] == [states[0]] && states[..1][..0] == [];
    assert ByEdge(states[..1]) == map[states[0].owner := states[0].reading];
  }

  lemma RepeatedPairIsEvaluable(input: RoundInput, a: EdgeId, b: EdgeId, view: Reading)
    requires a != b && input.Accepted() && input.participants == [a, a, b, b]
    requires ByEdge(input.states) == map[a := view, b := view]
    ensures Evaluable(input)
  {
    hide Peers, ByEdge;
    TwicePeers(a, b);
    PeersUpToHolds(input.participants, 4);
  }

  // Compatibility is mutual, so with three edges a lone survivor is impossible.
  lemma ThreeEdges(input: RoundInput)
    requires WellFormed(input) && |input.participants| == 3
    ensures PackageOf(input).status == FailedConsensus <==> |PackageOf(input).exclusions| == 3
  {
    hide TrustOf, SurvivorsOf, Distance, Published, MeanReading;
    EngineTotal(input);
    SurvivorsAre(input);
    WellFormedIsEvaluable(input);
    CountsAgreeIff(input);
    NoLoneSurvivor(input.participants, ByEdge(input.states), SurvivorsOf(input));
  }

  lemma SurvivorHasCompany(ps: seq<EdgeId>, views: Views, e: EdgeId) returns (m: EdgeId)
    requires |ps| == 3 && Known(views, ps) && e in ps && e in views && Survives(ps, views, e)
    ensures m in ps && m in views && m != e && Survives(ps, views, m)
  {
    hide Distance;
    var others := Neighbourhood(ps, views, e) - {e};
    assert Neighbourhood(ps, views, e) == others + {e};
    m :| m in others;
    DistanceIsMetric(views[e], views[m], views[e]);
    SubsetSize({e, m}, Neighbourhood(ps, views, m));
  }

  lemma NoLoneSurvivor(ps: seq<EdgeId>, views: Views, survivors: seq<EdgeId>)
    requires |ps| == 3 && NoRepeat(ps) && Known(views, ps) && AreTheSurvivors(ps, views, survivors)
    ensures |survivors| != 1
  {
    hide Survives, Neighbourhood;
    if survivors != [] {
      var m := SurvivorHasCompany(ps, views, survivors[0]);
      assert m in survivors;
    }
  }

  // ---- the agreed state ----

  // The largest change of the distance that publishing the agreed state can make.
  lemma PublishedIsNear(x: Reading)
    ensures Distance(x, Published(x)) <= BLENDED_HALF_STEP
  {
    Round3Error(x.temperature);
    Round3Error(x.pressure);
    Round3Error(x.rpm);
    hide Round3;
    BlendMonotone(Gap(Temperature, x, Published(x)), Gap(Pressure, x, Published(x)), Gap(Rpm, x, Published(x)),
                  HALF_STEP, HALF_STEP, HALF_STEP);
  }

  // Byzantine influence bound, on the published record: with an honest majority within delta <= 0.35,
  // the round succeeds, every honest edge survives, and the published state is within
  // delta + 0.35 f / k of every honest view, f being the faulty among the k source edges,
  // up to a fixed rounding error; hence strictly within delta + 0.175 of it.
  lemma ByzantineInfluence(input: RoundInput, honest: set<EdgeId>, delta: real, h: EdgeId)
    requires WellFormed(input) && h in honest
    requires Known(ByEdge(input.states), input.participants)
    requires HonestMajority(input.participants, ByEdge(input.states), honest, delta)
    ensures PackageOf(input).validState.Some?
    ensures var state := PackageOf(input).validState.value;
            var f, k := FaultyAmong(state.sourceEdges, honest), |state.sourceEdges|;
            var view := ByEdge(input.states)[h];
            && honest <= Elements(state.sourceEdges)
            && 2 * f < k
            && Distance(view, state.values)
               <= InfluenceLimit(delta, f, k) + BLENDED_HALF_STEP
            && Distance(view, state.values)
               < delta + PAIRWISE_CONSISTENCY_THRESHOLD / 2.0 + BLENDED_HALF_STEP
  {
    hide Survives, Distance, Published, MeanReading, TrustOf, SurvivorsOf, PackageOf, ReadingsOf, HonestMajority,
         FaultyAmong, Blend, WellFormed, ByEdge, InfluenceLimit;
    var views, survivors := ByEdge(input.states), SurvivorsOf(input);
    Participants(input);
    SurvivorsAre(input);
    InfluenceBound(input.participants, views, honest, delta, survivors, h);
    EngineTotal(input);
    QuorumIsPositive(|input.participants|);
    HonestIsKnown(input, honest, delta, h);
    var agreed := MeanReading(ReadingsOf(views, survivors));
    PublishedIsNear(agreed);
    DistanceIsMetric(views[h], agreed, Published(agreed));
  }

  lemma Participants(input: RoundInput)
    requires WellFormed(input)
    ensures NoRepeat(input.participants) && Known(ByEdge(input.states), input.participants)
  {
  }

  lemma QuorumIsPositive(n: nat)
    ensures Majority(n) > 0
  {
  }

  lemma HonestIsKnown(input: RoundInput, honest: set<EdgeId>, delta: real, h: EdgeId)
    requires WellFormed(input) && h in honest
    requires Known(ByEdge(input.states), input.participants)
    requires HonestMajority(input.participants, ByEdge(input.states), honest, delta)
    ensures h in ByEdge(input.states)
  {
  }

  lemma PublishedAt(readings: seq<Reading>, s: Sensor)
    requires readings != []
    ensures Published(MeanReading(readings)).At(s) == Round3(Mean(ValueOf(s), readings))
  {
  }

  // The published value of each sensor lies in the rounded range of the surviving views.
  lemma PublishedInHull(input: RoundInput, s: Sensor, lo: real, hi: real)
    requires WellFormed(input) && PackageOf(input).validState.Some?
    requires forall e :: e in SurvivorsOf(input) && e in ByEdge(input.states)
               ==> lo <= ByEdge(input.states)[e].At(s) <= hi
    ensures Round3(lo) <= PackageOf(input).validState.value.values.At(s) <= Round3(hi)
  {
    hide Round3, TrustOf, SurvivorsOf, PackageOf, WellFormed, ByEdge, MeanReading, Published, Survives, Mean;
    var views, survivors := ByEdge(input.states), SurvivorsOf(input);
    SurvivorsAre(input);
    var readings := ReadingsOf(views, survivors);
    EngineTotal(input);
    assert survivors != [];
    forall r | r in readings ensures lo <= ValueOf(s)(r) <= hi {
      var i :| 0 <= i < |survivors| && readings[i] == r;
      assert survivors[i] in survivors;
    }
    MeanWithin(ValueOf(s), readings, lo, hi);
    PublishedAt(readings, s);
    Round3Monotone(lo, Mean(ValueOf(s), readings));
    Round3Monotone(Mean(ValueOf(s), readings), hi);
  }

  // Any two source edges are within 0.70 of each other, and the published state is within
  // 0.70 (k - 1) / k of each, up to rounding, whoever is faulty.
  lemma PublishedNearSources(input: RoundInput, a: EdgeId, b: EdgeId)
    requires WellFormed(input) && PackageOf(input).validState.Some?
    requires a in PackageOf(input).validState.value.sourceEdges && b in PackageOf(input).validState.value.sourceEdges
    ensures a in ByEdge(input.states) && b in ByEdge(input.states)
    ensures var views, state := ByEdge(input.states), PackageOf(input).validState.value;
            var k := |state.sourceEdges|;
            && Distance(views[a], views[b]) <= 2.0 * PAIRWISE_CONSISTENCY_THRESHOLD
            && Distance(views[a], state.values)
               <= SourceLimit(k) + BLENDED_HALF_STEP
  {
    hide Survives, Distance, Published, MeanReading, TrustOf, SurvivorsOf, PackageOf, ReadingsOf, Blend, WellFormed,
         ByEdge, SourceLimit;
    var views, survivors := ByEdge(input.states), SurvivorsOf(input);
    Participants(input);
    SurvivorsAre(input);
    EngineTotal(input);
    MajorityIntersection(input.participants, views, a, b);
    AgreedStateNearSurvivors(input.participants, views, survivors, a);
    var agreed := MeanReading(ReadingsOf(views, survivors));
    PublishedIsNear(agreed);
    DistanceIsMetric(views[a], agreed, Published(agreed));
  }
}
