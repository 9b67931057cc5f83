// The demo's deterministic fault injection, and the outcome each scenario name promises.
module FaultInjection {
  import opened Lists
  import opened Rounding
  import opened Readings
  import opened Sums
  import opened TrustModel
  import opened TrustGeometry
  import opened TrustProperties
  import opened Engine
  import opened EngineProperties

  datatype FaultMode = NoFault | SingleEdgeExclusion | QuorumLoss | OtherMode(name: string)

  datatype FaultConfig = FaultConfig(mode: FaultMode, faultyEdges: seq<EdgeId>)

  function DefaultFaultyEdges(mode: FaultMode): seq<EdgeId> {
    match mode
    case SingleEdgeExclusion => ["edge-3"]
    case QuorumLoss => ["edge-2", "edge-3"]
    case _ => []
  }

  function Keep(edges: seq<EdgeId>, participants: seq<EdgeId>): seq<EdgeId> {
    if edges == [] then []
    else Keep(edges[..|edges| - 1], participants)
         + (if edges[|edges| - 1] in participants then [edges[|edges| - 1]] else [])
  }

  function ResolveFaultyEdges(config: FaultConfig, participants: seq<EdgeId>): seq<EdgeId> {
    Keep(if config.faultyEdges != [] then config.faultyEdges else DefaultFaultyEdges(config.mode), participants)
  }

  const EVEN_OFFSET := Reading(40.0, 3.4, 1490.0)
  const ODD_OFFSET := Reading(-60.0, -5.0, -2300.0)

  // A repeated edge keeps the offset of its last occurrence.
  function OffsetsByEdge(faulty: seq<EdgeId>): map<EdgeId, Reading> {
    if faulty == [] then map[]
    else
      var n := |faulty| - 1;
      OffsetsByEdge(faulty[..n])[faulty[n] := if n % 2 == 0 then EVEN_OFFSET else ODD_OFFSET]
  }

  function Shift(x: Reading, offset: Reading): Reading {
    Published(Reading(x.temperature + offset.temperature, x.pressure + offset.pressure, x.rpm + offset.rpm))
  }

  function InjectState(state: ReplicatedState, offsets: map<EdgeId, Reading>): ReplicatedState {
    if state.owner in offsets then state.(reading := Shift(state.reading, offsets[state.owner])) else state
  }

  function InjectStates(states: seq<ReplicatedState>, offsets: map<EdgeId, Reading>): (r: seq<ReplicatedState>)
    ensures |r| == |states| && forall i :: 0 <= i < |states| ==> r[i] == InjectState(states[i], offsets)
  {
    seq(|states|, i requires 0 <= i < |states| => InjectState(states[i], offsets))
  }

  function Injected(input: RoundInput, config: FaultConfig): RoundInput {
    if config.mode == NoFault then input
    else
      var faulty := ResolveFaultyEdges(config, input.participants);
      if faulty == [] then input else input.(states := InjectStates(input.states, OffsetsByEdge(faulty)))
  }

  method InjectFaults(input: RoundInput, config: FaultConfig) returns (r: RoundInput)
    ensures r == Injected(input, config)
  {
    if config.mode == NoFault {
      return input;
    }
    var faulty := ResolveFaultyEdges(config, input.participants);
    if faulty == [] {
      return input;
    }
    var offsets: map<EdgeId, Reading> := map[];
    for i := 0 to |faulty|
      invariant offsets == OffsetsByEdge(faulty[..i])
    {
      assert faulty[..i + 1][..i] == faulty[..i];
      offsets := offsets[faulty[i] := if i % 2 == 0 then EVEN_OFFSET else ODD_OFFSET];
    }
    assert faulty[..|faulty|] == faulty;
    var injected: seq<ReplicatedState> := [];
    for i := 0 to |input.states|
      invariant |injected| == i
      invariant forall j :: 0 <= j < i ==> injected[j] == InjectState(input.states[j], offsets)
    {
      var state := input.states[i];
      if state.owner !in offsets {
        injected := injected + [state];
        continue;
      }
      injected := injected + [state.(reading := Shift(state.reading, offsets[state.owner]))];
    }
    r := input.(states := injected);
  }

  // ---- what an injected round looks like ----

  // The reading the trust model uses for a participant.
  ghost function Seen(input: RoundInput, e: EdgeId): Reading {
    if e in ByEdge(input.states) then ByEdge(input.states)[e] else Reading(0.0, 0.0, 0.0)
  }

  lemma InjectedIsWellFormed(input: RoundInput, offsets: map<EdgeId, Reading>)
    requires WellFormed(input)
    ensures WellFormed(input.(states := InjectStates(input.states, offsets)))
  {
    hide Shift;
    var states := InjectStates(input.states, offsets);
    assert Owners(states) == Owners(input.states);
    forall s | s in states ensures s.round == input.round && s.owner in input.participants {
      var i :| 0 <= i < |states| && states[i] == s;
      assert input.states[i] in input.states;
    }
    forall e | e in input.participants ensures e in ByEdge(states) {
      var i := OwnerIndex(input.states, e);
      assert states[i] in states;
    }
  }

  lemma OwnerIndex(states: seq<ReplicatedState>, e: EdgeId) returns (i: nat)
    requires e in ByEdge(states)
    ensures i < |states| && states[i].owner == e
  {
    var s :| s in states && s.owner == e;
    i :| i < |states| && states[i] == s;
  }

  lemma InjectedView(input: RoundInput, offsets: map<EdgeId, Reading>, e: EdgeId)
    requires WellFormed(input) && e in input.participants
    ensures Seen(input.(states := InjectStates(input.states, offsets)), e)
         == if e in offsets then Shift(Seen(input, e), offsets[e]) else Seen(input, e)
  {
    hide Shift, WellFormed;
    var states := InjectStates(input.states, offsets);
    assert NoRepeat(Owners(input.states)) && e in ByEdge(input.states) by {
      Assumed(input, e);
    }
    assert Owners(states) == Owners(input.states);
    var i := OwnerIndex(input.states, e);
    ViewOf(input.states, input.states[i]);
    ViewOf(states, states[i]);
  }

  lemma Assumed(input: RoundInput, e: EdgeId)
    requires WellFormed(input) && e in input.participants
    ensures NoRepeat(Owners(input.states)) && NoRepeat(input.participants)
    ensures e in ByEdge(input.states) && Seen(input, e) == ByEdge(input.states)[e]
  {
  }

  // ---- distances after a shift ----

  const EVEN_SHIFT: real := Blend(40.0, 3.4, 1490.0)
  const ODD_SHIFT: real := Blend(60.0, 5.0, 2300.0)

  lemma ShiftDistance(x: Reading)
    ensures EVEN_SHIFT - BLENDED_HALF_STEP <= Distance(Shift(x, EVEN_OFFSET), x) <= EVEN_SHIFT + BLENDED_HALF_STEP
    ensures ODD_SHIFT - BLENDED_HALF_STEP <= Distance(Shift(x, ODD_OFFSET), x) <= ODD_SHIFT + BLENDED_HALF_STEP
  {
    ShiftedBy(x, EVEN_OFFSET, EVEN_SHIFT);
    ShiftedBy(x, ODD_OFFSET, ODD_SHIFT);
  }

  lemma ShiftedBy(x: Reading, offset: Reading, size: real)
    requires size == Blend(Abs(offset.temperature), Abs(offset.pressure), Abs(offset.rpm))
    ensures size - BLENDED_HALF_STEP <= Distance(Shift(x, offset), x) <= size + BLENDED_HALF_STEP
  {
    var exact := Reading(x.temperature + offset.temperature, x.pressure + offset.pressure, x.rpm + offset.rpm);
    assert Distance(exact, x) == size;
    PublishedIsNear(exact);
    hide Distance, Published;
    DistanceIsMetric(Shift(x, offset), exact, x);
    DistanceIsMetric(exact, Shift(x, offset), x);
  }

  // A shifted view is further than 1.5 from every view that its original agreed with.
  lemma ShiftedIsFar(x: Reading, offset: Reading, y: Reading)
    requires offset == EVEN_OFFSET || offset == ODD_OFFSET
    requires Compatible(x, y)
    ensures Distance(Shift(x, offset), y) > 1.5
  {
    ShiftDistance(x);
    assert EVEN_SHIFT - BLENDED_HALF_STEP > 1.85 && ODD_SHIFT - BLENDED_HALF_STEP > 1.85;
    hide Distance, Shift;
    DistanceIsMetric(Shift(x, offset), y, x);
    DistanceIsMetric(y, x, x);
  }

  // Two views that agreed no longer do once one is shifted up and the other down.
  lemma OppositeShiftsAreFar(x: Reading, y: Reading)
    requires Compatible(x, y)
    ensures !Compatible(Shift(x, EVEN_OFFSET), Shift(y, ODD_OFFSET))
    ensures !Compatible(Shift(y, ODD_OFFSET), Shift(x, EVEN_OFFSET))
  {
    ShiftDistance(x);
    ShiftDistance(y);
    assert ODD_SHIFT - EVEN_SHIFT - 2.0 * BLENDED_HALF_STEP > 0.9;
    hide Distance, Shift;
    var x', y' := Shift(x, EVEN_OFFSET), Shift(y, ODD_OFFSET);
    DistanceIsMetric(y', x', y);
    DistanceIsMetric(x', x, y);
    DistanceIsMetric(x', y', x);
  }

  // ---- verdicts on isolated edges ----

  ghost predicate Agreeing(input: RoundInput) {
    forall a, b :: a in input.participants && b in input.participants ==> Compatible(Seen(input, a), Seen(input, b))
  }

  ghost predicate Isolated(input: RoundInput, e: EdgeId) {
    forall p :: p in input.participants && p != e ==> !Compatible(Seen(input, e), Seen(input, p))
  }

  // Further than 1.5 from everybody else.
  ghost predicate Outlying(input: RoundInput, e: EdgeId) {
    forall p :: p in input.participants && p != e ==> Distance(Seen(input, e), Seen(input, p)) > 1.5
  }

  lemma IsolatedIsExcluded(input: RoundInput, e: EdgeId)
    requires WellFormed(input) && e in input.participants && Isolated(input, e)
    ensures e in ExcludedEdges(TrustOf(input).exclusions)
  {
    WellFormedIsEvaluable(input);
    hide TrustOf, Survives, Compatible;
    ExcludedIff(input, e);
    IsolatedFails(input.participants, ByEdge(input.states), e);
  }

  lemma IsolatedFails(participants: seq<EdgeId>, views: Views, e: EdgeId)
    requires Known(views, participants) && |participants| >= 2 && e in participants
    requires forall p :: p in participants && p != e ==> !Compatible(views[e], views[p])
    ensures !Survives(participants, views, e)
  {
    hide Compatible;
    SubsetSize(Neighbourhood(participants, views, e), {e});
  }

  lemma AllExcludedFails(out: RoundInput)
    requires WellFormed(out) && forall e :: e in out.participants ==> e in ExcludedEdges(TrustOf(out).exclusions)
    ensures |PackageOf(out).exclusions| == |out.participants|
    ensures PackageOf(out).status == FailedConsensus
    ensures BuildRoundSummary(PackageOf(out)).Ok?
    ensures ResolveConsensusBlockReason(BuildRoundSummary(PackageOf(out)).value) == NoQuorumReached
  {
    WellFormedIsEvaluable(out);
    hide TrustOf, SurvivorsOf, Published, MeanReading, ByEdge;
    if SurvivorsOf(out) != [] {
      SurvivingOwner(out, SurvivorsOf(out)[0]);
    }
    EngineTotal(out);
    SummaryCountsParticipants(out);
    FailedRoundsReportNoQuorum(out);
  }

  // When no two edges agree, everyone is excluded and the round is reported as a missing quorum.
  lemma AllIsolatedFails(out: RoundInput)
    requires WellFormed(out) && forall e :: e in out.participants ==> Isolated(out, e)
    ensures |PackageOf(out).exclusions| == |out.participants|
    ensures PackageOf(out).status == FailedConsensus
    ensures BuildRoundSummary(PackageOf(out)).Ok?
    ensures ResolveConsensusBlockReason(BuildRoundSummary(PackageOf(out)).value) == NoQuorumReached
  {
    hide TrustOf, Isolated, WellFormed;
    forall e | e in out.participants ensures e in ExcludedEdges(TrustOf(out).exclusions) {
      IsolatedIsExcluded(out, e);
    }
    AllExcludedFails(out);
  }

  lemma ExclusionIndex(input: RoundInput, x: Exclusion) returns (i: nat)
    requires Evaluable(input) && x in TrustOf(input).exclusions
    ensures i < |TrustOf(input).evidence| == |input.participants|
    ensures input.participants[i] == x.edge
    ensures x == Exclusion(input.round, x.edge, ReasonFor(TrustOf(input).evidence[i]))
  {
    hide TrustOf, IsExcluded, EvidenceFor, Peers, ExclusionsOf, ReasonFor;
    TrustShape(input);
    var evidence := TrustOf(input).evidence;
    ExclusionIff(input.participants, evidence, x);
    var ev :| ev in evidence && IsExcluded(input.participants, ev) && x == Exclusion(ev.round, ev.edge, ReasonFor(ev));
    i :| 0 <= i < |evidence| && evidence[i] == ev;
    EvidenceOf(input, i);
  }

  // An excluded outlier is called Byzantine.
  lemma OutlierIsByzantine(input: RoundInput, x: Exclusion)
    requires WellFormed(input) && x in TrustOf(input).exclusions && Outlying(input, x.edge)
    ensures x == Exclusion(input.round, x.edge, SuspectedByzantine)
  {
    WellFormedIsEvaluable(input);
    var i := ExclusionIndex(input, x);
    EvidenceOf(input, i);
    var views, peers := ByEdge(input.states), Peers(input.participants, x.edge);
    hide TrustOf, Distance, ByEdge, Peers, DeviationOf;
    PeersAre(input.participants, x.edge);
    forall p | p in peers ensures Distance(views[x.edge], views[p]) > 1.5 {
      Assumed(input, p);
    }
    FarDeviation(views, peers, views[x.edge]);
  }

  lemma FarDeviation(views: Views, peers: seq<EdgeId>, v: Reading)
    requires Known(views, peers) && peers != []
    requires forall p :: p in peers ==> Distance(v, views[p]) > 1.5
    ensures DeviationOf(v, ReadingsOf(views, peers)) >= SUSPECTED_BYZANTINE_THRESHOLD
  {
    hide Distance, Round3, Mean;
    var others := ReadingsOf(views, peers);
    forall r | r in others ensures SUSPECTED_BYZANTINE_THRESHOLD <= DistanceTo(v)(r) <= SumUpper(v, others) {
      var j :| 0 <= j < |peers| && others[j] == r;
      assert peers[j] in peers;
    }
    MeanWithin(DistanceTo(v), others, SUSPECTED_BYZANTINE_THRESHOLD, SumUpper(v, others));
    Round3Monotone(SUSPECTED_BYZANTINE_THRESHOLD, Mean(DistanceTo(v), others));
    Round3OnGrid(750);
  }

  // ---- the scenarios ----

  // One edge far from agreeing others is the only exclusion, it is called Byzantine, and the
  // others carry the round.
  lemma LoneOutlier(out: RoundInput, faulty: EdgeId)
    requires WellFormed(out) && |out.participants| >= 3 && faulty in out.participants && Outlying(out, faulty)
    requires forall p, q :: p in out.participants && q in out.participants && p != faulty && q != faulty
               ==> Compatible(Seen(out, p), Seen(out, q))
    ensures PackageOf(out).exclusions == [Exclusion(out.round, faulty, SuspectedByzantine)]
    ensures PackageOf(out).status == Success
  {
    OnlyOutlierExcluded(out, faulty);
    OnlyExclusion(out, faulty);
    hide TrustOf, SurvivorsOf, Published, MeanReading, Outlying, Compatible;
    OutlierIsByzantine(out, TrustOf(out).exclusions[0]);
    WellFormedIsEvaluable(out);
    EngineTotal(out);
    SurvivorsAre(out);
    CountsAgreeIff(out);
  }

  lemma OnlyOutlierExcluded(out: RoundInput, faulty: EdgeId)
    requires WellFormed(out) && |out.participants| >= 3 && faulty in out.participants && Outlying(out, faulty)
    requires forall p, q :: p in out.participants && q in out.participants && p != faulty && q != faulty
               ==> Compatible(Seen(out, p), Seen(out, q))
    ensures ExcludedEdges(TrustOf(out).exclusions) == {faulty}
  {
    forall e ensures e in ExcludedEdges(TrustOf(out).exclusions) <==> e == faulty {
      OutlierExcludedIff(out, faulty, e);
    }
  }

  lemma OutlierExcludedIff(out: RoundInput, faulty: EdgeId, e: EdgeId)
    requires WellFormed(out) && |out.participants| >= 3 && faulty in out.participants && Outlying(out, faulty)
    requires forall p, q :: p in out.participants && q in out.participants && p != faulty && q != faulty
               ==> Compatible(Seen(out, p), Seen(out, q))
    ensures e in ExcludedEdges(TrustOf(out).exclusions) <==> e == faulty
  {
    if e == faulty {
      assert Isolated(out, faulty);
      hide TrustOf;
      IsolatedIsExcluded(out, faulty);
    } else {
      WellFormedIsEvaluable(out);
      hide TrustOf, Compatible, Survives, ByEdge, Seen, Outlying, PeersUpTo, Peers;
      ExcludedIff(out, e);
      if e in out.participants {
        OthersSurvive(out, faulty, e);
      }
    }
  }

  lemma OthersSurvive(out: RoundInput, faulty: EdgeId, e: EdgeId)
    requires WellFormed(out) && |out.participants| >= 3
    requires faulty in out.participants && e in out.participants && e != faulty
    requires forall p :: p in out.participants && p != faulty ==> Compatible(Seen(out, e), Seen(out, p))
    ensures Survives(out.participants, ByEdge(out.states), e)
  {
    hide Compatible;
    var others := Elements(out.participants) - {faulty};
    DistinctCount(out.participants);
    assert |others| == |out.participants| - 1;
    SubsetSize(others, Neighbourhood(out.participants, ByEdge(out.states), e));
  }

  lemma OnlyExclusion(out: RoundInput, faulty: EdgeId)
    requires WellFormed(out) && ExcludedEdges(TrustOf(out).exclusions) == {faulty}
    ensures |TrustOf(out).exclusions| == 1 && TrustOf(out).exclusions[0].edge == faulty
  {
    WellFormedIsEvaluable(out);
    hide TrustOf;
    TrustShape(out);
    var evidence := TrustOf(out).evidence;
    forall i, j | 0 <= i < j < |evidence| ensures evidence[i].edge != evidence[j].edge {
      EvidenceOf(out, i);
      EvidenceOf(out, j);
    }
    ExclusionsDistinct(out.participants, evidence);
    assert TrustOf(out).exclusions[0].edge in ExcludedEdges(TrustOf(out).exclusions);
  }

  // One injected edge among three or more agreeing ones is the only exclusion, it is called
  // Byzantine, and the round still succeeds.
  lemma SingleFaultIsContained(input: RoundInput, config: FaultConfig, faulty: EdgeId)
    requires WellFormed(input) && Agreeing(input) && |input.participants| >= 3
    requires config.mode != NoFault && ResolveFaultyEdges(config, input.participants) == [faulty]
    requires faulty in input.participants
    ensures WellFormed(Injected(input, config))
    ensures var package := PackageOf(Injected(input, config));
            && package.exclusions == [Exclusion(input.round, faulty, SuspectedByzantine)]
            && package.status == Success
  {
    SingleOffset(input, config, faulty);
    hide Shift, PackageOf, WellFormed, Distance, Injected, InjectStates, Seen;
    var out, offsets := Injected(input, config), map[faulty := EVEN_OFFSET];
    InjectedIsWellFormed(input, offsets);
    forall p | p in input.participants
      ensures Seen(out, p) == if p == faulty then Shift(Seen(input, p), EVEN_OFFSET) else Seen(input, p)
    {
      InjectedView(input, offsets, p);
    }
    forall p | p in input.participants && p != faulty ensures Distance(Seen(out, faulty), Seen(out, p)) > 1.5 {
      ShiftedIsFar(Seen(input, faulty), EVEN_OFFSET, Seen(input, p));
    }
    LoneOutlier(out, faulty);
  }

  lemma SingleOffset(input: RoundInput, config: FaultConfig, faulty: EdgeId)
    requires config.mode != NoFault && ResolveFaultyEdges(config, input.participants) == [faulty]
    ensures Injected(input, config) == input.(states := InjectStates(input.states, map[faulty := EVEN_OFFSET]))
  {
    assert [faulty][..0] == [];
    assert OffsetsByEdge([faulty]) == map[faulty := EVEN_OFFSET];
  }

  lemma KeepOne(e: EdgeId, participants: seq<EdgeId>)
    requires e in participants
    ensures Keep([e], participants) == [e]
  {
    assert [e][..0] == [];
  }

  // The default single-edge scenario, by its name.
  lemma DefaultSingleEdgeExclusion(input: RoundInput)
    requires WellFormed(input) && Agreeing(input) && |input.participants| >= 3 && "edge-3" in input.participants
    ensures var package := PackageOf(Injected(input, FaultConfig(SingleEdgeExclusion, [])));
            && package.exclusions == [Exclusion(input.round, "edge-3", SuspectedByzantine)]
            && package.status == Success
  {
    KeepOne("edge-3", input.participants);
    hide Injected, PackageOf, Keep, WellFormed, Agreeing;
    SingleFaultIsContained(input, FaultConfig(SingleEdgeExclusion, []), "edge-3");
  }

  const LOSS_OFFSETS: map<EdgeId, Reading> := map["edge-2" := EVEN_OFFSET, "edge-3" := ODD_OFFSET]

  lemma TwoOffsets(a: EdgeId, b: EdgeId, participants: seq<EdgeId>)
    requires a in participants && b in participants && a != b
    ensures Keep([a, b], participants) == [a, b]
    ensures OffsetsByEdge([a, b]) == map[a := EVEN_OFFSET, b := ODD_OFFSET]
  {
    var one, two := [a], [a, b];
    KeepOne(a, participants);
    assert one[..0] == [] && two[..1] == one;
    assert OffsetsByEdge(one) == map[a := EVEN_OFFSET];
  }

  lemma QuorumLossOffsets(input: RoundInput)
    requires "edge-2" in input.participants && "edge-3" in input.participants
    ensures Injected(input, FaultConfig(QuorumLoss, [])) == input.(states := InjectStates(input.states, LOSS_OFFSETS))
  {
    DistinctNames();
    TwoOffsets("edge-2", "edge-3", input.participants);
  }

  lemma DistinctNames()
    ensures "edge-2" != "edge-3"
  {
    var two, three := "edge-2", "edge-3";
    assert two[5] != three[5];
  }

  // The default quorum loss on three agreeing edges excludes all three, fails the round,
  // and is reported as a missing quorum.
  lemma QuorumLossFails(input: RoundInput)
    requires WellFormed(input) && Agreeing(input) && |input.participants| == 3
    requires "edge-2" in input.participants && "edge-3" in input.participants
    ensures var out := Injected(input, FaultConfig(QuorumLoss, []));
            && WellFormed(out)
            && |PackageOf(out).exclusions| == 3
            && PackageOf(out).status == FailedConsensus
            && BuildRoundSummary(PackageOf(out)).Ok?
            && ResolveConsensusBlockReason(BuildRoundSummary(PackageOf(out)).value) == NoQuorumReached
  {
    QuorumLossOffsets(input);
    hide Shift, PackageOf, WellFormed, BuildRoundSummary, Agreeing, Injected, InjectStates, Compatible;
    var out := Injected(input, FaultConfig(QuorumLoss, []));
    InjectedIsWellFormed(input, LOSS_OFFSETS);
    forall e | e in out.participants ensures Isolated(out, e) {
      forall p | p in out.participants && p != e ensures !Compatible(Seen(out, e), Seen(out, p)) {
        InjectedView(input, LOSS_OFFSETS, e);
        InjectedView(input, LOSS_OFFSETS, p);
        DisagreeAfterLoss(input, e, p);
      }
    }
    AllIsolatedFails(out);
  }

  ghost function AfterLoss(input: RoundInput, e: EdgeId): Reading {
    if e in LOSS_OFFSETS then Shift(Seen(input, e), LOSS_OFFSETS[e]) else Seen(input, e)
  }

  lemma DisagreeAfterLoss(input: RoundInput, a: EdgeId, b: EdgeId)
    requires WellFormed(input) && Agreeing(input) && |input.participants| == 3
    requires "edge-2" in input.participants && "edge-3" in input.participants
    requires a in input.participants && b in input.participants && a != b
    ensures !Compatible(AfterLoss(input, a), AfterLoss(input, b))
  {
    var x, y := Seen(input, a), Seen(input, b);
    assert Compatible(x, y) && Compatible(y, x);
    OneUnshifted(input.participants, a, b);
    DistinctNames();
    hide Shift, Distance, Seen, WellFormed, Agreeing;
    if a == "edge-2" && b == "edge-3" {
      OppositeShiftsAreFar(x, y);
    } else if a == "edge-3" && b == "edge-2" {
      OppositeShiftsAreFar(y, x);
    } else if a == "edge-2" || a == "edge-3" {
      ShiftedIsFar(x, if a == "edge-2" then EVEN_OFFSET else ODD_OFFSET, y);
    } else {
      var offset := if b == "edge-2" then EVEN_OFFSET else ODD_OFFSET;
      ShiftedIsFar(y, offset, x);
      DistanceIsMetric(x, Shift(y, offset), x);
    }
  }

  // Of two distinct edges among three, at most one is neither edge-2 nor edge-3.
  lemma OneUnshifted(participants: seq<EdgeId>, a: EdgeId, b: EdgeId)
    requires NoRepeat(participants) && |participants| == 3
    requires "edge-2" in participants && "edge-3" in participants && a in participants && b in participants && a != b
    ensures a == "edge-2" || a == "edge-3" || b == "edge-2" || b == "edge-3"
  {
    DistinctNames();
    var all := {"edge-2", "edge-3", a, b};
    DistinctCount(participants);
    SubsetSize(all, Elements(participants));
  }
}
