// One consensus round: survivors, the quorum test, the averaged state, the records
// whose constructors cross-check it, and the summary that recounts it.
module Engine {
  import opened Wrappers
  import opened Rounding
  import opened Readings
  import opened Sums
  import opened TrustModel

  datatype RoundInput = RoundInput(round: RoundIdentity, participants: seq<EdgeId>, states: seq<ReplicatedState>) {
    // The constructor's checks.
    predicate Accepted() {
      forall s :: s in states ==> s.round == round && s.owner in participants
    }
  }

  datatype Status = Success | FailedConsensus

  datatype ValidState = ValidState(round: RoundIdentity, sourceEdges: seq<EdgeId>, values: Reading)

  datatype ConsensusResult = ConsensusResult(
    round: RoundIdentity,
    status: Status,
    participants: seq<EdgeId>,
    ranking: Ranking,
    exclusions: seq<Exclusion>,
    validState: Option<ValidState>)
  {
    predicate Accepted() {
      && ranking.round == round
      && (forall x :: x in exclusions ==> x.round == round)
      && (set x | x in ranking.entries :: x.edge) == (set p | p in participants)
      && (status == Success ==> validState.Some?)
      && (status == FailedConsensus ==> validState.None?)
      && (validState.Some? ==> validState.value.round == round)
    }
  }

  datatype AuditPackage = AuditPackage(
    input: RoundInput,
    ranking: Ranking,
    exclusions: seq<Exclusion>,
    evidence: seq<Evidence>,
    status: Status,
    result: ConsensusResult,
    validState: Option<ValidState>)
  {
    predicate Accepted() {
      && ranking.round == input.round
      && (forall x :: x in exclusions ==> x.round == input.round)
      && (forall x :: x in evidence ==> x.round == input.round)
      && result.round == input.round
      && result.ranking == ranking
      && result.exclusions == exclusions
      && result.status == status
      && result.validState == validState
    }
  }

  // What `evaluate` can raise.  A contract violation is a ValueError of one of the constructors.
  datatype EngineError = TrustFailed(error: TrustError) | NonPositiveParticipants | ContractViolation

  // ---- what is computed ----

  function RequiredQuorum(participantCount: int): (r: Result<nat, EngineError>)
    ensures r.Ok? <==> participantCount > 0
    ensures r.Ok? ==> participantCount < 2 * r.value <= participantCount + 2
  {
    if participantCount <= 0 then Err(NonPositiveParticipants) else Ok(Majority(participantCount))
  }

  function ExcludedEdges(exclusions: seq<Exclusion>): set<EdgeId> {
    set x | x in exclusions :: x.edge
  }

  // The states of the edges that were not excluded, in input order.
  function ValidStates(states: seq<ReplicatedState>, excluded: set<EdgeId>): seq<ReplicatedState> {
    if states == [] then []
    else
      var n := |states| - 1;
      ValidStates(states[..n], excluded) + (if states[n].owner !in excluded then [states[n]] else [])
  }

  function ReadingsIn(states: seq<ReplicatedState>): (r: seq<Reading>)
    ensures |r| == |states| && forall i :: 0 <= i < |states| ==> r[i] == states[i].reading
  {
    seq(|states|, i requires 0 <= i < |states| => states[i].reading)
  }

  function Owners(states: seq<ReplicatedState>): (r: seq<EdgeId>)
    ensures |r| == |states| && forall i :: 0 <= i < |states| ==> r[i] == states[i].owner
  {
    seq(|states|, i requires 0 <= i < |states| => states[i].owner)
  }

  function Published(x: Reading): Reading {
    Reading(Round3(x.temperature), Round3(x.pressure), Round3(x.rpm))
  }

  function BuildState(round: RoundIdentity, valid: seq<ReplicatedState>): ValidState
    requires valid != []
  {
    ValidState(round, Owners(valid), Published(MeanReading(ReadingsIn(valid))))
  }

  // The package assembled from a trust outcome, before its constructors run.
  function Assemble(input: RoundInput, trust: TrustOutcome): AuditPackage
    requires input.participants != []
  {
    var valid := ValidStates(input.states, ExcludedEdges(trust.exclusions));
    var agreed := |valid| >= Majority(|input.participants|);
    var state := if agreed then Some(BuildState(input.round, valid)) else None;
    var status := if agreed then Success else FailedConsensus;
    AuditPackage(input, trust.ranking, trust.exclusions, trust.evidence, status,
                 ConsensusResult(input.round, status, input.participants, trust.ranking, trust.exclusions, state), state)
  }

  ghost function EngineSpec(input: RoundInput): Result<AuditPackage, EngineError> {
    match TrustSpec(input.round, input.participants, input.states)
    case Err(e) => Err(TrustFailed(e))
    case Ok(trust) =>
      if input.participants == [] then Err(NonPositiveParticipants)
      else
        var package := Assemble(input, trust);
        if trust.ranking.Accepted() && package.result.Accepted() && package.Accepted() then Ok(package)
        else Err(ContractViolation)
  }

  // ---- how it is computed ----

  method AverageSensor(sensor: Sensor, valid: seq<ReplicatedState>) returns (value: real)
    requires valid != []
    ensures value == Round3(MeanReading(ReadingsIn(valid)).At(sensor))
  {
    var total := 0.0;
    ghost var views := ReadingsIn(valid);
    for i := 0 to |valid|
      invariant total == SumBy(ValueOf(sensor), views[..i])
    {
      SumSnoc(ValueOf(sensor), views[..i], views[i]);
      assert views[..i + 1] == views[..i] + [views[i]];
      total := total + valid[i].reading.At(sensor);
    }
    assert views[..|valid|] == views;
    value := Round3(total / |valid| as real);
  }

  // The sensor dictionary is filled one sensor at a time.
  method BuildConsensusedValidState(round: RoundIdentity, valid: seq<ReplicatedState>) returns (state: ValidState)
    requires valid != []
    ensures state == BuildState(round, valid)
  {
    hide Round3, MeanReading;
    var values: map<Sensor, real> := map[];
    for i := 0 to |SENSORS|
      invariant forall s :: s in values <==> s in SENSORS[..i]
      invariant forall s :: s in values ==> values[s] == Round3(MeanReading(ReadingsIn(valid)).At(s))
    {
      var value := AverageSensor(SENSORS[i], valid);
      values := values[SENSORS[i] := value];
    }
    assert SENSORS[0] in values && SENSORS[1] in values && SENSORS[2] in values;
    state := ValidState(round, Owners(valid), Reading(values[Temperature], values[Pressure], values[Rpm]));
  }

  method SelectValidStates(states: seq<ReplicatedState>, excluded: set<EdgeId>) returns (valid: seq<ReplicatedState>)
    ensures valid == ValidStates(states, excluded)
  {
    valid := [];
    for i := 0 to |states|
      invariant valid == ValidStates(states[..i], excluded)
    {
      assert states[..i + 1][..i] == states[..i];
      if states[i].owner !in excluded {
        valid := valid + [states[i]];
      }
    }
    assert states[..|states|] == states;
  }

  method Evaluate(input: RoundInput) returns (r: Result<AuditPackage, EngineError>)
    ensures r == EngineSpec(input)
  {
    hide MeanReading, Round3;
    var evaluated := EvaluateTrust(input.round, input.participants, input.states);
    if evaluated.Err? {
      return Err(TrustFailed(evaluated.error));
    }
    var trust := evaluated.value;
    var valid := SelectValidStates(input.states, ExcludedEdges(trust.exclusions));
    var quorum := RequiredQuorum(|input.participants|);
    if quorum.Err? {
      return Err(quorum.error);
    }
    var status, state := FailedConsensus, None;
    if |valid| >= quorum.value {
      var built := BuildConsensusedValidState(input.round, valid);
      state := Some(built);
      status := Success;
    }
    var result := ConsensusResult(input.round, status, input.participants, trust.ranking, trust.exclusions, state);
    var package := AuditPackage(input, trust.ranking, trust.exclusions, trust.evidence, status, result, state);
    r := if trust.ranking.Accepted() && result.Accepted() && package.Accepted() then Ok(package) else Err(ContractViolation);
  }

  // ---- the summary of a package ----

  datatype RoundSummary = RoundSummary(
    roundId: string,
    totalParticipants: nat,
    quorumRequired: nat,
    validParticipantsAfterExclusions: int,
    excludedEdges: seq<EdgeId>,
    exclusionReasons: seq<Reason>,
    finalStatus: Status,
    hasValidState: bool)

  // Fails like RequiredQuorum when nobody participated.
  function BuildRoundSummary(package: AuditPackage): Result<RoundSummary, EngineError> {
    var total := |package.input.participants|;
    match RequiredQuorum(total)
    case Err(e) => Err(e)
    case Ok(quorum) =>
      Ok(RoundSummary(package.input.round.roundId, total, quorum, total - |package.exclusions|,
                      seq(|package.exclusions|, i requires 0 <= i < |package.exclusions| => package.exclusions[i].edge),
                      seq(|package.exclusions|, i requires 0 <= i < |package.exclusions| => package.exclusions[i].reason),
                      package.status, package.validState.Some?))
  }

  datatype BlockReason = NoQuorumReached | NoConsensusedValidState | ScadaDivergenceDetected
                       | DownstreamPersistenceUnavailable | PersistenceRefused(message: string) | DownstreamBlocked

  function ResolveConsensusBlockReason(summary: RoundSummary): BlockReason {
    if summary.finalStatus == FailedConsensus && summary.validParticipantsAfterExclusions < summary.quorumRequired
    then NoQuorumReached
    else NoConsensusedValidState
  }
}
