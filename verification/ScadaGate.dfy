// From an audit package to persistence and fingerprinting: the SCADA comparison and the
// gates that stay closed unless everything before them succeeded.
module ScadaGate {
  import opened Wrappers
  import opened Rounding
  import opened Readings
  import opened TrustModel
  import opened Engine

  // ---- comparison ----

  function Tolerance(s: Sensor): real {
    match s
    case Temperature => 2.0
    case Pressure => 0.35
    case Rpm => 120.0
  }

  datatype SensorComparison = SensorComparison(
    sensor: Sensor, physical: real, scada: real, difference: real, tolerance: real, within: bool)

  datatype Classification = Match | Divergent

  datatype SensorOutput = SensorOutput(comparison: SensorComparison, classification: Classification)

  datatype ComparisonOutput = ComparisonOutput(round: RoundIdentity, sensors: seq<SensorOutput>) {
    function DivergentOutputs(): seq<SensorOutput> {
      Divergences(sensors)
    }
  }

  datatype Alert = Alert(round: RoundIdentity, sensors: seq<SensorOutput>)

  // What the gate can raise: a comparison without a state, an agreed or a supervisory state that lacks a
  // sensor, a source edge without a replicated state, a projection, a round without participants.
  datatype GateError =
    | ComparisonBlocked | AgreedSensorMissing | ScadaSensorMissing | SourceStateMissing
    | ProjectionRaised(message: string) | SummaryFailed(error: EngineError)

  // The values of a state, by sensor.
  type SensorValues = map<Sensor, real>

  function ValuesOf(reading: Reading): SensorValues {
    map[Temperature := reading.temperature, Pressure := reading.pressure, Rpm := reading.rpm]
  }

  function CompareSensor(s: Sensor, physical: real, scada: real): SensorComparison {
    var p, q, t := Round3(physical), Round3(scada), Round3(Tolerance(s));
    var d := Round3(Abs(p - q));
    SensorComparison(s, p, q, d, t, d <= t)
  }

  function CompareSensors(agreed: SensorValues, scada: SensorValues, sensors: seq<Sensor>): (r: seq<SensorComparison>)
    requires forall s :: s in sensors ==> s in agreed && s in scada
    ensures |r| == |sensors|
  {
    seq(|sensors|, i requires 0 <= i < |sensors| => CompareSensor(sensors[i], agreed[sensors[i]], scada[sensors[i]]))
  }

  predicate HasSensors(values: SensorValues) {
    forall s :: s in SENSORS ==> s in values
  }

  method CompareConsensusedToScada(state: Option<SensorValues>, scada: SensorValues)
    returns (r: Result<seq<SensorComparison>, GateError>)
    ensures state.None? ==> r == Err(ComparisonBlocked)
    ensures state.Some? && !HasSensors(state.value) ==> r == Err(AgreedSensorMissing)
    ensures state.Some? && HasSensors(state.value) && !HasSensors(scada) ==> r == Err(ScadaSensorMissing)
    ensures state.Some? && HasSensors(state.value) && HasSensors(scada) ==> r == Ok(CompareSensors(state.value, scada, SENSORS))
  {
    if state.None? {
      return Err(ComparisonBlocked);
    }
    if exists s :: s in SENSORS && s !in state.value {
      return Err(AgreedSensorMissing);
    }
    if exists s :: s in SENSORS && s !in scada {
      return Err(ScadaSensorMissing);
    }
    var comparisons: seq<SensorComparison> := [];
    for i := 0 to |SENSORS|
      invariant comparisons == CompareSensors(state.value, scada, SENSORS[..i])
    {
      var s := SENSORS[i];
      comparisons := comparisons + [CompareSensor(s, state.value[s], scada[s])];
    }
    assert SENSORS[..|SENSORS|] == SENSORS;
    r := Ok(comparisons);
  }

  function Classify(comparison: SensorComparison): SensorOutput {
    SensorOutput(comparison, if comparison.within then Match else Divergent)
  }

  function ClassifyAll(comparisons: seq<SensorComparison>): (r: seq<SensorOutput>)
    ensures |r| == |comparisons|
  {
    seq(|comparisons|, i requires 0 <= i < |comparisons| => Classify(comparisons[i]))
  }

  method BuildScadaComparisonOutput(round: RoundIdentity, comparisons: seq<SensorComparison>) returns (output: ComparisonOutput)
    ensures output == ComparisonOutput(round, ClassifyAll(comparisons))
  {
    var sensors: seq<SensorOutput> := [];
    for i := 0 to |comparisons|
      invariant sensors == ClassifyAll(comparisons[..i])
    {
      sensors := sensors + [Classify(comparisons[i])];
    }
    assert comparisons[..|comparisons|] == comparisons;
    output := ComparisonOutput(round, sensors);
  }

  function Divergences(sensors: seq<SensorOutput>): seq<SensorOutput> {
    if sensors == [] then []
    else
      Divergences(sensors[..|sensors| - 1])
      + (if sensors[|sensors| - 1].classification == Divergent then [sensors[|sensors| - 1]] else [])
  }

  function BuildScadaDivergenceAlert(output: ComparisonOutput): Option<Alert> {
    if output.DivergentOutputs() == [] then None else Some(Alert(output.round, output.DivergentOutputs()))
  }

  // ---- comparison, then persistence ----

  datatype StageStatus = StageCompleted | StageBlocked | StageBlockedDownstream | StagePersisted | StageError

  datatype Stage = Stage(status: StageStatus, reason: Option<BlockReason>, downstreamPermitted: bool)

  // What the object store does when it is asked to write.
  datatype StoreOutcome = Stored(key: string) | StoreRaised(message: string)

  // How the persistence service ends: a record, its own refusal, or any other exception.
  datatype PersistOutcome = Record(key: string) | Refused(message: string) | Raised(message: string)

  datatype GateResult = GateResult(
    comparison: Stage, output: Option<ComparisonOutput>, alert: Option<Alert>, persistence: Stage,
    persistAttempted: bool)

  function PersistValidConsensusArtifact(package: AuditPackage, output: ComparisonOutput, store: StoreOutcome): PersistOutcome {
    if package.status != Success then Refused("consensus did not succeed")
    else if package.validState.None? then Refused("no consensused valid state exists")
    else if package.input.round != output.round then Raised("round identity")
    else match store
      case Stored(key) => Record(key)
      case StoreRaised(message) => Raised(message)
  }

  function SelectScadaSourceState(states: seq<ReplicatedState>, sourceEdges: seq<EdgeId>): Option<ReplicatedState> {
    if states == [] then None
    else if states[0].owner in sourceEdges then Some(states[0])
    else SelectScadaSourceState(states[1..], sourceEdges)
  }

  function PersistenceStage(outcome: PersistOutcome): Stage {
    match outcome
    case Record(_) => Stage(StagePersisted, None, true)
    case Refused(message) => Stage(StageBlocked, Some(PersistenceRefused(message)), false)
    case Raised(message) => Stage(StageError, Some(PersistenceRefused(message)), false)
  }

  // The supervisory values the SCADA service produces from the agreed state and its source view, or
  // the message of the exception that leaves the gate.
  type Projection = (SensorValues, ReplicatedState) -> Result<SensorValues, string>

  // agreed: the values of the package's agreed state, when it has one.
  method RunScadaComparisonAndPersistence(package: AuditPackage, agreed: SensorValues, project: Projection,
                                          store: StoreOutcome)
    returns (r: Result<GateResult, GateError>)
    ensures r == GateSpec(package, agreed, project, store)
  {
    var summary := BuildRoundSummary(package);
    if summary.Err? {
      return Err(SummaryFailed(summary.error));
    }
    if package.validState.None? {
      var blocked := Stage(StageBlocked, Some(ResolveConsensusBlockReason(summary.value)), false);
      return Ok(GateResult(blocked, None, None, blocked, false));
    }
    var state := package.validState.value;
    var source := SelectScadaSourceState(package.input.states, state.sourceEdges);
    if source.None? {
      return Err(SourceStateMissing);
    }
    var scada := project(agreed, source.value);
    if scada.Err? {
      return Err(ProjectionRaised(scada.error));
    }
    var comparisons := CompareConsensusedToScada(Some(agreed), scada.value);
    if comparisons.Err? {
      return Err(comparisons.error);
    }
    var output := BuildScadaComparisonOutput(state.round, comparisons.value);
    var alert := BuildScadaDivergenceAlert(output);
    if output.DivergentOutputs() != [] {
      return Ok(GateResult(Stage(StageBlockedDownstream, Some(ScadaDivergenceDetected), false), Some(output), alert,
                           Stage(StageBlocked, Some(ScadaDivergenceDetected), false), false));
    }
    var persisted := PersistValidConsensusArtifact(package, output, store);
    r := Ok(GateResult(Stage(StageCompleted, None, true), Some(output), alert, PersistenceStage(persisted), true));
  }

  function GateSpec(package: AuditPackage, agreed: SensorValues, project: Projection, store: StoreOutcome)
    : Result<GateResult, GateError>
  {
    match BuildRoundSummary(package)
    case Err(e) => Err(SummaryFailed(e))
    case Ok(summary) =>
      if package.validState.None? then
        var blocked := Stage(StageBlocked, Some(ResolveConsensusBlockReason(summary)), false);
        Ok(GateResult(blocked, None, None, blocked, false))
      else
        var state := package.validState.value;
        match SelectScadaSourceState(package.input.states, state.sourceEdges)
        case None => Err(SourceStateMissing)
        case Some(source) =>
          match project(agreed, source)
          case Err(message) => Err(ProjectionRaised(message))
          case Ok(scada) =>
            if !HasSensors(agreed) then Err(AgreedSensorMissing)
            else if !HasSensors(scada) then Err(ScadaSensorMissing)
            else
              var output := ComparisonOutput(state.round, ClassifyAll(CompareSensors(agreed, scada, SENSORS)));
              var alert := BuildScadaDivergenceAlert(output);
              if output.DivergentOutputs() != [] then
                Ok(GateResult(Stage(StageBlockedDownstream, Some(ScadaDivergenceDetected), false), Some(output), alert,
                              Stage(StageBlocked, Some(ScadaDivergenceDetected), false), false))
              else
                Ok(GateResult(Stage(StageCompleted, None, true), Some(output), alert,
                              PersistenceStage(PersistValidConsensusArtifact(package, output, store)), true))
  }

  // ---- fingerprinting ----

  // An empty reason text counts as no reason.
  predicate Stated(reason: Option<BlockReason>) {
    reason.Some? && reason != Some(PersistenceRefused(""))
  }

  function DownstreamBlockReason(comparison: Stage, persistence: Stage): Option<BlockReason> {
    if !comparison.downstreamPermitted then
      Some(if Stated(comparison.reason) then comparison.reason.value else DownstreamBlocked)
    else if persistence.status != StagePersisted then
      Some(if Stated(persistence.reason) then persistence.reason.value else DownstreamPersistenceUnavailable)
    else None
  }

  datatype FingerprintStage = LifecycleBlocked(reason: BlockReason) | AutoencoderDisabled | LifecycleError | LifecycleRan

  // lifecycleCalled: the deferred lifecycle was executed, whatever came of it.
  function ExecuteFingerprintPipeline(gate: GateResult, disableAutoencoder: bool, lifecycleRaises: bool)
    : (FingerprintStage, bool)
  {
    match DownstreamBlockReason(gate.comparison, gate.persistence)
    case Some(reason) => (LifecycleBlocked(reason), false)
    case None =>
      if disableAutoencoder then (AutoencoderDisabled, false)
      else (if lifecycleRaises then LifecycleError else LifecycleRan, true)
  }
}
