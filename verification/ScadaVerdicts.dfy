// What the supervisory comparison records of each sensor, and what the gate records of each stage.
module ScadaVerdicts {
  import opened Wrappers
  import opened Rounding
  import opened Readings
  import opened TrustModel
  import opened Engine
  import opened ScadaGate
  import opened ScadaGateProperties

  // ---- the comparison ----

  // A row holds both published values, how far apart they are, the sensor's tolerance, and whether that is within it.
  ghost predicate RowSays(c: SensorComparison, s: Sensor, agreed: real, supervisory: real, tolerance: real) {
    && c.sensor == s
    && IsPublished(c.physical, agreed) && IsPublished(c.scada, supervisory)
    && c.difference == (if c.physical >= c.scada then c.physical - c.scada else c.scada - c.physical)
    && c.tolerance == tolerance
    && (c.within <==> c.difference <= c.tolerance)
  }

  // The three sensors in order.
  ghost predicate RowsSay(rows: seq<SensorComparison>, agreed: SensorValues, scada: SensorValues)
    requires {Temperature, Pressure, Rpm} <= agreed.Keys && {Temperature, Pressure, Rpm} <= scada.Keys
  {
    && |rows| == 3
    && RowSays(rows[0], Temperature, agreed[Temperature], scada[Temperature], 2.0)
    && RowSays(rows[1], Pressure, agreed[Pressure], scada[Pressure], 0.35)
    && RowSays(rows[2], Rpm, agreed[Rpm], scada[Rpm], 120.0)
  }

  lemma CompareSensorSays(s: Sensor, agreed: real, supervisory: real)
    ensures RowSays(CompareSensor(s, agreed, supervisory), s, agreed, supervisory,
                    match s case Temperature => 2.0 case Pressure => 0.35 case Rpm => 120.0)
  {
    ToleranceOnGrid(s);
    DifferenceOnGrid(agreed, supervisory);
    Round3IsPublished(agreed);
    Round3IsPublished(supervisory);
    hide Round3, IsPublished;
  }

  lemma SensorsAreNamed(values: SensorValues)
    ensures HasSensors(values) <==> {Temperature, Pressure, Rpm} <= values.Keys
  {
    assert SENSORS[0] == Temperature && SENSORS[1] == Pressure && SENSORS[2] == Rpm;
  }

  lemma RowsAre(agreed: SensorValues, scada: SensorValues)
    requires {Temperature, Pressure, Rpm} <= agreed.Keys && {Temperature, Pressure, Rpm} <= scada.Keys
    ensures HasSensors(agreed) && HasSensors(scada) && RowsSay(CompareSensors(agreed, scada, SENSORS), agreed, scada)
  {
    hide CompareSensor, RowSays;
    SensorsAreNamed(agreed);
    SensorsAreNamed(scada);
    CompareSensorSays(Temperature, agreed[Temperature], scada[Temperature]);
    CompareSensorSays(Pressure, agreed[Pressure], scada[Pressure]);
    CompareSensorSays(Rpm, agreed[Rpm], scada[Rpm]);
  }

  // ---- the output and the alert ----

  // Each row is kept and called divergent exactly when it is out of tolerance.
  ghost predicate OutputSays(output: ComparisonOutput, round: RoundIdentity, rows: seq<SensorComparison>) {
    && output.round == round && |output.sensors| == |rows|
    && forall i :: 0 <= i < |rows| ==>
         output.sensors[i].comparison == rows[i]
         && output.sensors[i].classification == (if rows[i].within then Match else Divergent)
  }

  // The divergent rows in their places.
  ghost predicate IsDivergentPart(part: seq<SensorOutput>, whole: seq<SensorOutput>)
    requires |whole| == 3
  {
    part == (if whole[0].classification == Divergent then [whole[0]] else [])
          + (if whole[1].classification == Divergent then [whole[1]] else [])
          + (if whole[2].classification == Divergent then [whole[2]] else [])
  }

  lemma DivergencesOfThree(sensors: seq<SensorOutput>)
    requires |sensors| == 3
    ensures IsDivergentPart(Divergences(sensors), sensors)
  {
    var one, two := sensors[..1], sensors[..2];
    assert sensors[..|sensors| - 1] == two && two[..|two| - 1] == one && one[..|one| - 1] == [];
    assert Divergences(one) == if sensors[0].classification == Divergent then [sensors[0]] else [];
    assert Divergences(two) == Divergences(one) + if sensors[1].classification == Divergent then [sensors[1]] else [];
  }

  // ---- the gate ----

  // The first state of the round that belongs to a source edge.
  ghost predicate IsSource(states: seq<ReplicatedState>, sourceEdges: seq<EdgeId>, i: nat) {
    i < |states| && states[i].owner in sourceEdges && forall j :: 0 <= j < i ==> states[j].owner !in sourceEdges
  }

  lemma {:induction false} SourceIsFirst(states: seq<ReplicatedState>, sourceEdges: seq<EdgeId>, i: nat)
    requires IsSource(states, sourceEdges, i)
    ensures SelectScadaSourceState(states, sourceEdges) == Some(states[i])
  {
    if i > 0 {
      assert forall j :: 0 <= j < i - 1 ==> states[1..][j].owner !in sourceEdges;
      SourceIsFirst(states[1..], sourceEdges, i - 1);
    }
  }

  // A package without an agreed state blocks both stages, for want of a quorum or, if enough participants remain by
  // the summary's count, of a state.
  lemma GateWithoutState(package: AuditPackage, agreed: SensorValues, project: Projection, store: StoreOutcome)
    requires package.validState.None? && package.input.participants != []
    ensures var r, n := GateSpec(package, agreed, project, store), |package.input.participants|;
            var reason := if package.status == FailedConsensus && 2 * (n - |package.exclusions|) <= n then NoQuorumReached
                          else NoConsensusedValidState;
            && r.Ok? && r.value.output == None && r.value.alert == None && !r.value.persistAttempted
            && r.value.comparison == Stage(StageBlocked, Some(reason), false)
            && r.value.persistence == Stage(StageBlocked, Some(reason), false)
  {
  }

  // A round without participants makes the gate raise before anything else.
  lemma GateWithoutParticipants(package: AuditPackage, agreed: SensorValues, project: Projection, store: StoreOutcome)
    requires package.input.participants == []
    ensures GateSpec(package, agreed, project, store) == Err(SummaryFailed(NonPositiveParticipants))
  {
  }

  // The service refuses what consensus did not agree on, and only then asks for the round and the store.
  lemma PersistSays(package: AuditPackage, output: ComparisonOutput, store: StoreOutcome)
    ensures var r := PersistValidConsensusArtifact(package, output, store);
            && (r.Record? <==>
                  && package.status == Success && package.validState.Some? && package.input.round == output.round
                  && store.Stored?)
            && (r.Record? ==> r.key == store.key)
            && (r.Refused? <==> package.status != Success || package.validState.None?)
            && (r.Raised? && package.input.round == output.round ==> store.StoreRaised? && r.message == store.message)
  {
  }

  // What the gate answers once both states carry the three sensors.
  ghost predicate GateSays(gate: GateResult, round: RoundIdentity, agreed: SensorValues, scada: SensorValues, store: StoreOutcome)
    requires {Temperature, Pressure, Rpm} <= agreed.Keys && {Temperature, Pressure, Rpm} <= scada.Keys
  {
    && gate.output.Some? && gate.output.value.round == round && |gate.output.value.sensors| == 3
    && var sensors := gate.output.value.sensors;
       && (exists rows :: RowsSay(rows, agreed, scada) && OutputSays(gate.output.value, round, rows))
       && if sensors[0].classification == Match && sensors[1].classification == Match && sensors[2].classification == Match then
            && gate.comparison == Stage(StageCompleted, None, true)
            && gate.alert == None && gate.persistAttempted
            && gate.persistence == (match store
                                    case Stored(_) => Stage(StagePersisted, None, true)
                                    case StoreRaised(message) => Stage(StageError, Some(PersistenceRefused(message)), false))
          else
            && gate.comparison == Stage(StageBlockedDownstream, Some(ScadaDivergenceDetected), false)
            && gate.persistence == Stage(StageBlocked, Some(ScadaDivergenceDetected), false) && !gate.persistAttempted
            && gate.alert.Some? && gate.alert.value.round == round && IsDivergentPart(gate.alert.value.sensors, sensors)
  }

  lemma GateWithState(package: AuditPackage, agreed: SensorValues, project: Projection, store: StoreOutcome,
                      i: nat, scada: SensorValues)
    requires Sound(package) && package.validState.Some?
    requires IsSource(package.input.states, package.validState.value.sourceEdges, i)
    requires project(agreed, package.input.states[i]) == Ok(scada)
    requires {Temperature, Pressure, Rpm} <= agreed.Keys && {Temperature, Pressure, Rpm} <= scada.Keys
    ensures var r := GateSpec(package, agreed, project, store);
            r.Ok? && GateSays(r.value, package.validState.value.round, agreed, scada, store)
  {
    hide CompareSensors, RowsSay, IsSource, Divergences, IsDivergentPart;
    var round := package.validState.value.round;
    SourceIsFirst(package.input.states, package.validState.value.sourceEdges, i);
    RowsAre(agreed, scada);
    var rows := CompareSensors(agreed, scada, SENSORS);
    var output := ComparisonOutput(round, ClassifyAll(rows));
    assert OutputSays(output, round, rows);
    DivergencesOfThree(output.sensors);
    NothingDiverges(output.sensors);
  }

  lemma NothingDiverges(sensors: seq<SensorOutput>)
    requires |sensors| == 3
    ensures Divergences(sensors) == [] <==>
            sensors[0].classification == Match && sensors[1].classification == Match && sensors[2].classification == Match
  {
    hide Divergences;
    DivergencesOfThree(sensors);
  }
}
