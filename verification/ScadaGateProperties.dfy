// The gates are fail-closed: what each outcome proves about everything that came before it.
module ScadaGateProperties {
  import opened Wrappers
  import opened Rounding
  import opened Readings
  import opened TrustModel
  import opened Engine
  import opened EngineProperties
  import opened ScadaGate

  ghost predicate WithinTolerance(agreed: SensorValues, scada: SensorValues, s: Sensor)
    requires s in agreed && s in scada
  {
    Round3(Abs(Round3(agreed[s]) - Round3(scada[s]))) <= Tolerance(s)
  }

  lemma ToleranceOnGrid(s: Sensor)
    ensures Round3(Tolerance(s)) == Tolerance(s)
  {
    Round3OnGrid(2000);
    Round3OnGrid(350);
    Round3OnGrid(120000);
  }

  lemma DifferenceOnGrid(p: real, q: real)
    ensures Round3(Abs(Round3(p) - Round3(q))) == Abs(Round3(p) - Round3(q))
  {
    var m, n := RoundHalfEven(p * 1000.0), RoundHalfEven(q * 1000.0);
    Round3OnGrid(if m < n then n - m else m - n);
  }

  // Rounding can only change the verdict within a thousandth of the tolerance.
  lemma VerdictIsSharp(agreed: SensorValues, scada: SensorValues, s: Sensor)
    requires s in agreed && s in scada
    ensures Abs(agreed[s] - scada[s]) <= Tolerance(s) - 2.0 * HALF_STEP ==> WithinTolerance(agreed, scada, s)
    ensures Abs(agreed[s] - scada[s]) > Tolerance(s) + 2.0 * HALF_STEP ==> !WithinTolerance(agreed, scada, s)
  {
    Round3Error(agreed[s]);
    Round3Error(scada[s]);
    DifferenceOnGrid(agreed[s], scada[s]);
    hide Round3, Tolerance;
  }

  lemma {:induction false} DivergencesAre(sensors: seq<SensorOutput>)
    ensures forall o :: o in Divergences(sensors) <==> o in sensors && o.classification == Divergent
  {
    if sensors != [] {
      var n := |sensors| - 1;
      DivergencesAre(sensors[..n]);
      assert sensors == sensors[..n] + [sensors[n]];
    }
  }

  ghost function OutputFor(round: RoundIdentity, agreed: SensorValues, scada: SensorValues): ComparisonOutput
    requires HasSensors(agreed) && HasSensors(scada)
  {
    ComparisonOutput(round, ClassifyAll(CompareSensors(agreed, scada, SENSORS)))
  }

  lemma SensorVerdict(round: RoundIdentity, agreed: SensorValues, scada: SensorValues, i: nat)
    requires HasSensors(agreed) && HasSensors(scada) && i < 3
    ensures var o := OutputFor(round, agreed, scada).sensors[i];
            o.comparison.sensor == SENSORS[i] && (o.classification == Divergent <==> !WithinTolerance(agreed, scada, SENSORS[i]))
  {
    ToleranceOnGrid(SENSORS[i]);
    hide Round3;
  }

  // Nothing diverges exactly when all three rounded differences are within tolerance.
  lemma NoDivergenceIff(round: RoundIdentity, agreed: SensorValues, scada: SensorValues)
    requires HasSensors(agreed) && HasSensors(scada)
    ensures OutputFor(round, agreed, scada).DivergentOutputs() == []
       <==> forall s :: s in SENSORS ==> WithinTolerance(agreed, scada, s)
  {
    var output := OutputFor(round, agreed, scada);
    DivergencesAre(output.sensors);
    SensorVerdict(round, agreed, scada, 0);
    SensorVerdict(round, agreed, scada, 1);
    SensorVerdict(round, agreed, scada, 2);
    hide WithinTolerance;
    if output.DivergentOutputs() != [] {
      assert output.DivergentOutputs()[0] in output.sensors;
    } else {
      assert output.sensors[0] in output.sensors && output.sensors[1] in output.sensors && output.sensors[2] in output.sensors;
    }
  }

  ghost predicate Sound(package: AuditPackage) {
    package.Accepted() && package.result.Accepted() && package.input.participants != []
  }

  lemma {:induction false} SourceStateIff(states: seq<ReplicatedState>, sourceEdges: seq<EdgeId>)
    ensures SelectScadaSourceState(states, sourceEdges).Some? <==> exists s :: s in states && s.owner in sourceEdges
    ensures SelectScadaSourceState(states, sourceEdges).Some? ==>
              SelectScadaSourceState(states, sourceEdges).value in states
              && SelectScadaSourceState(states, sourceEdges).value.owner in sourceEdges
  {
    if states != [] {
      SourceStateIff(states[1..], sourceEdges);
      assert states == [states[0]] + states[1..];
    }
  }

  ghost function SourceOf(package: AuditPackage): Option<ReplicatedState>
    requires package.validState.Some?
  {
    SelectScadaSourceState(package.input.states, package.validState.value.sourceEdges)
  }

  // The supervisory values the comparison runs on, when it runs.
  ghost predicate Compares(package: AuditPackage, agreed: SensorValues, project: Projection, scada: SensorValues) {
    && package.validState.Some? && SourceOf(package).Some? && project(agreed, SourceOf(package).value) == Ok(scada)
    && HasSensors(agreed) && HasSensors(scada)
  }

  // When the gate raises, it is because the agreed state names no edge of the round, the projection raised, or
  // the agreed or the supervisory state lacks a sensor; a package without an agreed state never makes it raise.
  lemma GateRaises(package: AuditPackage, agreed: SensorValues, project: Projection, store: StoreOutcome)
    requires Sound(package)
    ensures GateSpec(package, agreed, project, store).Ok? <==>
            package.validState.None? || exists scada :: Compares(package, agreed, project, scada)
    ensures GateSpec(package, agreed, project, store) == Err(SourceStateMissing) <==>
            package.validState.Some? && !exists s :: s in package.input.states && s.owner in package.validState.value.sourceEdges
    ensures forall message :: GateSpec(package, agreed, project, store) == Err(ProjectionRaised(message)) <==>
              package.validState.Some? && SourceOf(package).Some? && project(agreed, SourceOf(package).value) == Err(message)
    ensures GateSpec(package, agreed, project, store) == Err(AgreedSensorMissing) <==>
            && package.validState.Some? && SourceOf(package).Some? && project(agreed, SourceOf(package).value).Ok?
            && !HasSensors(agreed)
    ensures GateSpec(package, agreed, project, store) == Err(ScadaSensorMissing) <==>
            && package.validState.Some? && SourceOf(package).Some? && project(agreed, SourceOf(package).value).Ok?
            && HasSensors(agreed) && !HasSensors(project(agreed, SourceOf(package).value).value)
  {
    if package.validState.Some? {
      SourceStateIff(package.input.states, package.validState.value.sourceEdges);
      var source := SourceOf(package);
      if source.Some? && project(agreed, source.value).Ok? {
        var scada := project(agreed, source.value).value;
        assert HasSensors(agreed) && HasSensors(scada) ==> Compares(package, agreed, project, scada);
      }
    }
  }

  // Persistence is attempted exactly when consensus succeeded and every rounded difference is within
  // tolerance; and then only the store can make it fail.
  lemma PersistenceGate(package: AuditPackage, agreed: SensorValues, project: Projection, store: StoreOutcome)
    requires Sound(package) && GateSpec(package, agreed, project, store).Ok?
    ensures var gate := GateSpec(package, agreed, project, store).value;
            && (gate.persistAttempted <==>
                  && package.status == Success
                  && exists scada :: Compares(package, agreed, project, scada)
                       && forall s :: s in SENSORS ==> WithinTolerance(agreed, scada, s))
            && (gate.persistence.status == StagePersisted <==> gate.persistAttempted && store.Stored?)
            && (gate.persistAttempted ==> gate.persistence.status in {StagePersisted, StageError})
  {
    if package.validState.Some? {
      var scada := project(agreed, SourceOf(package).value).value;
      assert Compares(package, agreed, project, scada);
      NoDivergenceIff(package.validState.value.round, agreed, scada);
      hide WithinTolerance, CompareSensors, ClassifyAll;
    }
  }

  // The alert is raised exactly when the comparison stage blocks downstream, and it names the divergent
  // sensors and only those.
  lemma AlertGate(package: AuditPackage, agreed: SensorValues, project: Projection, store: StoreOutcome)
    requires Sound(package) && GateSpec(package, agreed, project, store).Ok?
    ensures var gate := GateSpec(package, agreed, project, store).value;
            && (gate.alert.Some? <==> gate.comparison.status == StageBlockedDownstream)
            && (gate.alert.Some? ==>
                  && gate.output.Some? && gate.alert.value.sensors != []
                  && (forall o :: o in gate.alert.value.sensors
                        <==> o in gate.output.value.sensors && o.classification == Divergent))
  {
    var gate := GateSpec(package, agreed, project, store).value;
    if gate.output.Some? {
      DivergencesAre(gate.output.value.sensors);
    }
  }

  // The fingerprint lifecycle runs exactly after a confirmed write with the autoencoder enabled, and a
  // blocked cycle reports the reason of the gate that closed first.
  lemma LifecycleGate(package: AuditPackage, agreed: SensorValues, project: Projection, store: StoreOutcome,
                      disabled: bool, raises: bool)
    requires Sound(package) && GateSpec(package, agreed, project, store).Ok?
    ensures var gate := GateSpec(package, agreed, project, store).value;
            var (stage, called) := ExecuteFingerprintPipeline(gate, disabled, raises);
            && (called <==> gate.persistAttempted && store.Stored? && !disabled)
            && (package.validState.None? ==>
                  var n := |package.input.participants|;
                  stage == LifecycleBlocked(
                    if package.status == FailedConsensus && 2 * (n - |package.exclusions|) <= n then NoQuorumReached
                    else NoConsensusedValidState))
            && (gate.alert.Some? ==> stage == LifecycleBlocked(ScadaDivergenceDetected))
            && (gate.persistAttempted && store.StoreRaised? ==>
                  stage == LifecycleBlocked(if store.message == "" then DownstreamPersistenceUnavailable
                                            else PersistenceRefused(store.message)))
            && (gate.persistAttempted && store.Stored? ==>
                  stage == if disabled then AutoencoderDisabled else if raises then LifecycleError else LifecycleRan)
  {
    PersistenceGate(package, agreed, project, store);
    AlertGate(package, agreed, project, store);
    hide WithinTolerance, CompareSensors, ClassifyAll;
  }

  // A package the engine produced never fails the source lookup nor lacks a sensor, and a failed round of it is
  // blocked as a missing quorum all the way down.
  lemma EnginePackagesPass(input: RoundInput, agreed: SensorValues, project: Projection, store: StoreOutcome)
    requires WellFormed(input)
    requires PackageOf(input).validState.Some? ==> agreed == ValuesOf(PackageOf(input).validState.value.values)
    ensures Sound(PackageOf(input))
    ensures GateSpec(PackageOf(input), agreed, project, store) !in {Err(SourceStateMissing), Err(AgreedSensorMissing)}
    ensures PackageOf(input).status == FailedConsensus ==>
              GateSpec(PackageOf(input), agreed, project, store)
              == Ok(GateResult(Stage(StageBlocked, Some(NoQuorumReached), false), None, None,
                               Stage(StageBlocked, Some(NoQuorumReached), false), false))
  {
    WellFormedIsEvaluable(input);
    EngineTotal(input);
    FailedRoundsReportNoQuorum(input);
    var package := PackageOf(input);
    assert Sound(package);
    hide TrustOf, SurvivorsOf, Published, MeanReading, GateSpec, BuildRoundSummary, PackageOf, WellFormed, Evaluable;
    GateRaises(package, agreed, project, store);
    if package.validState.Some? {
      SurvivorOwnsState(input, SurvivorsOf(input)[0]);
      ReadingHasSensors(package.validState.value.values);
    } else {
      FailedPackageIsBlocked(package, agreed, project, store);
    }
  }

  lemma ReadingHasSensors(reading: Reading)
    ensures HasSensors(ValuesOf(reading))
    ensures forall s :: s in SENSORS ==> ValuesOf(reading)[s] == reading.At(s)
  {
  }

  lemma FailedPackageIsBlocked(package: AuditPackage, agreed: SensorValues, project: Projection, store: StoreOutcome)
    requires package.validState.None? && BuildRoundSummary(package).Ok?
    ensures var blocked := Stage(StageBlocked, Some(ResolveConsensusBlockReason(BuildRoundSummary(package).value)), false);
            GateSpec(package, agreed, project, store) == Ok(GateResult(blocked, None, None, blocked, false))
  {
  }

  lemma SurvivorOwnsState(input: RoundInput, e: EdgeId)
    requires e in SurvivorsOf(input)
    ensures exists s :: s in input.states && s.owner == e
  {
    hide TrustOf;
    var excluded := ExcludedEdges(TrustOf(input).exclusions);
    var valid := ValidStates(input.states, excluded);
    var i :| 0 <= i < |valid| && valid[i].owner == e;
    ValidStateIff(input.states, excluded, valid[i]);
  }
}
