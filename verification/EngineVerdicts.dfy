// What an evaluated round records, and what its summary reports, field by field.
module EngineVerdicts {
  import opened Wrappers
  import opened Rounding
  import opened Readings
  import opened Sums
  import opened TrustModel
  import opened Engine
  import opened EngineProperties

  // The kept states, one more state at a time: those whose owner no exclusion names.
  lemma KeptOfOneMore(states: seq<ReplicatedState>, s: ReplicatedState, exclusions: seq<Exclusion>)
    ensures ValidStates([], ExcludedEdges(exclusions)) == []
    ensures ValidStates(states + [s], ExcludedEdges(exclusions))
         == ValidStates(states, ExcludedEdges(exclusions))
            + (if exists x :: x in exclusions && x.edge == s.owner then [] else [s])
  {
    assert (states + [s])[..|states|] == states;
  }

  // The agreed state: the kept states' owners, and per sensor the published mean of their readings.
  ghost predicate StateSays(state: ValidState, round: RoundIdentity, kept: seq<ReplicatedState>)
    requires kept != []
  {
    && state.round == round
    && |state.sourceEdges| == |kept| && (forall i :: 0 <= i < |kept| ==> state.sourceEdges[i] == kept[i].owner)
    && forall s: Sensor :: IsPublished(state.values.At(s), SumBy((k: ReplicatedState) => k.reading.At(s), kept) / |kept| as real)
  }

  lemma {:induction false} SameSums(kept: seq<ReplicatedState>, s: Sensor)
    ensures SumBy(ValueOf(s), ReadingsIn(kept)) == SumBy((k: ReplicatedState) => k.reading.At(s), kept)
  {
    if kept != [] {
      var n := |kept| - 1;
      SameSums(kept[..n], s);
      assert ReadingsIn(kept)[..n] == ReadingsIn(kept[..n]);
    }
  }

  lemma BuiltStateSays(round: RoundIdentity, kept: seq<ReplicatedState>)
    requires kept != []
    ensures StateSays(BuildState(round, kept), round, kept)
  {
    hide SumBy, Round3;
    forall s: Sensor
      ensures IsPublished(BuildState(round, kept).values.At(s), SumBy((k: ReplicatedState) => k.reading.At(s), kept) / |kept| as real)
    {
      SameSums(kept, s);
      Round3IsPublished(SumBy(ValueOf(s), ReadingsIn(kept)) / |kept| as real);
    }
  }

  // An evaluated round succeeds exactly when more than half as many states are kept as edges participate; its package
  // and its result record the same trust findings, the same status and the same agreed state.
  lemma PackageSays(input: RoundInput)
    requires Evaluable(input)
    ensures EngineSpec(input).Ok? ==> EngineSpec(input) == Ok(PackageOf(input))
    ensures var p := PackageOf(input);
            var kept := ValidStates(input.states, ExcludedEdges(p.exclusions));
            && TrustSpec(input.round, input.participants, input.states) == Ok(TrustOutcome(p.ranking, p.exclusions, p.evidence))
            && p.input == input
            && (p.status == Success <==> 2 * |kept| > |input.participants|)
            && (p.validState.Some? <==> p.status == Success)
            && (p.validState.Some? ==> kept != [] && StateSays(p.validState.value, input.round, kept))
            && p.result.round == input.round && p.result.status == p.status && p.result.participants == input.participants
            && p.result.ranking == p.ranking && p.result.exclusions == p.exclusions && p.result.validState == p.validState
  {
    hide TrustOf, EvidenceUpTo, ExclusionsOf, ByEdge, StateSays, ValidStates;
    TrustShape(input);
    var p := PackageOf(input);
    var kept := ValidStates(input.states, ExcludedEdges(p.exclusions));
    if kept != [] {
      BuiltStateSays(input.round, kept);
    }
  }

  // The summary repeats the package's own lists in their order, and counts what is left of the participants.
  lemma SummarySays(package: AuditPackage)
    ensures package.input.participants == [] ==> BuildRoundSummary(package) == Err(NonPositiveParticipants)
    ensures package.input.participants != [] ==>
              BuildRoundSummary(package).Ok?
              && var s, n := BuildRoundSummary(package).value, |package.input.participants|;
                 && s.roundId == package.input.round.roundId && s.totalParticipants == n
                 && n < 2 * s.quorumRequired <= n + 2
                 && s.validParticipantsAfterExclusions == n - |package.exclusions|
                 && |s.excludedEdges| == |s.exclusionReasons| == |package.exclusions|
                 && (forall i :: 0 <= i < |package.exclusions| ==>
                       s.excludedEdges[i] == package.exclusions[i].edge && s.exclusionReasons[i] == package.exclusions[i].reason)
                 && s.finalStatus == package.status && (s.hasValidState <==> package.validState.Some?)
                 && (ResolveConsensusBlockReason(s) == NoQuorumReached
                     <==> package.status == FailedConsensus && 2 * (n - |package.exclusions|) <= n)
                 && ResolveConsensusBlockReason(s) in {NoQuorumReached, NoConsensusedValidState}
  {
  }
}
