// When the decision the reference evaluation builds is one its own contract accepts.
module ReferenceAcceptance {
  import opened Wrappers
  import opened Lists
  import opened SortedIds
  import opened DecisionContract
  import opened ReferenceEvaluator

  // What the constructors of the arguments have checked before the evaluation starts.
  ghost predicate Constructed(digests: Digests, input: RoundInput, op: Operation, observations: seq<Observation>) {
    && InputError(digests, input) == None
    && ValidOperation(digests, op)
    && (forall o :: o in observations ==> ValidObservation(o))
  }

  // Nothing blocks: the projections are one per edge, bound to the input rows, and within the budget.
  ghost predicate Open(input: RoundInput, parameters: ParameterSet, op: Operation, observations: seq<Observation>) {
    observations != [] && ClosureDiagnostics(input, parameters, op, observations) == []
  }

  // A kept edge with the smaller id never has the larger residual.
  ghost predicate ResidualsFollowIds(op: Operation, observations: seq<Observation>) {
    forall a, b :: a in Kept(op, observations) && b in Kept(op, observations) && StrLess(a.edgeId, b.edgeId) ==>
      Residual(MeanOf(observations), a) <= Residual(MeanOf(observations), b)
  }

  lemma SortedIsOrdered(ids: seq<string>)
    requires AllImmutable(ids) && NoRepeat(ids)
    ensures OrderedIds(SortBy(ById(), ids))
    ensures SameElements(SortBy(ById(), ids), ids)
    ensures |SortBy(ById(), ids)| == |ids|
  {
    hide IsImmutableId, SortBy, Increasing;
    var sorted := SortBy(ById(), ids);
    SortElements(ById(), ids);
    SortIncreasing(ById(), ids);
    forall i | 0 <= i < |sorted| ensures IsImmutableId(sorted[i]) {
      assert sorted[i] in sorted;
      var k :| 0 <= k < |ids| && ids[k] == sorted[i];
    }
    OrderedIdsIncrease(sorted);
  }

  lemma ObservationIds(observations: seq<Observation>)
    requires forall o :: o in observations ==> ValidObservation(o)
    ensures AllImmutable(EdgeIds(observations))
  {
    hide IsImmutableId;
    forall i | 0 <= i < |observations| ensures IsImmutableId(EdgeIds(observations)[i]) {
      assert ValidObservation(observations[i]);
      var ids := [observations[i].edgeId, observations[i].observationId,
                  observations[i].observationCanonicalHash, observations[i].evidenceId];
      assert IsImmutableId(ids[0]);
    }
  }

  lemma ValidParts(o: Observation)
    requires ValidObservation(o)
    ensures IsImmutableId(o.edgeId) && IsImmutableId(o.evidenceId)
  {
    hide IsImmutableId;
    var ids := [o.edgeId, o.observationId, o.observationCanonicalHash, o.evidenceId];
    assert IsImmutableId(ids[0]) && IsImmutableId(ids[3]);
  }

  lemma OneEvidence(id: string)
    requires IsImmutableId(id)
    ensures OrderedIds([id])
  {
    hide IsImmutableId;
    OrderedIdsIncrease([id]);
  }

  // Rows written for listed edges carry those edges and pass the row checks.
  lemma RowsPass(digests: Digests, op: Operation, observations: seq<Observation>, ids: seq<string>)
    requires ValidOperation(digests, op) && forall o :: o in observations ==> ValidObservation(o)
    requires forall i :: 0 <= i < |ids| ==> ids[i] in ByEdge(observations)
    ensures ExcludedRowsError(ExclusionRows(op, ByEdge(observations), ids)) == None
    ensures ExcludedRowsError(NoRankingRows(op, ByEdge(observations), ids)) == None
    ensures EdgesOf(ExclusionRows(op, ByEdge(observations), ids)) == ids
    ensures EdgesOf(NoRankingRows(op, ByEdge(observations), ids)) == ids
  {
    hide IsImmutableId, OrderedIds;
    forall i | 0 <= i < |ids|
      ensures ByEdge(observations)[ids[i]].edgeId == ids[i]
      ensures ExcludedRowError(ExclusionRow(op, ByEdge(observations)[ids[i]])) == None
      ensures ExcludedRowError(NoRankingRow(op, ByEdge(observations)[ids[i]])) == None
    {
      var o := ByEdge(observations)[ids[i]];
      ByEdgeHas(observations, ids[i]);
      ValidParts(o);
      OneEvidence(o.evidenceId);
    }
  }

  lemma InputParts(digests: Digests, input: RoundInput)
    requires InputError(digests, input) == None
    ensures BasisError(digests, input.basis) == None && IsImmutableId(input.inputContentId)
  {
    hide BasisError, IsImmutableId, OrderedIds, RowsError, RowsInOrder;
  }

  // The contract's verdict when only the ranking and the outcome are in question.
  lemma VerdictOnRanking(digests: Digests, p: Decision)
    requires p.schemaVersion == SCHEMA && p.authorizationEffect == NO_EFFECT
    requires IsImmutableId(p.roundInputId) && p.roundInputHash == p.roundInputId
    requires BasisError(digests, p.basis) == None
    requires p.participantIds != [] && OrderedIds(p.participantIds)
    requires OrderedIds(p.includedIds) && Subset(p.includedIds, p.participantIds)
    requires ExcludedRowsError(p.excluded) == None
    requires Splits(p.participantIds, p.includedIds, EdgesOf(p.excluded))
    requires [] !in p.diagnostics
    requires p.outcome == SUCCESS || (p.outcome == FAILURE && p.ranking == [] && p.includedIds == [])
    requires p.outcome == SUCCESS ==> p.ranking != [] && SameElements(p.ranking, p.includedIds)
    requires p.decisionContentId == DecisionIdFor(digests, p)
    ensures DecisionError(digests, p) == if OrderedIds(p.ranking) then None else Some(RankingOrder)
  {
    hide IsImmutableId, OrderedIds, Splits, ExcludedRowsError, BasisError, Subset;
  }

  lemma Sealing(digests: Digests, unsealed: Decision)
    requires unsealed.decisionContentId == ""
    ensures Sealed(digests, unsealed).decisionContentId == DecisionIdFor(digests, Sealed(digests, unsealed))
  {
    assert Sealed(digests, unsealed).(decisionContentId := "") == unsealed;
  }

  lemma SortedStays(ids: seq<string>)
    requires NoRepeat(ids)
    ensures SortBy(ById(), SortBy(ById(), ids)) == SortBy(ById(), ids)
    ensures NoRepeat(SortBy(ById(), ids))
  {
    SortIncreasing(ById(), ids);
    IncreasingNoRepeat(ById(), SortBy(ById(), ids));
    SortElements(ById(), ids);
    SortIgnoresOrder(ById(), SortBy(ById(), ids), ids);
  }

  // A failure record is always acceptable.
  lemma FailureAccepted(digests: Digests, input: RoundInput, op: Operation, observations: seq<Observation>)
    requires Constructed(digests, input, op, observations)
    requires observations != [] && NoRepeat(EdgeIds(observations))
    ensures DecisionError(digests, FailureDecision(digests, input, op, observations)) == None
  {
    hide IsImmutableId, NoRepeat, SortBy, BasisError, DecisionError, InputError, ValidObservation, ByEdge, NoRankingRows,
         EdgeIds, OrderedIds, AllImmutable, ExcludedRowsError;
    var participants := SortBy(ById(), EdgeIds(observations));
    var d := FailureDecision(digests, input, op, observations);
    InputParts(digests, input);
    ObservationIds(observations);
    SortedIsOrdered(EdgeIds(observations));
    SortedStays(EdgeIds(observations));
    SortedAreProvided(observations, EdgeIds(observations));
    RowsPass(digests, op, observations, participants);
    assert |EdgeIds(observations)| == |observations| by {
      EdgeCount(observations);
    }
    assert OrderedIds([]) by {
      OrderedIdsIncrease([]);
      assert AllImmutable([]) by {
        NoneImmutable();
      }
    }
    Sealing(digests, d.(decisionContentId := ""));
    assert EdgesOf(d.excluded) + [] == participants;
    VerdictOnRanking(digests, d);
  }

  lemma EdgeCount(observations: seq<Observation>)
    ensures |EdgeIds(observations)| == |observations|
  {
  }

  lemma NoneImmutable()
    ensures AllImmutable([])
  {
  }

  // The parts of a success record that do not depend on the ranking are always acceptable.
  lemma SuccessSplits(op: Operation, observations: seq<Observation>)
    requires (forall o :: o in observations ==> ValidObservation(o)) && NoRepeat(EdgeIds(observations))
    ensures var included := IncludedIds(op, observations);
            var excludedIds := SortBy(ById(), Without(EdgeIds(observations), included));
            && OrderedIds(included)
            && NoRepeat(included)
            && Subset(included, SortBy(ById(), EdgeIds(observations)))
            && Splits(SortBy(ById(), EdgeIds(observations)), included, excludedIds)
  {
    hide IsImmutableId, NoRepeat, SortBy, EdgeIds, Without, ValidObservation, OrderedIds, AllImmutable, Kept;
    var kept, edges := EdgeIds(Kept(op, observations)), EdgeIds(observations);
    var included := IncludedIds(op, observations);
    var excludedIds := Without(edges, included);
    KeptHas(op, observations);
    ObservationIds(Kept(op, observations));
    SortedIsOrdered(kept);
    SortedStays(kept);
    ObservationIds(observations);
    SortElements(ById(), edges);
    WithoutHas(edges, included);
    SortedStays(excludedIds);
    SortElements(ById(), excludedIds);
    forall edge ensures edge in included ==> edge in edges {
      IncludedHas(op, observations, edge);
      ByEdgeHas(observations, edge);
    }
  }

  lemma RankOf(observations: seq<Observation>, mean: real, o: Observation)
    requires NoRepeat(EdgeIds(observations)) && o in observations
    ensures ResidualRank(ByEdge(observations), mean)(o.edgeId) == Residual(mean, o)
  {
    var k :| 0 <= k < |observations| && observations[k] == o;
    ByEdgeGives(observations, k);
  }

  // Each included edge belongs to a kept observation, and the other way round.
  lemma IncludedAreKept(op: Operation, observations: seq<Observation>, edge: string) returns (o: Observation)
    requires edge in IncludedIds(op, observations)
    ensures o in Kept(op, observations) && o in observations && o.edgeId == edge
  {
    var kept := Kept(op, observations);
    SortElements(ById(), EdgeIds(kept));
    KeptHas(op, observations);
    var i :| 0 <= i < |kept| && EdgeIds(kept)[i] == edge;
    o := kept[i];
  }

  lemma KeptAreIncluded(op: Operation, observations: seq<Observation>, o: Observation)
    requires o in Kept(op, observations)
    ensures o.edgeId in IncludedIds(op, observations) && o in observations
  {
    var kept := Kept(op, observations);
    SortElements(ById(), EdgeIds(kept));
    KeptHas(op, observations);
    EdgeIdsSnoc(kept, o);
  }

  // The residual ranking comes out in id order exactly when residuals do not fall as ids rise.
  lemma RankingOrderedIff(op: Operation, observations: seq<Observation>)
    requires (forall o :: o in observations ==> ValidObservation(o)) && NoRepeat(EdgeIds(observations))
    requires Eligible(observations) != []
    ensures var included := IncludedIds(op, observations);
            OrderedIds(SortBy(ResidualRank(ByEdge(observations), MeanOf(observations)), included))
            <==> ResidualsFollowIds(op, observations)
  {
    hide IsImmutableId, NoRepeat, SortBy, EdgeIds, ValidObservation, OrderedIds, AllImmutable, Kept, IncludedIds,
         Increasing, ResidualsFollowIds, MeanOf, ResidualRank;
    var included := IncludedIds(op, observations);
    var rank := ResidualRank(ByEdge(observations), MeanOf(observations));
    var ranking := SortBy(rank, included);
    SuccessSplits(op, observations);
    OrderedIdsIncrease(included);
    OrderedIdsIncrease(ranking);
    SortIncreasing(rank, included);
    SortElements(rank, included);
    if OrderedIds(ranking) {
      IncreasingIsUnique(ById(), ranking, included);
      IncreasingBothFollows(op, observations);
    }
    if ResidualsFollowIds(op, observations) {
      FollowsIncreasing(op, observations);
      IncreasingIsUnique(rank, ranking, included);
    }
  }

  lemma IncreasingBothFollows(op: Operation, observations: seq<Observation>)
    requires NoRepeat(EdgeIds(observations)) && Eligible(observations) != []
    requires Increasing(ById(), IncludedIds(op, observations))
    requires Increasing(ResidualRank(ByEdge(observations), MeanOf(observations)), IncludedIds(op, observations))
    ensures ResidualsFollowIds(op, observations)
  {
    hide NoRepeat, SortBy, EdgeIds, Kept, IncludedIds, MeanOf, ResidualRank;
    var included := IncludedIds(op, observations);
    var rank := ResidualRank(ByEdge(observations), MeanOf(observations));
    forall a, b | a in Kept(op, observations) && b in Kept(op, observations) && StrLess(a.edgeId, b.edgeId)
      ensures Residual(MeanOf(observations), a) <= Residual(MeanOf(observations), b)
    {
      KeptAreIncluded(op, observations, a);
      KeptAreIncluded(op, observations, b);
      RankOf(observations, MeanOf(observations), a);
      RankOf(observations, MeanOf(observations), b);
      var i :| 0 <= i < |included| && included[i] == a.edgeId;
      var j :| 0 <= j < |included| && included[j] == b.edgeId;
      IndexOrder(ById(), included, i, j);
      assert Before(rank, included[i], included[j]);
    }
  }

  lemma FollowsIncreasing(op: Operation, observations: seq<Observation>)
    requires NoRepeat(EdgeIds(observations)) && Eligible(observations) != []
    requires ResidualsFollowIds(op, observations) && Increasing(ById(), IncludedIds(op, observations))
    ensures Increasing(ResidualRank(ByEdge(observations), MeanOf(observations)), IncludedIds(op, observations))
  {
    hide NoRepeat, SortBy, EdgeIds, Kept, IncludedIds, MeanOf, ResidualRank, Residual;
    var included := IncludedIds(op, observations);
    var rank := ResidualRank(ByEdge(observations), MeanOf(observations));
    forall i, j | 0 <= i < j < |included| ensures Before(rank, included[i], included[j]) {
      var a := IncludedAreKept(op, observations, included[i]);
      var b := IncludedAreKept(op, observations, included[j]);
      RankOf(observations, MeanOf(observations), a);
      RankOf(observations, MeanOf(observations), b);
      assert Before(ById(), included[i], included[j]);
    }
  }

  lemma SuccessVerdict(digests: Digests, input: RoundInput, op: Operation, observations: seq<Observation>)
    requires Constructed(digests, input, op, observations)
    requires NoRepeat(EdgeIds(observations)) && IncludedIds(op, observations) != [] && Eligible(observations) != []
    ensures DecisionError(digests, SuccessDecision(digests, input, op, observations))
         == if ResidualsFollowIds(op, observations) then None else Some(RankingOrder)
  {
    hide IsImmutableId, NoRepeat, SortBy, BasisError, DecisionError, InputError, ValidObservation, ByEdge, ExclusionRows,
         EdgeIds, OrderedIds, AllImmutable, ExcludedRowsError, Without, IncludedIds, Splits, ResidualRank, MeanOf,
         ResidualsFollowIds;
    var edges := EdgeIds(observations);
    var included := IncludedIds(op, observations);
    var excludedIds := Without(edges, included);
    var d := SuccessDecision(digests, input, op, observations);
    InputParts(digests, input);
    ObservationIds(observations);
    SortedIsOrdered(edges);
    SuccessSplits(op, observations);
    WithoutHas(edges, included);
    SortedAreProvided(observations, excludedIds);
    RowsPass(digests, op, observations, SortBy(ById(), excludedIds));
    SortElements(ResidualRank(ByEdge(observations), MeanOf(observations)), included);
    assert included[0] in SortBy(ById(), edges);
    Sealing(digests, d.(decisionContentId := ""));
    VerdictOnRanking(digests, d);
    RankingOrderedIff(op, observations);
  }

  // Past the blocking checks the evaluation either returns its decision or is refused for
  // the order of the ranking; it is accepted exactly when too few edges are kept or the
  // residuals of the kept edges do not fall as their ids rise.
  lemma AcceptedExactlyWhen(digests: Digests, input: RoundInput, op: Operation, parameters: ParameterSet,
                            contract: ContractValidation, validation: ParameterValidation,
                            observations: seq<Observation>)
    requires Constructed(digests, input, op, observations)
    requires BlockingDiagnostics(contract, validation, Some(op), observations) == []
    requires Open(input, parameters, op, observations)
    ensures var r := EvaluateSpec(digests, input, parameters, contract, validation, Some(op), observations);
            && (r.Ok? <==> |Kept(op, observations)| < op.minimumParticipants || ResidualsFollowIds(op, observations))
            && (r.Ok? ==> r.value.Evaluated? && r.value.decision == DecisionFor(digests, input, op, observations))
            && (r.Err? ==> r.error == RankingOrder)
  {
    hide DecisionError, FailureDecision, SuccessDecision, InputError, ValidObservation, ValidOperation, BlockingDiagnostics,
         ResidualsFollowIds, Kept, NoRepeat;
    OpenMeans(input, parameters, op, observations);
    SortElements(ById(), EdgeIds(Kept(op, observations)));
    EdgeCount(Kept(op, observations));
    assert op.minimumParticipants >= 1 by {
      Participation(digests, op);
    }
    if |Kept(op, observations)| < op.minimumParticipants {
      FailureAccepted(digests, input, op, observations);
    } else {
      SomethingIncluded(op, observations);
      SuccessVerdict(digests, input, op, observations);
    }
  }

  lemma Participation(digests: Digests, op: Operation)
    requires ValidOperation(digests, op)
    ensures op.minimumParticipants >= 1 && op.maxAbsResidual >= 0.0
  {
  }
}
