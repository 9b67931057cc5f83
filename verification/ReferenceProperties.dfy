// What the reference evaluation promises about its decision, for every list of observations.
module ReferenceProperties {
  import opened Wrappers
  import opened Rounding
  import opened Sums
  import opened Lists
  import opened SortedIds
  import opened DecisionContract
  import opened ReferenceEvaluator
  import opened ReferenceAcceptance

  // ---- order of the observations ----

  lemma {:induction false} SelectCounts(p: Observation -> bool, s: seq<Observation>, o: Observation)
    ensures multiset(Select(p, s))[o] == if p(o) then multiset(s)[o] else 0
  {
    if s != [] {
      SelectCounts(p, s[..|s| - 1], o);
      assert s == s[..|s| - 1] + [s[|s| - 1]];
    }
  }

  lemma SelectShuffled(p: Observation -> bool, s: seq<Observation>, t: seq<Observation>)
    requires multiset(s) == multiset(t)
    ensures multiset(Select(p, s)) == multiset(Select(p, t))
  {
    forall o ensures multiset(Select(p, s))[o] == multiset(Select(p, t))[o] {
      SelectCounts(p, s, o);
      SelectCounts(p, t, o);
    }
  }

  lemma SameMembers(s: seq<Observation>, t: seq<Observation>)
    requires multiset(s) == multiset(t)
    ensures forall o :: o in s <==> o in t
    ensures |s| == |t|
  {
    forall o ensures o in s <==> o in t {
      assert o in multiset(s) <==> o in multiset(t);
    }
    assert |s| == |multiset(s)| == |multiset(t)| == |t|;
  }

  lemma LookupShuffled(s: seq<Observation>, t: seq<Observation>)
    requires multiset(s) == multiset(t) && NoRepeat(EdgeIds(s))
    ensures ByEdge(s) == ByEdge(t) && NoRepeat(EdgeIds(t))
  {
    hide NoRepeat, EdgeIds, ByEdge;
    SameMembers(s, t);
    forall edge
      ensures edge in ByEdge(s) <==> edge in ByEdge(t)
      ensures edge in ByEdge(s) ==> ByEdge(s)[edge] == ByEdge(t)[edge]
    {
      ByEdgeHas(s, edge);
      ByEdgeHas(t, edge);
      if edge in ByEdge(s) {
        EdgeIdsSnoc(t, ByEdge(s)[edge]);
      }
      if edge in ByEdge(t) {
        EdgeIdsSnoc(s, ByEdge(t)[edge]);
        DistinctEdges(s, ByEdge(s)[edge], ByEdge(t)[edge]);
      }
    }
    assert ByEdge(s) == ByEdge(t);
    DistinctWhenAllStored(s);
    DistinctWhenAllStored(t);
  }

  lemma EdgesShuffled(s: seq<Observation>, t: seq<Observation>)
    requires multiset(s) == multiset(t)
    ensures SameElements(EdgeIds(s), EdgeIds(t)) && SameElements(EdgeIds(t), EdgeIds(s))
  {
    SameMembers(s, t);
    forall x | x in EdgeIds(s) ensures x in EdgeIds(t) {
      var i :| 0 <= i < |s| && s[i].edgeId == x;
      assert s[i] in t;
      EdgeIdsSnoc(t, s[i]);
    }
    forall x | x in EdgeIds(t) ensures x in EdgeIds(s) {
      var i :| 0 <= i < |t| && t[i].edgeId == x;
      assert t[i] in s;
      EdgeIdsSnoc(s, t[i]);
    }
  }

  lemma ClosureShuffled(input: RoundInput, parameters: ParameterSet, op: Operation, s: seq<Observation>, t: seq<Observation>)
    requires multiset(s) == multiset(t) && NoRepeat(EdgeIds(s))
    ensures ClosureDiagnostics(input, parameters, op, s) == ClosureDiagnostics(input, parameters, op, t)
  {
    hide NoRepeat, EdgeIds, ByEdge, RowByEdge, RowEdges;
    LookupShuffled(s, t);
    EdgesShuffled(s, t);
    SameMembers(s, t);
  }

  lemma KeptShuffled(op: Operation, s: seq<Observation>, t: seq<Observation>)
    requires multiset(s) == multiset(t)
    ensures Eligible(s) == [] <==> Eligible(t) == []
    ensures Eligible(s) != [] ==> MeanOf(s) == MeanOf(t)
    ensures multiset(Kept(op, s)) == multiset(Kept(op, t))
  {
    hide Select;
    SelectShuffled(IsEligible(), s, t);
    SameMembers(Eligible(s), Eligible(t));
    if Eligible(s) != [] {
      SumPermute(CurrentValue(), Eligible(s), Eligible(t));
      SelectShuffled(IsWithin(MeanOf(s), op.maxAbsResidual), Eligible(s), Eligible(t));
    }
  }

  lemma SortedShuffled(s: seq<Observation>, t: seq<Observation>)
    requires multiset(s) == multiset(t) && NoRepeat(EdgeIds(s))
    ensures SortBy(ById(), EdgeIds(s)) == SortBy(ById(), EdgeIds(t))
  {
    hide NoRepeat, EdgeIds, SortBy;
    LookupShuffled(s, t);
    EdgesShuffled(s, t);
    SortIgnoresOrder(ById(), EdgeIds(s), EdgeIds(t));
  }

  lemma IncludedShuffled(op: Operation, s: seq<Observation>, t: seq<Observation>)
    requires multiset(s) == multiset(t) && NoRepeat(EdgeIds(s))
    ensures IncludedIds(op, s) == IncludedIds(op, t)
    ensures SortBy(ById(), Without(EdgeIds(s), IncludedIds(op, s))) == SortBy(ById(), Without(EdgeIds(t), IncludedIds(op, t)))
  {
    hide NoRepeat, EdgeIds, SortBy, Kept, Without;
    KeptShuffled(op, s, t);
    KeptHas(op, s);
    SortedShuffled(Kept(op, s), Kept(op, t));
    var included := IncludedIds(op, s);
    LookupShuffled(s, t);
    EdgesShuffled(s, t);
    WithoutHas(EdgeIds(s), included);
    WithoutHas(EdgeIds(t), included);
    SortIgnoresOrder(ById(), Without(EdgeIds(s), included), Without(EdgeIds(t), included));
  }

  lemma DecisionShuffled(digests: Digests, input: RoundInput, op: Operation, s: seq<Observation>, t: seq<Observation>)
    requires multiset(s) == multiset(t) && NoRepeat(EdgeIds(s)) && op.minimumParticipants >= 1
    ensures DecisionFor(digests, input, op, s) == DecisionFor(digests, input, op, t)
    ensures EventsFor(op, s) == EventsFor(op, t)
  {
    hide NoRepeat, EdgeIds, SortBy, Kept, Without, IncludedIds, ByEdge, Sealed, ExclusionRows, NoRankingRows, Eligible, MeanOf;
    LookupShuffled(s, t);
    SortedShuffled(s, t);
    IncludedShuffled(op, s, t);
    KeptShuffled(op, s, t);
    if |IncludedIds(op, s)| < op.minimumParticipants {
      SortedAreProvided(s, EdgeIds(s));
      assert FailureDecision(digests, input, op, s) == FailureDecision(digests, input, op, t);
    } else {
      SomethingIncluded(op, s);
      WithoutHas(EdgeIds(s), IncludedIds(op, s));
      SortedAreProvided(s, Without(EdgeIds(s), IncludedIds(op, s)));
      assert SuccessDecision(digests, input, op, s) == SuccessDecision(digests, input, op, t);
    }
  }

  // With distinct edges, the whole evaluation is the same for every order of the observations.
  lemma EvaluationIgnoresOrder(digests: Digests, input: RoundInput, parameters: ParameterSet, contract: ContractValidation,
                               validation: ParameterValidation, operation: Option<Operation>,
                               observations: seq<Observation>, shuffled: seq<Observation>)
    requires operation.Some? ==> ValidOperation(digests, operation.value)
    requires multiset(observations) == multiset(shuffled) && NoRepeat(EdgeIds(observations))
    ensures EvaluateSpec(digests, input, parameters, contract, validation, operation, observations)
         == EvaluateSpec(digests, input, parameters, contract, validation, operation, shuffled)
  {
    hide NoRepeat, EdgeIds, DecisionFor, DecisionError, ClosureDiagnostics, SortedSet, EventsFor, ValidOperation;
    SameMembers(observations, shuffled);
    if operation.Some? {
      ClosureShuffled(input, parameters, operation.value, observations, shuffled);
      Participation(digests, operation.value);
      DecisionShuffled(digests, input, operation.value, observations, shuffled);
    }
  }

  // Two projections for one edge never reach a decision.
  lemma RepeatedEdgesBlock(digests: Digests, input: RoundInput, parameters: ParameterSet, contract: ContractValidation,
                           validation: ParameterValidation, operation: Option<Operation>, observations: seq<Observation>)
    requires operation.Some? ==> ValidOperation(digests, operation.value)
    requires !NoRepeat(EdgeIds(observations))
    ensures var r := EvaluateSpec(digests, input, parameters, contract, validation, operation, observations);
            && r.Ok? && r.value.Blocked? && r.value.trace.events == []
            && (BlockingDiagnostics(contract, validation, operation, observations) == [] ==>
                  PROJECTION_CLOSURE in r.value.diagnostics)
  {
    hide NoRepeat, EdgeIds, DecisionFor, DecisionError, SortBy, ValidOperation, ParametersNameOperation, ProjectionBound;
    if operation.Some? {
      var closure := ClosureDiagnostics(input, parameters, operation.value, observations);
      assert PROJECTION_CLOSURE in closure;
      SortElements(ById(), Dedup(closure));
    }
  }

  // ---- included and excluded ----

  lemma ParticipantsAreRows(digests: Digests, input: RoundInput, observations: seq<Observation>)
    requires InputError(digests, input) == None && ProjectionClosed(input, observations)
    ensures SortBy(ById(), EdgeIds(observations)) == RowEdges(input.observations)
  {
    hide SortBy, BasisError, RowsError, OrderedIds, AllImmutable, NoRepeat, EdgeIds;
    var edges, rows := EdgeIds(observations), input.observations;
    forall i, j | 0 <= i < j < |rows| ensures Before(ById(), RowEdges(rows)[i], RowEdges(rows)[j]) {
      assert !RowLess(rows[j], rows[i]) && rows[i].edgeId != rows[j].edgeId;
      StrLessIsOrder(rows[i].edgeId, rows[j].edgeId, rows[i].edgeId);
    }
    SortIncreasing(ById(), edges);
    SortElements(ById(), edges);
    IncreasingIsUnique(ById(), SortBy(ById(), edges), RowEdges(rows));
  }

  lemma DecisionLists(digests: Digests, input: RoundInput, op: Operation, observations: seq<Observation>)
    requires Constructed(digests, input, op, observations)
    ensures op.minimumParticipants >= 1
    ensures var d := DecisionFor(digests, input, op, observations);
            var edges, included := EdgeIds(observations), IncludedIds(op, observations);
            && d.roundInputId == input.inputContentId && d.basis == input.basis
            && d.participantIds == SortBy(ById(), edges)
            && (if |included| < op.minimumParticipants
                then d.includedIds == [] && EdgesOf(d.excluded) == SortBy(ById(), edges)
                else d.includedIds == included && EdgesOf(d.excluded) == SortBy(ById(), Without(edges, included)))
  {
    hide SortBy, EdgeIds, IncludedIds, InputError, ValidOperation, ValidObservation, ByEdge, ExclusionRows, NoRankingRows,
         EdgesOf, Without, MeanOf;
    Participation(digests, op);
    var edges, included := EdgeIds(observations), IncludedIds(op, observations);
    SortedAreProvided(observations, edges);
    RowsPass(digests, op, observations, SortBy(ById(), edges));
    WithoutHas(edges, included);
    SortedAreProvided(observations, Without(edges, included));
    RowsPass(digests, op, observations, SortBy(ById(), Without(edges, included)));
  }

  // Every input row is a participant, and each participant is included once or excluded once.
  lemma DecisionPartitions(digests: Digests, input: RoundInput, op: Operation, observations: seq<Observation>)
    requires Constructed(digests, input, op, observations) && ProjectionClosed(input, observations)
    ensures op.minimumParticipants >= 1
    ensures var d := DecisionFor(digests, input, op, observations);
            && d.roundInputId == input.inputContentId && d.basis == input.basis
            && d.participantIds == RowEdges(input.observations)
            && multiset(d.includedIds) + multiset(EdgesOf(d.excluded)) == multiset(d.participantIds)
            && NoRepeat(d.participantIds)
  {
    hide NoRepeat, EdgeIds, SortBy, Without, IncludedIds, InputError, ValidOperation, ValidObservation, DecisionFor,
         EdgesOf, RowEdges;
    DecisionLists(digests, input, op, observations);
    ParticipantsAreRows(digests, input, observations);
    var edges, included := EdgeIds(observations), IncludedIds(op, observations);
    SortMultiset(ById(), edges);
    SortMultiset(ById(), Without(edges, included));
    SortedStays(edges);
    IncludedDistinct(op, observations);
    forall x ensures x in included ==> x in edges {
      IncludedHas(op, observations, x);
      ByEdgeHas(observations, x);
    }
    SplitCounts(edges, included);
  }

  // Taking some members out of a list without repeats splits it in two.
  lemma {:induction false} SplitCounts(ids: seq<string>, removed: seq<string>)
    requires NoRepeat(ids) && NoRepeat(removed) && forall x :: x in removed ==> x in ids
    ensures multiset(removed) + multiset(Without(ids, removed)) == multiset(ids)
  {
    hide Without;
    WithoutHas(ids, removed);
    forall x ensures multiset(removed)[x] + multiset(Without(ids, removed))[x] == multiset(ids)[x] {
      CountOfDistinct(removed, x);
      CountOfDistinct(Without(ids, removed), x);
      CountOfDistinct(ids, x);
    }
  }

  // On success the ranking lists the included edges by (residual, id), and nothing else does.
  lemma RankingIsTheOnlyOrder(digests: Digests, input: RoundInput, op: Operation, observations: seq<Observation>,
                              other: seq<string>)
    requires op.minimumParticipants >= 1 && NoRepeat(EdgeIds(observations))
    requires |IncludedIds(op, observations)| >= op.minimumParticipants
    ensures Eligible(observations) != []
    ensures var d := DecisionFor(digests, input, op, observations);
            var rank := ResidualRank(ByEdge(observations), MeanOf(observations));
            && d.outcome == SUCCESS
            && SameElements(d.ranking, d.includedIds) && Increasing(rank, d.ranking)
            && (SameElements(other, d.includedIds) && Increasing(rank, other) ==> other == d.ranking)
  {
    hide NoRepeat, SortBy, EdgeIds, IncludedIds, ExclusionRows, Without, ByEdge, MeanOf, ResidualRank, Increasing;
    SomethingIncluded(op, observations);
    var rank, included := ResidualRank(ByEdge(observations), MeanOf(observations)), IncludedIds(op, observations);
    assert NoRepeat(included) by {
      IncludedDistinct(op, observations);
    }
    SortElements(rank, included);
    SortIncreasing(rank, included);
    if SameElements(other, included) && Increasing(rank, other) {
      IncreasingIsUnique(rank, other, SortBy(rank, included));
    }
  }

  lemma IncludedDistinct(op: Operation, observations: seq<Observation>)
    requires NoRepeat(EdgeIds(observations))
    ensures NoRepeat(IncludedIds(op, observations))
  {
    KeptHas(op, observations);
    SortedStays(EdgeIds(Kept(op, observations)));
  }

  // Every exclusion names an observation and the true reason for leaving it out.
  lemma ExclusionsAreJustified(digests: Digests, input: RoundInput, op: Operation, observations: seq<Observation>,
                               row: ExcludedRow) returns (o: Observation)
    requires Constructed(digests, input, op, observations) && NoRepeat(EdgeIds(observations))
    requires op.minimumParticipants >= 1 && row in DecisionFor(digests, input, op, observations).excluded
    ensures o in observations && o.edgeId == row.edgeId && row.evidenceIds == [o.evidenceId]
    ensures if |Kept(op, observations)| < op.minimumParticipants then row.reasonId == op.noRankingReason
            else !Keeps(op, observations, o)
                 && row.reasonId == if o.eligibilityReason.Some? then o.eligibilityReason.value else op.residualReason
  {
    hide NoRepeat, EdgeIds, SortBy, Without, InputError, ValidObservation, ByEdge, Kept, MeanOf, Keeps;
    var edges, included := EdgeIds(observations), IncludedIds(op, observations);
    var d := DecisionFor(digests, input, op, observations);
    SortElements(ById(), EdgeIds(Kept(op, observations)));
    EdgeCount(Kept(op, observations));
    SortedAreProvided(observations, edges);
    WithoutHas(edges, included);
    SortedAreProvided(observations, Without(edges, included));
    var i :| 0 <= i < |d.excluded| && d.excluded[i] == row;
    var ids := SortBy(ById(), if |included| < op.minimumParticipants then edges else Without(edges, included));
    SortElements(ById(), Without(edges, included));
    ByEdgeHas(observations, ids[i]);
    o := ByEdge(observations)[ids[i]];
    assert |included| >= op.minimumParticipants ==> ids[i] !in included;
    IncludedHas(op, observations, ids[i]);
  }

  // ---- values ----

  // Two included values are never further apart than twice the bound.
  lemma IncludedAreClose(op: Operation, observations: seq<Observation>, a: Observation, b: Observation)
    requires a in Kept(op, observations) && b in Kept(op, observations)
    ensures Abs(a.currentValue - b.currentValue) <= 2.0 * op.maxAbsResidual
  {
    KeptHas(op, observations);
  }

  // When all eligible values are within the bound of each other, only ineligibility excludes.
  lemma CloseValuesAllKept(op: Operation, observations: seq<Observation>)
    requires forall a, b :: a in Eligible(observations) && b in Eligible(observations) ==>
               Abs(a.currentValue - b.currentValue) <= op.maxAbsResidual
    ensures forall o :: o in Kept(op, observations) <==> o in observations && o.eligibilityReason.None?
  {
    hide Select, MeanOf;
    KeptHas(op, observations);
    SelectHas(IsEligible(), observations);
    var eligible := Eligible(observations);
    forall o | o in eligible ensures Keeps(op, observations, o) {
      forall x | x in eligible
        ensures o.currentValue - op.maxAbsResidual <= CurrentValue()(x) <= o.currentValue + op.maxAbsResidual
      {
        assert Abs(o.currentValue - x.currentValue) <= op.maxAbsResidual;
      }
      MeanWithin(CurrentValue(), eligible, o.currentValue - op.maxAbsResidual, o.currentValue + op.maxAbsResidual);
      assert MeanOf(observations) == Mean(CurrentValue(), eligible) by {
        MeanIs(observations);
      }
    }
  }

  lemma MeanIs(observations: seq<Observation>)
    requires Eligible(observations) != []
    ensures MeanOf(observations) == Mean(CurrentValue(), Eligible(observations))
  {
  }

  // Two eligible edges lie equally far from their mean, so their ranking is always by id.
  lemma PairIsNeverRefused(op: Operation, observations: seq<Observation>)
    requires |Eligible(observations)| == 2
    ensures ResidualsFollowIds(op, observations)
  {
    hide Select;
    var e := Eligible(observations);
    KeptHas(op, observations);
    SelectHas(IsEligible(), observations);
    assert e == [e[0], e[1]];
    assert e[..1] == [e[0]] && [e[0]][..0] == [];
    assert SumBy(CurrentValue(), [e[0]]) == e[0].currentValue;
    assert SumBy(CurrentValue(), e) == e[0].currentValue + e[1].currentValue;
    assert MeanOf(observations) == (e[0].currentValue + e[1].currentValue) / 2.0;
  }

  // ---- trace ----

  // One event per observation and one for the operation, within the declared budget; none when blocked.
  lemma TraceFitsBudget(digests: Digests, input: RoundInput, parameters: ParameterSet, contract: ContractValidation,
                        validation: ParameterValidation, operation: Option<Operation>, observations: seq<Observation>)
    requires operation.Some? ==> ValidOperation(digests, operation.value)
    ensures var r := EvaluateSpec(digests, input, parameters, contract, validation, operation, observations);
            && (r.Ok? && r.value.Blocked? ==> r.value.trace.events == [])
            && (r.Ok? && r.value.Evaluated? ==>
                  operation.Some? && |r.value.trace.events| == |observations| + 1 <= operation.value.traceMaxEvents)
  {
    hide DecisionFor, DecisionError, SortBy, SortedSet, EdgeIds, ValidOperation, ClosureDiagnostics;
    if operation.Some? {
      SortElements(ById(), EdgeIds(observations));
      EdgeCount(observations);
      if ClosureDiagnostics(input, parameters, operation.value, observations) == [] {
        OpenMeans(input, parameters, operation.value, observations);
      }
    }
  }
}
