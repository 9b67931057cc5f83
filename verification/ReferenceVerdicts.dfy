// What the reference evaluation answers, read off its arguments: each diagnostic of a blocked answer, and each
// field of a decision and its trace.
module ReferenceVerdicts {
  import opened Wrappers
  import opened Sums
  import opened Lists
  import opened SortedIds
  import opened Texts
  import opened DecisionContract
  import opened ReferenceEvaluator
  import opened ReferenceAcceptance

  // ---- blocked on its inputs ----

  // The codes of the first stage, each with its own condition.
  ghost predicate ReportsInput(code: string, contract: ContractValidation, validation: ParameterValidation,
                               operation: Option<Operation>, observations: seq<Observation>)
  {
    || code in contract.diagnostics
    || code in validation.violatedRules
    || (code == "CV2_REFERENCE_CONTRACT_BLOCKED" && !contract.valid)
    || (code == "CV2_REFERENCE_PARAMETER_BLOCKED" && validation.status != "valid")
    || (code == "CV2_REFERENCE_OPERATION_INPUT_UNAVAILABLE" && (operation.None? || observations == []))
  }

  // A blocked answer with exactly the reported codes, each once, in ascending order, and no events.
  ghost predicate BlockedWith(r: Result<Evaluation, Code>, input: RoundInput, parameters: ParameterSet, reports: string -> bool) {
    && r.Ok? && r.value.Blocked?
    && r.value.trace == Trace(input.inputContentId, parameters.parameterSetId, [])
    && Ascending(r.value.diagnostics)
    && forall code :: code in r.value.diagnostics <==> reports(code)
  }

  lemma BlockingHas(contract: ContractValidation, validation: ParameterValidation, operation: Option<Operation>,
                    observations: seq<Observation>)
    ensures forall code :: code in BlockingDiagnostics(contract, validation, operation, observations)
                      <==> ReportsInput(code, contract, validation, operation, observations)
  {
  }

  // A first-stage code is reported exactly when the contract, the parameters, the operation or the observations are
  // at fault, and then the answer is blocked with these codes and no others.
  lemma InputsBlock(digests: Digests, input: RoundInput, parameters: ParameterSet, contract: ContractValidation,
                    validation: ParameterValidation, operation: Option<Operation>, observations: seq<Observation>)
    requires operation.Some? ==> ValidOperation(digests, operation.value)
    ensures var r := EvaluateSpec(digests, input, parameters, contract, validation, operation, observations);
            (exists code :: ReportsInput(code, contract, validation, operation, observations)) ==>
              BlockedWith(r, input, parameters, code => ReportsInput(code, contract, validation, operation, observations))
  {
    hide ValidOperation, Ascending, ReportsInput, BlockingDiagnostics, ClosureDiagnostics, DecisionError, DecisionFor, SortedSet;
    BlockingHas(contract, validation, operation, observations);
    SortedSetIs(BlockingDiagnostics(contract, validation, operation, observations));
  }

  // ---- blocked on its projections ----

  // The last observation of its edge, and the last row of its edge, are the ones looked up.
  ghost predicate LastOfEdge(observations: seq<Observation>, k: int) {
    0 <= k < |observations| && forall j :: k < j < |observations| ==> observations[j].edgeId != observations[k].edgeId
  }

  ghost predicate LastRow(rows: seq<InputRow>, k: int) {
    0 <= k < |rows| && forall j :: k < j < |rows| ==> rows[j].edgeId != rows[k].edgeId
  }

  ghost predicate Matches(row: InputRow, o: Observation) {
    row.edgeId == o.edgeId && row.observationId == o.observationId && row.observationCanonicalHash == o.observationCanonicalHash
  }

  ghost predicate HasEdge(observations: seq<Observation>, edge: string) {
    exists i :: 0 <= i < |observations| && observations[i].edgeId == edge
  }

  ghost predicate HasRow(rows: seq<InputRow>, edge: string) {
    exists i :: 0 <= i < |rows| && rows[i].edgeId == edge
  }

  // The codes of the second stage, each with its own condition.
  ghost predicate ReportsClosure(code: string, input: RoundInput, parameters: ParameterSet, op: Operation,
                                 observations: seq<Observation>)
  {
    || (code == "CV2_REFERENCE_OPERATION_PARAMETER_CLOSURE"
        && (|| parameters.comparisonBasisId != input.basis.basisId
            || parameters.profileId !in input.basis.profileIds
            || parameters.qualityPolicyId !in input.qualityPolicyIds
            || parameters.residualPolicyId != op.operationId
            || parameters.residualPolicyBytesHash != op.canonicalBytesHash
            || parameters.residualPolicyConformanceId != op.conformanceVectorHash))
    || (code == "CV2_REFERENCE_PROJECTION_CLOSURE"
        && (|| (exists i, j :: 0 <= i < j < |observations| && observations[i].edgeId == observations[j].edgeId)
            || (exists edge :: HasEdge(observations, edge) != HasRow(input.observations, edge))))
    || (code == "CV2_REFERENCE_PROJECTION_BINDING"
        && exists k :: LastOfEdge(observations, k)
             && forall j :: LastRow(input.observations, j) ==> !Matches(input.observations[j], observations[k]))
    || (code == "CV2_REFERENCE_TRACE_BUDGET_EXCEEDED" && |observations| + 1 > op.traceMaxEvents)
  }

  lemma {:induction false} LookupIsLast(observations: seq<Observation>, k: int)
    requires LastOfEdge(observations, k)
    ensures observations[k].edgeId in ByEdge(observations) && ByEdge(observations)[observations[k].edgeId] == observations[k]
  {
    var n := |observations| - 1;
    if k < n {
      LookupIsLast(observations[..n], k);
    }
  }

  lemma {:induction false} EveryEdgeHasLast(observations: seq<Observation>, edge: string) returns (k: int)
    requires edge in ByEdge(observations)
    ensures LastOfEdge(observations, k) && observations[k].edgeId == edge
  {
    var n := |observations| - 1;
    if observations[n].edgeId == edge {
      k := n;
    } else {
      k := EveryEdgeHasLast(observations[..n], edge);
    }
  }

  lemma {:induction false} RowLookupIsLast(rows: seq<InputRow>, k: int)
    requires LastRow(rows, k)
    ensures rows[k].edgeId in RowByEdge(rows) && RowByEdge(rows)[rows[k].edgeId] == rows[k]
  {
    var n := |rows| - 1;
    if k < n {
      RowLookupIsLast(rows[..n], k);
    }
  }

  lemma {:induction false} EveryRowHasLast(rows: seq<InputRow>, edge: string) returns (k: int)
    requires edge in RowByEdge(rows)
    ensures LastRow(rows, k) && rows[k].edgeId == edge
  {
    var n := |rows| - 1;
    if rows[n].edgeId == edge {
      k := n;
    } else {
      k := EveryRowHasLast(rows[..n], edge);
    }
  }

  lemma BoundMeans(rows: seq<InputRow>, o: Observation)
    ensures Bound(RowByEdge(rows), o) <==> exists j :: LastRow(rows, j) && Matches(rows[j], o)
  {
    hide RowByEdge;
    if o.edgeId in RowByEdge(rows) {
      var j := EveryRowHasLast(rows, o.edgeId);
      RowLookupIsLast(rows, j);
    }
    forall j | LastRow(rows, j) && Matches(rows[j], o) ensures Bound(RowByEdge(rows), o) {
      RowLookupIsLast(rows, j);
    }
  }

  lemma ProjectionBoundMeans(input: RoundInput, observations: seq<Observation>)
    ensures ProjectionBound(input, observations) <==>
      forall k :: LastOfEdge(observations, k) ==>
        exists j :: LastRow(input.observations, j) && Matches(input.observations[j], observations[k])
  {
    hide Matches, RowByEdge, ByEdge, Bound;
    forall k | LastOfEdge(observations, k)
      ensures Bound(RowByEdge(input.observations), observations[k])
          <==> exists j :: LastRow(input.observations, j) && Matches(input.observations[j], observations[k])
      ensures observations[k].edgeId in ByEdge(observations) && ByEdge(observations)[observations[k].edgeId] == observations[k]
    {
      BoundMeans(input.observations, observations[k]);
      LookupIsLast(observations, k);
    }
    forall edge | edge in ByEdge(observations)
      ensures exists k :: LastOfEdge(observations, k) && ByEdge(observations)[edge] == observations[k]
    {
      var k := EveryEdgeHasLast(observations, edge);
      LookupIsLast(observations, k);
    }
  }

  lemma ProjectionClosedMeans(input: RoundInput, observations: seq<Observation>)
    ensures ProjectionClosed(input, observations) <==>
      && (forall i, j :: 0 <= i < j < |observations| ==> observations[i].edgeId != observations[j].edgeId)
      && (forall edge :: HasEdge(observations, edge) <==> HasRow(input.observations, edge))
  {
    var edges, rows := EdgeIds(observations), RowEdges(input.observations);
    assert forall i :: 0 <= i < |observations| ==> edges[i] == observations[i].edgeId;
    assert forall i :: 0 <= i < |rows| ==> rows[i] == input.observations[i].edgeId;
    forall edge ensures edge in edges <==> HasEdge(observations, edge) {
    }
    forall edge ensures edge in rows <==> HasRow(input.observations, edge) {
    }
  }

  lemma ClosureHas(input: RoundInput, parameters: ParameterSet, op: Operation, observations: seq<Observation>)
    ensures forall code :: code in ClosureDiagnostics(input, parameters, op, observations)
                      <==> ReportsClosure(code, input, parameters, op, observations)
  {
    hide ProjectionClosed, ProjectionBound, LastOfEdge, LastRow, Matches, HasEdge, HasRow;
    ProjectionClosedMeans(input, observations);
    ProjectionBoundMeans(input, observations);
  }

  lemma SomeMember(s: seq<string>)
    ensures s != [] <==> exists x :: x in s
  {
    if s != [] {
      assert s[0] in s;
    }
  }

  // When the first stage reports nothing, the second decides in the same way.
  lemma ProjectionsBlock(digests: Digests, input: RoundInput, parameters: ParameterSet, contract: ContractValidation,
                         validation: ParameterValidation, op: Operation, observations: seq<Observation>)
    requires ValidOperation(digests, op)
    requires forall code :: !ReportsInput(code, contract, validation, Some(op), observations)
    ensures var r := EvaluateSpec(digests, input, parameters, contract, validation, Some(op), observations);
            if exists code :: ReportsClosure(code, input, parameters, op, observations) then
              BlockedWith(r, input, parameters, code => ReportsClosure(code, input, parameters, op, observations))
            else r.Err? || r.value.Evaluated?
  {
    hide ValidOperation, Ascending, ReportsInput, ReportsClosure, BlockingDiagnostics, ClosureDiagnostics, DecisionError,
         DecisionFor, SortedSet;
    BlockingHas(contract, validation, Some(op), observations);
    ClosureHas(input, parameters, op, observations);
    var blocking, closure := BlockingDiagnostics(contract, validation, Some(op), observations),
                             ClosureDiagnostics(input, parameters, op, observations);
    SomeMember(blocking);
    SomeMember(closure);
    SortedSetIs(closure);
  }

  // ---- the decision ----

  function EligibleTotal(observations: seq<Observation>): real {
    if observations == [] then 0.0
    else
      var last := observations[|observations| - 1];
      EligibleTotal(observations[..|observations| - 1]) + (if last.eligibilityReason.None? then last.currentValue else 0.0)
  }

  function EligibleCount(observations: seq<Observation>): nat {
    if observations == [] then 0
    else
      var last := observations[|observations| - 1];
      EligibleCount(observations[..|observations| - 1]) + (if last.eligibilityReason.None? then 1 else 0)
  }

  // The mean of the eligible values, where there are any.
  ghost predicate IsMean(observations: seq<Observation>, mean: real) {
    EligibleCount(observations) > 0 ==> mean * EligibleCount(observations) as real == EligibleTotal(observations)
  }

  // An eligible value within the bound of the mean.
  ghost predicate Stays(op: Operation, mean: real, o: Observation) {
    o.eligibilityReason.None? && mean - op.maxAbsResidual <= o.currentValue <= mean + op.maxAbsResidual
  }

  ghost function StayCount(op: Operation, mean: real, observations: seq<Observation>): nat {
    if observations == [] then 0
    else
      StayCount(op, mean, observations[..|observations| - 1])
      + (if Stays(op, mean, observations[|observations| - 1]) then 1 else 0)
  }

  // The row that leaves an observation out, by which reason.
  ghost predicate LeavesOut(row: ExcludedRow, o: Observation, reason: string) {
    row.edgeId == o.edgeId && row.reasonId == reason && row.evidenceIds == [o.evidenceId]
  }

  // Closer to the mean first, and at equal distances in the order of the edges.
  ghost predicate RanksBefore(mean: real, a: Observation, b: Observation) {
    var da, db := if a.currentValue >= mean then a.currentValue - mean else mean - a.currentValue,
                  if b.currentValue >= mean then b.currentValue - mean else mean - b.currentValue;
    da < db || (da == db && ComesBefore(a.edgeId, b.edgeId))
  }

  ghost predicate RankedInPlace(mean: real, observations: seq<Observation>, edge: string, later: string) {
    forall a, b :: a in observations && b in observations && a.edgeId == edge && b.edgeId == later ==> RanksBefore(mean, a, b)
  }

  ghost predicate FailureSays(d: Decision, op: Operation, observations: seq<Observation>) {
    && d.outcome == "failure" && d.includedIds == [] && d.ranking == []
    && d.diagnostics == [Points("no_ranking"), Points("CV2_OPERATION:" + op.operationId)]
    && Ascending(EdgesOf(d.excluded))
    && (forall row :: row in d.excluded <==> exists o :: o in observations && LeavesOut(row, o, op.noRankingReason))
  }

  ghost predicate SuccessSays(d: Decision, op: Operation, mean: real, observations: seq<Observation>) {
    && d.outcome == "success" && d.diagnostics == [Points("CV2_OPERATION:" + op.operationId)]
    && Ascending(d.includedIds)
    && (forall edge :: edge in d.includedIds <==> exists o :: o in observations && o.edgeId == edge && Stays(op, mean, o))
    && Ascending(EdgesOf(d.excluded))
    && (forall row :: row in d.excluded <==>
          exists o :: o in observations && !Stays(op, mean, o)
            && LeavesOut(row, o, if o.eligibilityReason.Some? then o.eligibilityReason.value else op.residualReason))
    && |d.ranking| == |d.includedIds| && (forall edge :: edge in d.ranking <==> edge in d.includedIds)
    && (forall i, j :: 0 <= i < j < |d.ranking| ==> RankedInPlace(mean, observations, d.ranking[i], d.ranking[j]))
  }

  lemma MeanIsMean(observations: seq<Observation>)
    ensures EligibleCount(observations) == |Eligible(observations)|
    ensures Eligible(observations) != [] ==> IsMean(observations, MeanOf(observations))
  {
    hide Select, SumBy;
    TotalIs(observations);
    if Eligible(observations) != [] {
      QuotientTimes(SumBy(CurrentValue(), Eligible(observations)), |Eligible(observations)| as real);
    }
  }

  lemma QuotientTimes(total: real, n: real)
    requires n > 0.0
    ensures (total / n) * n == total
  {
  }

  lemma {:induction false} TotalIs(observations: seq<Observation>)
    ensures EligibleCount(observations) == |Eligible(observations)|
    ensures EligibleTotal(observations) == SumBy(CurrentValue(), Eligible(observations))
  {
    if observations != [] {
      var front, last := observations[..|observations| - 1], observations[|observations| - 1];
      TotalIs(front);
      SumSnoc(CurrentValue(), Eligible(front), last);
      assert Eligible(front) + [] == Eligible(front);
    }
  }

  lemma SelectSnoc(p: Observation -> bool, s: seq<Observation>, o: Observation)
    ensures Select(p, s + [o]) == if p(o) then Select(p, s) + [o] else Select(p, s)
  {
    assert (s + [o])[..|s|] == s;
    assert Select(p, s) + [] == Select(p, s);
  }

  lemma {:induction false} StayCountIs(op: Operation, mean: real, observations: seq<Observation>)
    ensures StayCount(op, mean, observations) == |Select(IsWithin(mean, op.maxAbsResidual), Eligible(observations))|
  {
    if observations != [] {
      var front, last := observations[..|observations| - 1], observations[|observations| - 1];
      StayCountIs(op, mean, front);
      assert observations == front + [last];
      SelectSnoc(IsEligible(), front, last);
      hide Select;
      SelectSnoc(IsWithin(mean, op.maxAbsResidual), Eligible(front), last);
    }
  }

  lemma StaysIsKeeps(op: Operation, mean: real, observations: seq<Observation>)
    requires Eligible(observations) != [] ==> mean == MeanOf(observations)
    ensures forall o :: o in observations ==> (Stays(op, mean, o) <==> Keeps(op, observations, o))
    ensures StayCount(op, mean, observations) == |IncludedIds(op, observations)|
  {
    hide MeanOf;
    SelectHas(IsEligible(), observations);
    StayCountIs(op, mean, observations);
    SortElements(ById(), EdgeIds(Kept(op, observations)));
    EdgeCount(Kept(op, observations));
  }

  // The observations of listed edges, by position.
  lemma ListedAre(observations: seq<Observation>, ids: seq<string>)
    requires NoRepeat(EdgeIds(observations)) && Subset(ids, EdgeIds(observations))
    ensures forall i :: 0 <= i < |ids| ==> ids[i] in ByEdge(observations)
    ensures forall i :: 0 <= i < |ids| ==> ByEdge(observations)[ids[i]] in observations && ByEdge(observations)[ids[i]].edgeId == ids[i]
    ensures forall o :: o in observations && o.edgeId in ids ==> exists i :: 0 <= i < |ids| && ByEdge(observations)[ids[i]] == o
  {
    hide NoRepeat, EdgeIds, ByEdge;
    forall i | 0 <= i < |ids| ensures ids[i] in ByEdge(observations)
      ensures ByEdge(observations)[ids[i]] in observations && ByEdge(observations)[ids[i]].edgeId == ids[i]
    {
      assert ids[i] in ids;
      ByEdgeHas(observations, ids[i]);
    }
    forall o | o in observations && o.edgeId in ids ensures exists i :: 0 <= i < |ids| && ByEdge(observations)[ids[i]] == o {
      var i :| 0 <= i < |ids| && ids[i] == o.edgeId;
      DistinctEdges(observations, o, ByEdge(observations)[ids[i]]);
    }
  }

  lemma ExclusionRowsHave(op: Operation, observations: seq<Observation>, ids: seq<string>)
    requires NoRepeat(EdgeIds(observations)) && Subset(ids, EdgeIds(observations)) && Increasing(ById(), ids)
    ensures forall i :: 0 <= i < |ids| ==> ids[i] in ByEdge(observations)
    ensures var rows := ExclusionRows(op, ByEdge(observations), ids);
            && Ascending(EdgesOf(rows))
            && forall row :: row in rows <==> exists o :: o in observations && o.edgeId in ids && LeavesOut(row, o,
                 if o.eligibilityReason.Some? then o.eligibilityReason.value else op.residualReason)
  {
    hide NoRepeat, EdgeIds, ByEdge, Increasing, Ascending, Subset;
    IncreasingMeans(ids);
    ListedAre(observations, ids);
    var rows := ExclusionRows(op, ByEdge(observations), ids);
    assert EdgesOf(rows) == ids;
    forall row, o | o in observations && o.edgeId in ids && LeavesOut(row, o, ReferenceEvaluator.ExclusionReason(op, o))
      ensures row in rows
    {
      var i :| 0 <= i < |ids| && ByEdge(observations)[ids[i]] == o;
      assert rows[i] == ExclusionRow(op, o) == row;
    }
    forall row | row in rows ensures exists o ::
        o in observations && o.edgeId in ids && LeavesOut(row, o, ReferenceEvaluator.ExclusionReason(op, o)) {
      var i :| 0 <= i < |ids| && rows[i] == row;
      var o := ByEdge(observations)[ids[i]];
      assert LeavesOut(row, o, ReferenceEvaluator.ExclusionReason(op, o));
    }
  }

  lemma NoRankingRowsHave(op: Operation, observations: seq<Observation>, ids: seq<string>)
    requires NoRepeat(EdgeIds(observations)) && Subset(ids, EdgeIds(observations)) && Increasing(ById(), ids)
    ensures forall i :: 0 <= i < |ids| ==> ids[i] in ByEdge(observations)
    ensures var rows := NoRankingRows(op, ByEdge(observations), ids);
            && Ascending(EdgesOf(rows))
            && forall row :: row in rows <==> exists o :: o in observations && o.edgeId in ids && LeavesOut(row, o, op.noRankingReason)
  {
    hide NoRepeat, EdgeIds, ByEdge, Increasing, Ascending, Subset;
    IncreasingMeans(ids);
    ListedAre(observations, ids);
    var rows := NoRankingRows(op, ByEdge(observations), ids);
    assert EdgesOf(rows) == ids;
    forall row, o | o in observations && o.edgeId in ids && LeavesOut(row, o, op.noRankingReason) ensures row in rows {
      var i :| 0 <= i < |ids| && ByEdge(observations)[ids[i]] == o;
      assert rows[i] == NoRankingRow(op, o) == row;
    }
    forall row | row in rows ensures exists o :: o in observations && o.edgeId in ids && LeavesOut(row, o, op.noRankingReason) {
      var i :| 0 <= i < |ids| && rows[i] == row;
      assert LeavesOut(row, ByEdge(observations)[ids[i]], op.noRankingReason);
    }
  }

  lemma RankingSays(op: Operation, observations: seq<Observation>, mean: real, ids: seq<string>)
    requires NoRepeat(EdgeIds(observations)) && NoRepeat(ids)
    ensures var ranking := SortBy(ResidualRank(ByEdge(observations), mean), ids);
            && |ranking| == |ids| && (forall edge :: edge in ranking <==> edge in ids)
            && forall i, j :: 0 <= i < j < |ranking| ==> RankedInPlace(mean, observations, ranking[i], ranking[j])
  {
    hide NoRepeat, EdgeIds, ByEdge, SortBy, ResidualRank;
    var rank := ResidualRank(ByEdge(observations), mean);
    var ranking := SortBy(rank, ids);
    SortElements(rank, ids);
    SortIncreasing(rank, ids);
    forall i, j | 0 <= i < j < |ranking| ensures RankedInPlace(mean, observations, ranking[i], ranking[j]) {
      assert Before(rank, ranking[i], ranking[j]);
      InPlace(observations, mean, ranking[i], ranking[j]);
    }
  }

  lemma InPlace(observations: seq<Observation>, mean: real, edge: string, later: string)
    requires NoRepeat(EdgeIds(observations)) && Before(ResidualRank(ByEdge(observations), mean), edge, later)
    ensures RankedInPlace(mean, observations, edge, later)
  {
    hide NoRepeat, EdgeIds, ByEdge, ResidualRank, ComesBefore, StrLess;
    StrLessMeans(edge, later);
    forall a, b | a in observations && b in observations && a.edgeId == edge && b.edgeId == later ensures RanksBefore(mean, a, b) {
      RankOf(observations, mean, a);
      RankOf(observations, mean, b);
    }
  }

  // The fields that do not depend on the outcome.
  ghost predicate HeadSays(digests: Digests, d: Decision, input: RoundInput, observations: seq<Observation>) {
    && d.schemaVersion == "Consensus.v2" && d.authorizationEffect == "none"
    && d.roundInputId == input.inputContentId && d.roundInputHash == input.inputContentId && d.basis == input.basis
    && Ascending(d.participantIds) && (forall edge :: edge in d.participantIds <==> HasEdge(observations, edge))
    && d.decisionContentId == digests.decision(d.(decisionContentId := ""))
  }

  // Over distinct edges, the decision is a failure that leaves every edge out when fewer edges than required lie within
  // the bound of the mean, and otherwise a success that keeps exactly these, ranked by distance from the mean.
  lemma DecisionSays(digests: Digests, input: RoundInput, op: Operation, observations: seq<Observation>, mean: real)
    requires op.minimumParticipants >= 1 && NoRepeat(EdgeIds(observations))
    requires Eligible(observations) != [] ==> mean == MeanOf(observations)
    ensures var d := DecisionFor(digests, input, op, observations);
            && HeadSays(digests, d, input, observations)
            && (if StayCount(op, mean, observations) < op.minimumParticipants then FailureSays(d, op, observations)
                else SuccessSays(d, op, mean, observations))
  {
    hide *;
    StaysIsKeeps(op, mean, observations);
    DecisionForIs(digests, input, op, observations);
    if StayCount(op, mean, observations) < op.minimumParticipants {
      FailureDecisionSays(digests, input, op, observations);
    } else {
      SuccessDecisionSays(digests, input, op, observations, mean);
    }
  }

  lemma MeanOrZero(observations: seq<Observation>) returns (mean: real)
    ensures IsMean(observations, mean)
    ensures Eligible(observations) != [] ==> mean == MeanOf(observations)
  {
    hide Select, MeanOf;
    MeanIsMean(observations);
    mean := if Eligible(observations) == [] then 0.0 else MeanOf(observations);
  }

  lemma DecisionForIs(digests: Digests, input: RoundInput, op: Operation, observations: seq<Observation>)
    requires op.minimumParticipants >= 1
    ensures |IncludedIds(op, observations)| < op.minimumParticipants ==>
              DecisionFor(digests, input, op, observations) == FailureDecision(digests, input, op, observations)
    ensures |IncludedIds(op, observations)| >= op.minimumParticipants ==>
              Eligible(observations) != []
              && DecisionFor(digests, input, op, observations) == SuccessDecision(digests, input, op, observations)
  {
    hide FailureDecision, SuccessDecision, Select;
    if |IncludedIds(op, observations)| >= op.minimumParticipants {
      SomethingIncluded(op, observations);
    }
  }

  lemma ParticipantsSay(observations: seq<Observation>)
    requires NoRepeat(EdgeIds(observations))
    ensures var participants := SortBy(ById(), EdgeIds(observations));
            && Increasing(ById(), participants) && Ascending(participants)
            && (forall edge :: edge in participants <==> HasEdge(observations, edge))
            && Subset(participants, EdgeIds(observations)) && |participants| == |observations|
            && (forall o :: o in observations ==> o.edgeId in participants)
  {
    hide SortBy, Increasing, Ascending;
    var edges := EdgeIds(observations);
    SortIncreasing(ById(), edges);
    SortElements(ById(), edges);
    IncreasingMeans(SortBy(ById(), edges));
    assert forall i :: 0 <= i < |observations| ==> edges[i] == observations[i].edgeId;
  }

  lemma FailureDecisionSays(digests: Digests, input: RoundInput, op: Operation, observations: seq<Observation>)
    requires NoRepeat(EdgeIds(observations))
    ensures var d := FailureDecision(digests, input, op, observations);
            HeadSays(digests, d, input, observations) && FailureSays(d, op, observations)
  {
    hide SortBy, EdgeIds, Increasing, Ascending, HasEdge, NoRepeat, ByEdge, LeavesOut, EdgesOf, NoRankingRows;
    ParticipantsSay(observations);
    var participants := SortBy(ById(), EdgeIds(observations));
    NoRankingRowsHave(op, observations, participants);
    var d := FailureDecision(digests, input, op, observations);
    Sealing(digests, d.(decisionContentId := ""));
    assert d.excluded == NoRankingRows(op, ByEdge(observations), participants);
  }

  lemma ExcludedIdsAre(op: Operation, observations: seq<Observation>, mean: real)
    requires NoRepeat(EdgeIds(observations)) && Eligible(observations) != [] && mean == MeanOf(observations)
    ensures var included := IncludedIds(op, observations);
            var ids := SortBy(ById(), Without(EdgeIds(observations), included));
            && NoRepeat(included) && Ascending(included)
            && (forall edge :: edge in included <==> exists o :: o in observations && o.edgeId == edge && Stays(op, mean, o))
            && Subset(ids, EdgeIds(observations)) && Increasing(ById(), ids)
            && (forall o :: o in observations ==> (o.edgeId in ids <==> !Stays(op, mean, o)))
  {
    hide SortBy, EdgeIds, Increasing, Ascending, NoRepeat, ByEdge, IncludedIds, Stays, Keeps, Without, MeanOf, Kept, Eligible;
    var included, edges := IncludedIds(op, observations), EdgeIds(observations);
    StaysIsKeeps(op, mean, observations);
    IncludedAscend(op, observations);
    WithoutHas(edges, included);
    SortElements(ById(), Without(edges, included));
    SortIncreasing(ById(), Without(edges, included));
    forall o | o in observations ensures o.edgeId in included <==> Stays(op, mean, o)
      ensures o.edgeId in edges
    {
      EdgeIdsSnoc(observations, o);
      IncludedHas(op, observations, o.edgeId);
      ByEdgeHas(observations, o.edgeId);
      DistinctEdges(observations, o, ByEdge(observations)[o.edgeId]);
    }
    forall edge | edge in included ensures exists o :: o in observations && o.edgeId == edge && Stays(op, mean, o) {
      IncludedHas(op, observations, edge);
      ByEdgeHas(observations, edge);
      var o := ByEdge(observations)[edge];
      assert o in observations && o.edgeId == edge;
    }
  }

  lemma IncludedAscend(op: Operation, observations: seq<Observation>)
    requires NoRepeat(EdgeIds(observations))
    ensures NoRepeat(IncludedIds(op, observations)) && Ascending(IncludedIds(op, observations))
  {
    hide SortBy, EdgeIds, Increasing, Ascending, NoRepeat, Kept;
    KeptHas(op, observations);
    SortIncreasing(ById(), EdgeIds(Kept(op, observations)));
    IncreasingNoRepeat(ById(), IncludedIds(op, observations));
    IncreasingMeans(IncludedIds(op, observations));
  }

  lemma SuccessDecisionSays(digests: Digests, input: RoundInput, op: Operation, observations: seq<Observation>, mean: real)
    requires NoRepeat(EdgeIds(observations)) && Eligible(observations) != [] && mean == MeanOf(observations)
    ensures var d := SuccessDecision(digests, input, op, observations);
            HeadSays(digests, d, input, observations) && SuccessSays(d, op, mean, observations)
  {
    hide SortBy, EdgeIds, Increasing, Ascending, HasEdge, NoRepeat, ByEdge, LeavesOut, EdgesOf, ExclusionRows, Stays,
         IncludedIds, Without, MeanOf, Eligible, ResidualRank, RankedInPlace;
    ParticipantsSay(observations);
    ExcludedIdsAre(op, observations, mean);
    var included := IncludedIds(op, observations);
    var ids := SortBy(ById(), Without(EdgeIds(observations), included));
    ExclusionRowsHave(op, observations, ids);
    RankingSays(op, observations, mean, included);
    var d := SuccessDecision(digests, input, op, observations);
    Sealing(digests, d.(decisionContentId := ""));
    assert d.excluded == ExclusionRows(op, ByEdge(observations), ids);
  }

  // One event for each edge in order, and one for the operation.
  ghost predicate EventsSay(events: seq<(string, string)>, op: Operation, observations: seq<Observation>) {
    var n := |observations|;
    && |events| == n + 1 && events[n] == ("operation", op.operationId)
    && (forall i :: 0 <= i < n ==> events[i].0 == "observation")
    && (forall i, j :: 0 <= i < j < n ==> ComesBefore(events[i].1, events[j].1))
    && (forall edge :: HasEdge(observations, edge) <==> exists i :: 0 <= i < n && events[i].1 == edge)
  }

  lemma EventsForSays(op: Operation, observations: seq<Observation>)
    requires forall i, j :: 0 <= i < j < |observations| ==> observations[i].edgeId != observations[j].edgeId
    ensures EventsSay(EventsFor(op, observations), op, observations)
  {
    assert NoRepeat(EdgeIds(observations));
    hide SortBy, EdgeIds, HasEdge, NoRepeat, ComesBefore;
    ParticipantsSay(observations);
    var participants, events := SortBy(ById(), EdgeIds(observations)), EventsFor(op, observations);
    assert forall i :: 0 <= i < |participants| ==> events[i] == ("observation", participants[i]);
    forall edge ensures edge in participants <==> exists i :: 0 <= i < |participants| && events[i].1 == edge {
      if edge in participants {
        var i :| 0 <= i < |participants| && participants[i] == edge;
        assert events[i].1 == edge;
      }
    }
  }

  // No two kept edges are further from the mean in the order of their ids than against it.
  ghost predicate DistancesFollowIds(op: Operation, mean: real, observations: seq<Observation>) {
    forall a, b :: a in observations && b in observations ==>
      (Stays(op, mean, a) && Stays(op, mean, b) && ComesBefore(a.edgeId, b.edgeId) ==> RanksBefore(mean, a, b))
  }

  // When neither stage reports anything the answer is this decision and this trace; or, where the distances of the
  // kept edges fall as their ids rise, the contract's refusal of the ranking's order, and no other refusal.
  lemma EvaluationSays(digests: Digests, input: RoundInput, parameters: ParameterSet, contract: ContractValidation,
                       validation: ParameterValidation, op: Operation, observations: seq<Observation>) returns (mean: real)
    requires Constructed(digests, input, op, observations)
    requires forall code :: !ReportsInput(code, contract, validation, Some(op), observations)
    requires forall code :: !ReportsClosure(code, input, parameters, op, observations)
    ensures IsMean(observations, mean)
    ensures var r := EvaluateSpec(digests, input, parameters, contract, validation, Some(op), observations);
            var tooFew := StayCount(op, mean, observations) < op.minimumParticipants;
            if tooFew || DistancesFollowIds(op, mean, observations) then
              && r.Ok? && r.value.Evaluated? && HeadSays(digests, r.value.decision, input, observations)
              && (if tooFew then FailureSays(r.value.decision, op, observations)
                  else SuccessSays(r.value.decision, op, mean, observations))
              && r.value.trace.roundInputId == input.inputContentId && r.value.trace.parameterSetId == parameters.parameterSetId
              && EventsSay(r.value.trace.events, op, observations)
            else r == Err(RankingOrder)
  {
    hide *;
    NothingReported(digests, input, parameters, contract, validation, op, observations);
    mean := MeanOrZero(observations);
    DecisionSays(digests, input, op, observations, mean);
    EventsForSays(op, observations);
    AcceptedExactlyWhen(digests, input, op, parameters, contract, validation, observations);
    FollowsMeans(op, observations, mean);
    EvaluatedIs(digests, input, parameters, contract, validation, op, observations);
  }

  lemma EvaluatedIs(digests: Digests, input: RoundInput, parameters: ParameterSet, contract: ContractValidation,
                    validation: ParameterValidation, op: Operation, observations: seq<Observation>)
    requires ValidOperation(digests, op) && op.minimumParticipants >= 1
    requires BlockingDiagnostics(contract, validation, Some(op), observations) == []
    requires Open(input, parameters, op, observations)
    ensures var r := EvaluateSpec(digests, input, parameters, contract, validation, Some(op), observations);
            r.Ok? ==> r == Ok(Evaluated(DecisionFor(digests, input, op, observations),
                                        Trace(input.inputContentId, parameters.parameterSetId, EventsFor(op, observations))))
  {
    hide ValidOperation, BlockingDiagnostics, ClosureDiagnostics, DecisionFor, DecisionError, EventsFor;
  }

  lemma NothingReported(digests: Digests, input: RoundInput, parameters: ParameterSet, contract: ContractValidation,
                        validation: ParameterValidation, op: Operation, observations: seq<Observation>)
    requires Constructed(digests, input, op, observations)
    requires forall code :: !ReportsInput(code, contract, validation, Some(op), observations)
    requires forall code :: !ReportsClosure(code, input, parameters, op, observations)
    ensures ValidOperation(digests, op) && op.minimumParticipants >= 1
    ensures BlockingDiagnostics(contract, validation, Some(op), observations) == []
    ensures Open(input, parameters, op, observations)
    ensures forall i, j :: 0 <= i < j < |observations| ==> observations[i].edgeId != observations[j].edgeId
    ensures NoRepeat(EdgeIds(observations))
  {
    hide ValidOperation, BlockingDiagnostics, ClosureDiagnostics, InputError, ValidObservation, LastOfEdge, LastRow, Matches,
         HasEdge, HasRow;
    Participation(digests, op);
    BlockingHas(contract, validation, Some(op), observations);
    ClosureHas(input, parameters, op, observations);
    SomeMember(BlockingDiagnostics(contract, validation, Some(op), observations));
    SomeMember(ClosureDiagnostics(input, parameters, op, observations));
    assert !ReportsInput("CV2_REFERENCE_OPERATION_INPUT_UNAVAILABLE", contract, validation, Some(op), observations);
    assert !ReportsClosure("CV2_REFERENCE_PROJECTION_CLOSURE", input, parameters, op, observations);
  }

  lemma FollowsMeans(op: Operation, observations: seq<Observation>, mean: real)
    requires Eligible(observations) != [] ==> mean == MeanOf(observations)
    ensures StayCount(op, mean, observations) == |Kept(op, observations)|
    ensures op.minimumParticipants >= 1 && |Kept(op, observations)| >= op.minimumParticipants ==>
              (DistancesFollowIds(op, mean, observations) <==> ResidualsFollowIds(op, observations))
  {
    hide MeanOf, Kept, Keeps, Stays, ComesBefore, StrLess, SortBy, Eligible;
    StaysIsKeeps(op, mean, observations);
    SortElements(ById(), EdgeIds(Kept(op, observations)));
    EdgeCount(Kept(op, observations));
    KeptHas(op, observations);
    if op.minimumParticipants >= 1 && |Kept(op, observations)| >= op.minimumParticipants {
      SomethingIncluded(op, observations);
      forall a, b | a in observations && b in observations ensures StrLess(a.edgeId, b.edgeId) <==> ComesBefore(a.edgeId, b.edgeId)
        ensures ComesBefore(a.edgeId, b.edgeId) ==> (RanksBefore(mean, a, b) <==> Residual(mean, a) <= Residual(mean, b))
      {
        StrLessMeans(a.edgeId, b.edgeId);
      }
      assert forall o :: o in Kept(op, observations) <==> o in observations && Stays(op, mean, o);
    }
  }
}
