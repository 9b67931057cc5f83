// The Consensus.v2 reference evaluation: blocking checks, mean-residual exclusion, ranking,
// and the decision record handed to the contract.
module ReferenceEvaluator {
  import opened Wrappers
  import opened Rounding
  import opened Sums
  import opened Lists
  import opened SortedIds
  import opened Texts
  import opened DecisionContract

  const MEAN_CURRENT_RESIDUAL_V1 := "{\"algorithm\":\"mean_current_residual\",\"version\":\"1\"}"

  const CONTRACT_BLOCKED := "CV2_REFERENCE_CONTRACT_BLOCKED"
  const PARAMETER_BLOCKED := "CV2_REFERENCE_PARAMETER_BLOCKED"
  const OPERATION_INPUT_UNAVAILABLE := "CV2_REFERENCE_OPERATION_INPUT_UNAVAILABLE"
  const OPERATION_PARAMETER_CLOSURE := "CV2_REFERENCE_OPERATION_PARAMETER_CLOSURE"
  const PROJECTION_CLOSURE := "CV2_REFERENCE_PROJECTION_CLOSURE"
  const PROJECTION_BINDING := "CV2_REFERENCE_PROJECTION_BINDING"
  const TRACE_BUDGET_EXCEEDED := "CV2_REFERENCE_TRACE_BUDGET_EXCEEDED"
  const NO_RANKING := "no_ranking"
  const OPERATION_TAG := "CV2_OPERATION:"

  datatype Observation = Observation(
    edgeId: string, observationId: string, observationCanonicalHash: string, currentValue: real,
    eligibilityReason: Option<string>, evidenceId: string)

  predicate ValidObservation(o: Observation) {
    && AllImmutable([o.edgeId, o.observationId, o.observationCanonicalHash, o.evidenceId])
    && (o.eligibilityReason.Some? ==> IsImmutableId(o.eligibilityReason.value))
  }

  datatype Operation = Operation(
    operationId: string, canonicalBytes: string, canonicalBytesHash: string,
    conformanceVectorIds: seq<string>, conformanceVectorHash: string,
    minimumParticipants: int, maxAbsResidual: real, traceMaxEvents: int,
    noRankingReason: string, residualReason: string)

  function JoinLines(lines: seq<string>): string {
    if lines == [] then ""
    else if |lines| == 1 then lines[0]
    else JoinLines(lines[..|lines| - 1]) + "\n" + lines[|lines| - 1]
  }

  predicate ValidOperation(digests: Digests, op: Operation) {
    && op.canonicalBytes == MEAN_CURRENT_RESIDUAL_V1
    && op.canonicalBytesHash == digests.text(op.canonicalBytes) == op.operationId
    && op.conformanceVectorIds != [] && OrderedIds(op.conformanceVectorIds)
    && op.conformanceVectorHash == digests.text(JoinLines(op.conformanceVectorIds))
    && op.minimumParticipants >= 1 && op.traceMaxEvents >= 1 && op.maxAbsResidual >= 0.0
    && IsImmutableId(op.noRankingReason) && IsImmutableId(op.residualReason)
  }

  datatype ParameterSet = ParameterSet(
    parameterSetId: string, comparisonBasisId: string, profileId: string, qualityPolicyId: string,
    residualPolicyId: string, residualPolicyBytesHash: string, residualPolicyConformanceId: string)

  datatype ContractValidation = ContractValidation(valid: bool, diagnostics: seq<string>)

  datatype ParameterValidation = ParameterValidation(status: string, violatedRules: seq<string>)

  datatype Trace = Trace(roundInputId: string, parameterSetId: string, events: seq<(string, string)>)

  datatype Evaluation =
    | Blocked(diagnostics: seq<string>, trace: Trace)
    | Evaluated(decision: Decision, trace: Trace)

  // ---- lookups ----

  // A repeated edge keeps its last projection.
  function ByEdge(observations: seq<Observation>): map<string, Observation> {
    if observations == [] then map[]
    else
      var last := observations[|observations| - 1];
      ByEdge(observations[..|observations| - 1])[last.edgeId := last]
  }

  function RowByEdge(rows: seq<InputRow>): map<string, InputRow> {
    if rows == [] then map[]
    else RowByEdge(rows[..|rows| - 1])[rows[|rows| - 1].edgeId := rows[|rows| - 1]]
  }

  function EdgeIds(observations: seq<Observation>): seq<string> {
    seq(|observations|, i requires 0 <= i < |observations| => observations[i].edgeId)
  }

  function RowEdges(rows: seq<InputRow>): seq<string> {
    seq(|rows|, i requires 0 <= i < |rows| => rows[i].edgeId)
  }

  // ---- blocking ----

  function BlockingDiagnostics(contract: ContractValidation, parameters: ParameterValidation,
                               operation: Option<Operation>, observations: seq<Observation>): seq<string> {
    contract.diagnostics + parameters.violatedRules
    + (if !contract.valid then [CONTRACT_BLOCKED] else [])
    + (if parameters.status != "valid" then [PARAMETER_BLOCKED] else [])
    + (if operation.None? || observations == [] then [OPERATION_INPUT_UNAVAILABLE] else [])
  }

  predicate ParametersNameOperation(input: RoundInput, parameters: ParameterSet, op: Operation) {
    && parameters.comparisonBasisId == input.basis.basisId
    && parameters.profileId in input.basis.profileIds
    && parameters.qualityPolicyId in input.qualityPolicyIds
    && parameters.residualPolicyId == op.operationId
    && parameters.residualPolicyBytesHash == op.canonicalBytesHash
    && parameters.residualPolicyConformanceId == op.conformanceVectorHash
  }

  // Every input row has exactly one projection, and there are no others.
  predicate ProjectionClosed(input: RoundInput, observations: seq<Observation>) {
    NoRepeat(EdgeIds(observations)) && SameElements(EdgeIds(observations), RowEdges(input.observations))
  }

  predicate Bound(rows: map<string, InputRow>, o: Observation) {
    && o.edgeId in rows
    && rows[o.edgeId].observationId == o.observationId
    && rows[o.edgeId].observationCanonicalHash == o.observationCanonicalHash
  }

  predicate ProjectionBound(input: RoundInput, observations: seq<Observation>) {
    var rows, provided := RowByEdge(input.observations), ByEdge(observations);
    forall edge :: edge in provided ==> Bound(rows, provided[edge])
  }

  function ClosureDiagnostics(input: RoundInput, parameters: ParameterSet, op: Operation,
                              observations: seq<Observation>): seq<string> {
    (if ParametersNameOperation(input, parameters, op) then [] else [OPERATION_PARAMETER_CLOSURE])
    + (if ProjectionClosed(input, observations) then [] else [PROJECTION_CLOSURE])
    + (if ProjectionBound(input, observations) then [] else [PROJECTION_BINDING])
    + (if |observations| + 1 <= op.traceMaxEvents then [] else [TRACE_BUDGET_EXCEEDED])
  }

  // ---- the operation ----

  function Select(p: Observation -> bool, observations: seq<Observation>): seq<Observation> {
    if observations == [] then []
    else
      var last := observations[|observations| - 1];
      Select(p, observations[..|observations| - 1]) + (if p(last) then [last] else [])
  }

  function IsEligible(): Observation -> bool {
    (o: Observation) => o.eligibilityReason.None?
  }

  function Eligible(observations: seq<Observation>): seq<Observation> {
    Select(IsEligible(), observations)
  }

  function CurrentValue(): Observation -> real {
    (o: Observation) => o.currentValue
  }

  function MeanOf(observations: seq<Observation>): real
    requires Eligible(observations) != []
  {
    Mean(CurrentValue(), Eligible(observations))
  }

  function Residual(mean: real, o: Observation): real {
    Abs(o.currentValue - mean)
  }

  function IsWithin(mean: real, bound: real): Observation -> bool {
    (o: Observation) => Residual(mean, o) <= bound
  }

  function Kept(op: Operation, observations: seq<Observation>): seq<Observation> {
    if Eligible(observations) == [] then []
    else Select(IsWithin(MeanOf(observations), op.maxAbsResidual), Eligible(observations))
  }

  function IncludedIds(op: Operation, observations: seq<Observation>): seq<string> {
    SortBy(ById(), EdgeIds(Kept(op, observations)))
  }

  function ResidualRank(provided: map<string, Observation>, mean: real): string -> real {
    (edge: string) => if edge in provided then Residual(mean, provided[edge]) else 0.0
  }

  function Without(ids: seq<string>, removed: seq<string>): seq<string> {
    if ids == [] then []
    else Without(ids[..|ids| - 1], removed) + (if ids[|ids| - 1] in removed then [] else [ids[|ids| - 1]])
  }

  // ---- facts about the lists ----

  lemma EdgeIdsSnoc(s: seq<Observation>, o: Observation)
    ensures EdgeIds(s + [o]) == EdgeIds(s) + [o.edgeId]
    ensures forall x :: x in s ==> x.edgeId in EdgeIds(s)
  {
    forall x | x in s ensures x.edgeId in EdgeIds(s) {
      var k :| 0 <= k < |s| && s[k] == x;
      assert EdgeIds(s)[k] == x.edgeId;
    }
  }

  lemma {:induction false} ByEdgeHas(observations: seq<Observation>, edge: string)
    ensures edge in ByEdge(observations) <==> edge in EdgeIds(observations)
    ensures edge in ByEdge(observations) ==> ByEdge(observations)[edge] in observations
    ensures edge in ByEdge(observations) ==> ByEdge(observations)[edge].edgeId == edge
  {
    if observations != [] {
      var front, last := observations[..|observations| - 1], observations[|observations| - 1];
      ByEdgeHas(front, edge);
      assert observations == front + [last];
      EdgeIdsSnoc(front, last);
    }
  }

  lemma {:induction false} WithoutHas(ids: seq<string>, removed: seq<string>)
    ensures forall x :: x in Without(ids, removed) <==> x in ids && x !in removed
    ensures NoRepeat(ids) ==> NoRepeat(Without(ids, removed))
  {
    if ids != [] {
      WithoutHas(ids[..|ids| - 1], removed);
      assert ids == ids[..|ids| - 1] + [ids[|ids| - 1]];
    }
  }

  lemma SortedAreProvided(observations: seq<Observation>, ids: seq<string>)
    requires Subset(ids, EdgeIds(observations))
    ensures forall i :: 0 <= i < |SortBy(ById(), ids)| ==> SortBy(ById(), ids)[i] in ByEdge(observations)
  {
    SortElements(ById(), ids);
    forall i | 0 <= i < |SortBy(ById(), ids)| ensures SortBy(ById(), ids)[i] in ByEdge(observations) {
      ByEdgeHas(observations, SortBy(ById(), ids)[i]);
    }
  }

  // ---- the decision ----

  function ExclusionReason(op: Operation, o: Observation): string {
    if o.eligibilityReason.Some? then o.eligibilityReason.value else op.residualReason
  }

  function ExclusionRow(op: Operation, o: Observation): ExcludedRow {
    ExcludedRow(o.edgeId, ExclusionReason(op, o), [o.evidenceId])
  }

  function NoRankingRow(op: Operation, o: Observation): ExcludedRow {
    ExcludedRow(o.edgeId, op.noRankingReason, [o.evidenceId])
  }

  function ExclusionRows(op: Operation, provided: map<string, Observation>, ids: seq<string>): (r: seq<ExcludedRow>)
    requires forall i :: 0 <= i < |ids| ==> ids[i] in provided
  {
    seq(|ids|, i requires 0 <= i < |ids| => ExclusionRow(op, provided[ids[i]]))
  }

  function NoRankingRows(op: Operation, provided: map<string, Observation>, ids: seq<string>): (r: seq<ExcludedRow>)
    requires forall i :: 0 <= i < |ids| ==> ids[i] in provided
  {
    seq(|ids|, i requires 0 <= i < |ids| => NoRankingRow(op, provided[ids[i]]))
  }

  function Sealed(digests: Digests, unsealed: Decision): Decision {
    unsealed.(decisionContentId := DecisionIdFor(digests, unsealed))
  }

  function FailureDecision(digests: Digests, input: RoundInput, op: Operation, observations: seq<Observation>): Decision {
    var participants := SortBy(ById(), EdgeIds(observations));
    SortedAreProvided(observations, EdgeIds(observations));
    Sealed(digests, Decision(SCHEMA, input.inputContentId, input.inputContentId, input.basis, FAILURE, participants, [],
                             NoRankingRows(op, ByEdge(observations), participants), [],
                             [Points(NO_RANKING), Points(OPERATION_TAG + op.operationId)], "", NO_EFFECT))
  }

  function SuccessDecision(digests: Digests, input: RoundInput, op: Operation, observations: seq<Observation>): Decision
    requires Eligible(observations) != []
  {
    var included := IncludedIds(op, observations);
    var excludedIds := Without(EdgeIds(observations), included);
    WithoutHas(EdgeIds(observations), included);
    SortedAreProvided(observations, excludedIds);
    Sealed(digests, Decision(SCHEMA, input.inputContentId, input.inputContentId, input.basis, SUCCESS,
                             SortBy(ById(), EdgeIds(observations)), included,
                             ExclusionRows(op, ByEdge(observations), SortBy(ById(), excludedIds)),
                             SortBy(ResidualRank(ByEdge(observations), MeanOf(observations)), included),
                             [Points(OPERATION_TAG + op.operationId)], "", NO_EFFECT))
  }

  // The mean is read on the success branch alone, where at least one edge was eligible.
  function DecisionFor(digests: Digests, input: RoundInput, op: Operation, observations: seq<Observation>): Decision
    requires op.minimumParticipants >= 1
  {
    var included := IncludedIds(op, observations);
    if |included| < op.minimumParticipants then FailureDecision(digests, input, op, observations)
    else
      SortElements(ById(), EdgeIds(Kept(op, observations)));
      SuccessDecision(digests, input, op, observations)
  }

  function ObservationEvents(ids: seq<string>): seq<(string, string)> {
    seq(|ids|, i requires 0 <= i < |ids| => ("observation", ids[i]))
  }

  function EventsFor(op: Operation, observations: seq<Observation>): seq<(string, string)> {
    ObservationEvents(SortBy(ById(), EdgeIds(observations))) + [("operation", op.operationId)]
  }

  // The whole evaluation. An error is the code with which the decision record refuses the payload.
  function EvaluateSpec(digests: Digests, input: RoundInput, parameters: ParameterSet, contract: ContractValidation,
                        validation: ParameterValidation, operation: Option<Operation>,
                        observations: seq<Observation>): Result<Evaluation, Code>
    requires operation.Some? ==> ValidOperation(digests, operation.value)
  {
    var blocking := BlockingDiagnostics(contract, validation, operation, observations);
    var silent := Trace(input.inputContentId, parameters.parameterSetId, []);
    if blocking != [] then Ok(Blocked(SortedSet(blocking), silent))
    else
      var op := operation.value;
      var closure := ClosureDiagnostics(input, parameters, op, observations);
      if closure != [] then Ok(Blocked(SortedSet(closure), silent))
      else
        var decision := DecisionFor(digests, input, op, observations);
        match DecisionError(digests, decision)
        case Some(code) => Err(code)
        case None => Ok(Evaluated(decision, silent.(events := EventsFor(op, observations))))
  }

  // ---- what the lists hold ----

  lemma {:induction false} SelectHas(p: Observation -> bool, s: seq<Observation>)
    ensures forall o :: o in Select(p, s) <==> o in s && p(o)
    ensures forall e :: e in EdgeIds(Select(p, s)) ==> e in EdgeIds(s)
    ensures NoRepeat(EdgeIds(s)) ==> NoRepeat(EdgeIds(Select(p, s)))
  {
    if s != [] {
      hide NoRepeat, EdgeIds;
      var front, last := s[..|s| - 1], s[|s| - 1];
      SelectHas(p, front);
      assert s == front + [last];
      EdgeIdsSnoc(front, last);
      assert Select(p, front) + [] == Select(p, front);
      EdgeIdsSnoc(Select(p, front), last);
      NoRepeatSnoc(EdgeIds(front), last.edgeId);
      NoRepeatSnoc(EdgeIds(Select(p, front)), last.edgeId);
    } else {
      assert EdgeIds(Select(p, s)) == [];
    }
  }

  // Under distinct edges the lookup gives back every observation.
  lemma {:induction false} ByEdgeGives(observations: seq<Observation>, k: nat)
    requires NoRepeat(EdgeIds(observations)) && k < |observations|
    ensures observations[k].edgeId in ByEdge(observations)
    ensures ByEdge(observations)[observations[k].edgeId] == observations[k]
  {
    var n := |observations| - 1;
    if k < n {
      assert forall i :: 0 <= i < n ==> EdgeIds(observations[..n])[i] == EdgeIds(observations)[i];
      ByEdgeGives(observations[..n], k);
      assert EdgeIds(observations)[k] != EdgeIds(observations)[n];
    }
  }

  predicate Keeps(op: Operation, observations: seq<Observation>, o: Observation) {
    && o.eligibilityReason.None?
    && Eligible(observations) != []
    && Residual(MeanOf(observations), o) <= op.maxAbsResidual
  }

  lemma KeptHas(op: Operation, observations: seq<Observation>)
    ensures forall o :: o in Kept(op, observations) <==> o in observations && Keeps(op, observations, o)
    ensures NoRepeat(EdgeIds(observations)) ==> NoRepeat(EdgeIds(Kept(op, observations)))
  {
    SelectHas(IsEligible(), observations);
    if Eligible(observations) != [] {
      SelectHas(IsWithin(MeanOf(observations), op.maxAbsResidual), Eligible(observations));
    }
  }

  // The included edges are those whose observation is eligible and within the bound of the mean.
  lemma IncludedHas(op: Operation, observations: seq<Observation>, edge: string)
    requires NoRepeat(EdgeIds(observations))
    ensures edge in IncludedIds(op, observations)
       <==> edge in ByEdge(observations) && Keeps(op, observations, ByEdge(observations)[edge])
  {
    hide SortBy, NoRepeat, Keeps, Kept;
    var kept := Kept(op, observations);
    KeptHas(op, observations);
    SortElements(ById(), EdgeIds(kept));
    ByEdgeHas(observations, edge);
    if edge in EdgeIds(kept) {
      var i :| 0 <= i < |kept| && kept[i].edgeId == edge;
      assert kept[i] in observations;
      var k :| 0 <= k < |observations| && observations[k] == kept[i];
      ByEdgeGives(observations, k);
    }
    if edge in ByEdge(observations) && Keeps(op, observations, ByEdge(observations)[edge]) {
      var o := ByEdge(observations)[edge];
      assert o in kept;
      var i :| 0 <= i < |kept| && kept[i] == o;
      assert EdgeIds(kept)[i] == edge;
    }
  }

  lemma {:induction false} DistinctWhenAllStored(observations: seq<Observation>)
    ensures |ByEdge(observations)| <= |observations|
    ensures |ByEdge(observations)| == |observations| <==> NoRepeat(EdgeIds(observations))
  {
    if observations != [] {
      hide NoRepeat, EdgeIds;
      var front, last := observations[..|observations| - 1], observations[|observations| - 1];
      DistinctWhenAllStored(front);
      assert observations == front + [last];
      EdgeIdsSnoc(front, last);
      NoRepeatSnoc(EdgeIds(front), last.edgeId);
      ByEdgeHas(front, last.edgeId);
      if last.edgeId in ByEdge(front) {
        assert ByEdge(observations).Keys == ByEdge(front).Keys;
      } else {
        assert ByEdge(observations).Keys == ByEdge(front).Keys + {last.edgeId};
      }
      assert |ByEdge(observations)| == |ByEdge(observations).Keys| && |ByEdge(front)| == |ByEdge(front).Keys|;
    }
  }

  lemma {:induction false} RowByEdgeHas(rows: seq<InputRow>, edge: string)
    ensures edge in RowByEdge(rows) <==> edge in RowEdges(rows)
  {
    if rows != [] {
      RowByEdgeHas(rows[..|rows| - 1], edge);
      assert RowEdges(rows) == RowEdges(rows[..|rows| - 1]) + [rows[|rows| - 1].edgeId];
    }
  }

  // ---- the evaluation, step by step ----

  method IndexProjections(observations: seq<Observation>) returns (provided: map<string, Observation>)
    ensures provided == ByEdge(observations)
  {
    provided := map[];
    for i := 0 to |observations|
      invariant provided == ByEdge(observations[..i])
    {
      provided := provided[observations[i].edgeId := observations[i]];
      assert observations[..i + 1][..i] == observations[..i];
    }
    assert observations[..|observations|] == observations;
  }

  method IndexRows(input: RoundInput) returns (rows: map<string, InputRow>)
    ensures rows == RowByEdge(input.observations)
  {
    rows := map[];
    for i := 0 to |input.observations|
      invariant rows == RowByEdge(input.observations[..i])
    {
      rows := rows[input.observations[i].edgeId := input.observations[i]];
      assert input.observations[..i + 1][..i] == input.observations[..i];
    }
    assert input.observations[..|input.observations|] == input.observations;
  }

  // Every unbound projection adds the same diagnostic again.
  method BindingDiagnostics(rows: map<string, InputRow>, provided: map<string, Observation>, order: seq<string>)
    returns (diagnostics: seq<string>)
    requires forall edge :: edge in order <==> edge in provided
    ensures forall d :: d in diagnostics ==> d == PROJECTION_BINDING
    ensures diagnostics == [] <==> forall edge :: edge in provided ==> Bound(rows, provided[edge])
  {
    diagnostics := [];
    for i := 0 to |order|
      invariant forall d :: d in diagnostics ==> d == PROJECTION_BINDING
      invariant diagnostics != [] <==> exists k :: 0 <= k < i && !Bound(rows, provided[order[k]])
    {
      var projection := provided[order[i]];
      if projection.edgeId !in rows
         || rows[projection.edgeId].observationId != projection.observationId
         || rows[projection.edgeId].observationCanonicalHash != projection.observationCanonicalHash {
        diagnostics := diagnostics + [PROJECTION_BINDING];
      }
    }
  }

  method CheckClosure(input: RoundInput, parameters: ParameterSet, op: Operation, observations: seq<Observation>)
    returns (diagnostics: seq<string>)
    ensures SameElements(diagnostics, ClosureDiagnostics(input, parameters, op, observations))
  {
    hide ByEdge, RowByEdge, EdgeIds, ProjectionClosed, Bound, SameElements, NoRepeat;
    diagnostics := [];
    if parameters.comparisonBasisId != input.basis.basisId
       || parameters.profileId !in input.basis.profileIds
       || parameters.qualityPolicyId !in input.qualityPolicyIds
       || parameters.residualPolicyId != op.operationId
       || parameters.residualPolicyBytesHash != op.canonicalBytesHash
       || parameters.residualPolicyConformanceId != op.conformanceVectorHash {
      diagnostics := diagnostics + [OPERATION_PARAMETER_CLOSURE];
    }
    assert diagnostics == if ParametersNameOperation(input, parameters, op) then [] else [OPERATION_PARAMETER_CLOSURE];
    var rows := IndexRows(input);
    var provided := IndexProjections(observations);
    ClosedMeans(input, observations);
    if |provided| != |observations| || provided.Keys != rows.Keys {
      diagnostics := diagnostics + [PROJECTION_CLOSURE];
    }
    ghost var closed := diagnostics;
    assert closed == (if ParametersNameOperation(input, parameters, op) then [] else [OPERATION_PARAMETER_CLOSURE])
                     + (if ProjectionClosed(input, observations) then [] else [PROJECTION_CLOSURE]);
    var order := Dedup(EdgeIds(observations));
    forall edge ensures edge in order <==> edge in provided {
      ByEdgeHas(observations, edge);
    }
    var unbound := BindingDiagnostics(rows, provided, order);
    diagnostics := diagnostics + unbound;
    var eventCount := |observations| + 1;
    if eventCount > op.traceMaxEvents {
      diagnostics := diagnostics + [TRACE_BUDGET_EXCEEDED];
    }
    ghost var once := if ProjectionBound(input, observations) then [] else [PROJECTION_BINDING];
    ghost var budget := if |observations| + 1 <= op.traceMaxEvents then [] else [TRACE_BUDGET_EXCEEDED];
    RepeatsDoNotMatter(closed, unbound, once, budget);
    assert diagnostics == closed + unbound + budget;
    assert ClosureDiagnostics(input, parameters, op, observations) == closed + once + budget;
  }

  lemma RepeatsDoNotMatter(before: seq<string>, repeated: seq<string>, once: seq<string>, after: seq<string>)
    requires once == [] || once == [PROJECTION_BINDING]
    requires (repeated == [] <==> once == []) && forall d :: d in repeated ==> d == PROJECTION_BINDING
    ensures SameElements(before + repeated + after, before + once + after)
  {
    if repeated != [] {
      assert repeated[0] in repeated;
      assert SameElements(repeated, once);
    }
  }

  lemma ClosedMeans(input: RoundInput, observations: seq<Observation>)
    ensures ProjectionClosed(input, observations)
       <==> |ByEdge(observations)| == |observations| && ByEdge(observations).Keys == RowByEdge(input.observations).Keys
  {
    hide ByEdge, RowByEdge, EdgeIds, RowEdges, NoRepeat;
    DistinctWhenAllStored(observations);
    forall edge ensures edge in ByEdge(observations) <==> edge in EdgeIds(observations) {
      ByEdgeHas(observations, edge);
    }
    forall edge ensures edge in RowByEdge(input.observations) <==> edge in RowEdges(input.observations) {
      RowByEdgeHas(input.observations, edge);
    }
  }

  // sorted(set(...)) of the same diagnostics is the same list.
  lemma SortedSetOfSame(s: seq<string>, t: seq<string>)
    requires SameElements(s, t)
    ensures SortedSet(s) == SortedSet(t)
    ensures s == [] <==> t == []
  {
    SortIgnoresOrder(ById(), Dedup(s), Dedup(t));
    if s != [] {
      assert s[0] in s;
    }
    if t != [] {
      assert t[0] in t;
    }
  }

  // The exclusions as the evaluation accumulates them, a dictionary and its insertion order:
  // every ineligible edge, and the outliers found so far.
  ghost predicate Excludes(op: Operation, observations: seq<Observation>, outliers: seq<Observation>,
                           excluded: map<string, (string, string)>, order: seq<string>)
  {
    && NoRepeat(order)
    && (forall edge :: edge in order <==> edge in excluded)
    && (forall edge :: edge in excluded ==> edge in EdgeIds(observations))
    && (forall o :: o in observations ==> (o.edgeId in excluded <==> o.eligibilityReason.Some? || o in outliers))
    && (forall o :: o in observations && o.edgeId in excluded ==>
          excluded[o.edgeId] == (ExclusionReason(op, o), o.evidenceId))
  }

  lemma DistinctEdges(observations: seq<Observation>, a: Observation, b: Observation)
    requires NoRepeat(EdgeIds(observations)) && a in observations && b in observations && a.edgeId == b.edgeId
    ensures a == b
  {
    var i :| 0 <= i < |observations| && observations[i] == a;
    var j :| 0 <= j < |observations| && observations[j] == b;
    ByEdgeGives(observations, i);
    ByEdgeGives(observations, j);
  }

  lemma ExcludesOneMore(op: Operation, observations: seq<Observation>, outliers: seq<Observation>,
                        excluded: map<string, (string, string)>, order: seq<string>, o: Observation)
    requires NoRepeat(EdgeIds(observations)) && Excludes(op, observations, outliers, excluded, order)
    requires o in observations && o.eligibilityReason.None? && o !in outliers
    ensures Excludes(op, observations, outliers + [o], excluded[o.edgeId := (op.residualReason, o.evidenceId)],
                     order + [o.edgeId])
  {
    hide NoRepeat, EdgeIds;
    EdgeIdsSnoc(observations, o);
    NoRepeatSnoc(order, o.edgeId);
    forall b | b in observations && b.edgeId == o.edgeId ensures b == o {
      DistinctEdges(observations, b, o);
    }
  }

  method ExcludeIneligible(op: Operation, observations: seq<Observation>)
    returns (excluded: map<string, (string, string)>, order: seq<string>, eligible: seq<Observation>)
    requires NoRepeat(EdgeIds(observations))
    ensures eligible == Eligible(observations)
    ensures Excludes(op, observations, [], excluded, order)
  {
    excluded, order, eligible := map[], [], [];
    for i := 0 to |observations|
      invariant eligible == Eligible(observations[..i])
      invariant Excludes(op, observations[..i], [], excluded, order)
    {
      var o := observations[i];
      assert observations[..i + 1] == observations[..i] + [o];
      IneligibleOneMore(op, observations, i, excluded, order);
      match o.eligibilityReason
      case None =>
        eligible := eligible + [o];
      case Some(reason) =>
        excluded, order := excluded[o.edgeId := (reason, o.evidenceId)], order + [o.edgeId];
    }
    assert observations[..|observations|] == observations;
  }

  lemma IneligibleOneMore(op: Operation, observations: seq<Observation>, i: nat,
                          excluded: map<string, (string, string)>, order: seq<string>)
    requires NoRepeat(EdgeIds(observations)) && i < |observations|
    requires Excludes(op, observations[..i], [], excluded, order)
    ensures var o := observations[i];
            if o.eligibilityReason.None? then Excludes(op, observations[..i + 1], [], excluded, order)
            else Excludes(op, observations[..i + 1], [],
                          excluded[o.edgeId := (o.eligibilityReason.value, o.evidenceId)], order + [o.edgeId])
  {
    hide NoRepeat, EdgeIds;
    var before, o := observations[..i], observations[i];
    assert observations[..i + 1] == before + [o];
    EdgeIdsSnoc(before, o);
    NoRepeatSnoc(order, o.edgeId);
    assert o.edgeId !in EdgeIds(before) by {
      EdgesBefore(observations, i);
    }
  }

  lemma EdgesBefore(observations: seq<Observation>, i: nat)
    requires NoRepeat(EdgeIds(observations)) && i < |observations|
    ensures observations[i].edgeId !in EdgeIds(observations[..i])
  {
    forall k | 0 <= k < i ensures EdgeIds(observations[..i])[k] != observations[i].edgeId {
      assert EdgeIds(observations)[k] != EdgeIds(observations)[i];
    }
  }

  lemma NotSeenBefore(observations: seq<Observation>, i: nat)
    requires NoRepeat(EdgeIds(observations)) && i < |observations|
    ensures observations[i] !in observations[..i]
  {
    EdgesBefore(observations, i);
    EdgeIdsSnoc(observations[..i], observations[i]);
  }

  method MeanCurrent(eligible: seq<Observation>) returns (mean: real)
    requires eligible != []
    ensures mean == Mean(CurrentValue(), eligible)
  {
    var total := 0.0;
    for i := 0 to |eligible|
      invariant total == SumBy(CurrentValue(), eligible[..i])
    {
      total := total + eligible[i].currentValue;
      assert eligible[..i + 1][..i] == eligible[..i];
    }
    assert eligible[..|eligible|] == eligible;
    mean := total / |eligible| as real;
  }

  // Adds every eligible edge further than the bound from the mean.
  method ExcludeOutliers(op: Operation, observations: seq<Observation>, eligible: seq<Observation>, mean: real,
                         ineligible: map<string, (string, string)>, ineligibleOrder: seq<string>)
    returns (excluded: map<string, (string, string)>, order: seq<string>, ghost outliers: seq<Observation>)
    requires NoRepeat(EdgeIds(observations)) && eligible == Eligible(observations)
    requires Excludes(op, observations, [], ineligible, ineligibleOrder)
    ensures Excludes(op, observations, outliers, excluded, order)
    ensures forall o :: o in outliers <==> o in eligible && Residual(mean, o) > op.maxAbsResidual
    ensures forall o :: o in observations ==>
              (o.edgeId in excluded <==> o.eligibilityReason.Some? || Residual(mean, o) > op.maxAbsResidual)
              && (o.edgeId in excluded ==> excluded[o.edgeId] == (ExclusionReason(op, o), o.evidenceId))
  {
    hide Excludes, NoRepeat, EdgeIds, Select, ExclusionReason;
    excluded, order, outliers := ineligible, ineligibleOrder, [];
    SelectHas(IsEligible(), observations);
    for i := 0 to |eligible|
      invariant Excludes(op, observations, outliers, excluded, order)
      invariant forall o :: o in outliers <==> o in eligible[..i] && Residual(mean, o) > op.maxAbsResidual
    {
      var o := eligible[i];
      NotSeenBefore(eligible, i);
      assert eligible[..i + 1] == eligible[..i] + [o];
      if Abs(o.currentValue - mean) > op.maxAbsResidual {
        ExcludesOneMore(op, observations, outliers, excluded, order, o);
        excluded, order := excluded[o.edgeId := (op.residualReason, o.evidenceId)], order + [o.edgeId];
        outliers := outliers + [o];
      }
    }
    assert eligible[..|eligible|] == eligible;
    ExcludesMeans(op, observations, outliers, excluded, order);
  }

  lemma ExcludesMeans(op: Operation, observations: seq<Observation>, outliers: seq<Observation>,
                      excluded: map<string, (string, string)>, order: seq<string>)
    requires Excludes(op, observations, outliers, excluded, order)
    ensures forall o :: o in observations ==>
              (o.edgeId in excluded <==> o.eligibilityReason.Some? || o in outliers)
              && (o.edgeId in excluded ==> excluded[o.edgeId] == (ExclusionReason(op, o), o.evidenceId))
  {
  }

  predicate IsOutlierList(op: Operation, observations: seq<Observation>, outliers: seq<Observation>) {
    if Eligible(observations) == [] then outliers == []
    else
      && (forall o :: o in outliers ==> o in Eligible(observations) && Residual(MeanOf(observations), o) > op.maxAbsResidual)
      && (forall o :: o in Eligible(observations) && Residual(MeanOf(observations), o) > op.maxAbsResidual ==> o in outliers)
  }

  // An edge is excluded exactly when it is not included.
  lemma ExcludedIffNotIncluded(op: Operation, observations: seq<Observation>, outliers: seq<Observation>,
                               excluded: map<string, (string, string)>, order: seq<string>, edge: string)
    requires NoRepeat(EdgeIds(observations)) && Excludes(op, observations, outliers, excluded, order)
    requires IsOutlierList(op, observations, outliers)
    ensures edge in IncludedIds(op, observations) <==> edge in EdgeIds(observations) && edge !in excluded
    ensures edge in IncludedIds(op, observations) ==> edge in EdgeIds(Eligible(observations))
    ensures edge in EdgeIds(Eligible(observations)) ==> edge in EdgeIds(observations)
  {
    hide IncludedIds, NoRepeat, EdgeIds, Select, ExclusionReason;
    IncludedHas(op, observations, edge);
    ByEdgeHas(observations, edge);
    SelectHas(IsEligible(), observations);
    if edge in ByEdge(observations) {
      EdgeIdsSnoc(Eligible(observations), ByEdge(observations)[edge]);
    }
  }

  lemma IncludedAreTheRest(op: Operation, observations: seq<Observation>, outliers: seq<Observation>,
                           excluded: map<string, (string, string)>, order: seq<string>)
    requires NoRepeat(EdgeIds(observations)) && Excludes(op, observations, outliers, excluded, order)
    requires IsOutlierList(op, observations, outliers)
    ensures SortBy(ById(), Without(EdgeIds(Eligible(observations)), order)) == IncludedIds(op, observations)
    ensures SortBy(ById(), Without(EdgeIds(observations), IncludedIds(op, observations))) == SortBy(ById(), order)
  {
    hide SortBy, NoRepeat, EdgeIds, Without, Kept, Eligible, IsOutlierList;
    var rest := Without(EdgeIds(Eligible(observations)), order);
    var kept := EdgeIds(Kept(op, observations));
    WithoutHas(EdgeIds(Eligible(observations)), order);
    WithoutHas(EdgeIds(observations), IncludedIds(op, observations));
    EligibleDistinct(observations);
    KeptHas(op, observations);
    SortElements(ById(), kept);
    forall edge ensures (edge in IncludedIds(op, observations) <==> edge in EdgeIds(observations) && edge !in excluded)
                     && (edge in IncludedIds(op, observations) ==> edge in EdgeIds(Eligible(observations)))
                     && (edge in EdgeIds(Eligible(observations)) ==> edge in EdgeIds(observations)) {
      ExcludedIffNotIncluded(op, observations, outliers, excluded, order, edge);
    }
    SortIgnoresOrder(ById(), rest, kept);
    SortIgnoresOrder(ById(), Without(EdgeIds(observations), IncludedIds(op, observations)), order);
  }

  lemma EligibleDistinct(observations: seq<Observation>)
    requires NoRepeat(EdgeIds(observations))
    ensures NoRepeat(EdgeIds(Eligible(observations)))
  {
    SelectHas(IsEligible(), observations);
  }

  // The rows written from the dictionary are the specified ones.
  lemma RowsFromDictionary(op: Operation, observations: seq<Observation>, outliers: seq<Observation>,
                           excluded: map<string, (string, string)>, order: seq<string>, edge: string)
    requires NoRepeat(EdgeIds(observations)) && Excludes(op, observations, outliers, excluded, order)
    requires edge in order
    ensures edge in excluded && edge in ByEdge(observations)
    ensures ExcludedRow(edge, excluded[edge].0, [excluded[edge].1]) == ExclusionRow(op, ByEdge(observations)[edge])
  {
    hide NoRepeat, EdgeIds, ExclusionReason;
    ByEdgeHas(observations, edge);
  }

  method Decide(digests: Digests, input: RoundInput, op: Operation, observations: seq<Observation>,
                provided: map<string, Observation>) returns (decision: Decision, events: seq<(string, string)>)
    requires NoRepeat(EdgeIds(observations)) && op.minimumParticipants >= 1 && provided == ByEdge(observations)
    ensures decision == DecisionFor(digests, input, op, observations)
    ensures events == EventsFor(op, observations)
  {
    hide SortBy, NoRepeat, EdgeIds, Without, Excludes, Select, Kept, IncludedIds;
    var excluded, order, eligible := ExcludeIneligible(op, observations);
    ghost var outliers: seq<Observation> := [];
    var mean: Option<real> := None;
    if eligible != [] {
      var m := MeanCurrent(eligible);
      mean := Some(m);
      excluded, order, outliers := ExcludeOutliers(op, observations, eligible, m, excluded, order);
    }
    IncludedAreTheRest(op, observations, outliers, excluded, order);
    var included := SortBy(ById(), Without(EdgeIds(eligible), order));
    var participants := SortBy(ById(), EdgeIds(observations));
    events := ObservationEvents(participants) + [("operation", op.operationId)];
    SortedAreProvided(observations, EdgeIds(observations));
    var unsealed: Decision;
    if |included| < op.minimumParticipants {
      var rows := seq(|participants|, i requires 0 <= i < |participants| && participants[i] in provided =>
        ExcludedRow(participants[i], op.noRankingReason, [provided[participants[i]].evidenceId]));
      forall i | 0 <= i < |participants| ensures rows[i] == NoRankingRow(op, provided[participants[i]]) {
        ByEdgeHas(observations, participants[i]);
      }
      assert rows == NoRankingRows(op, provided, participants);
      unsealed := Decision(SCHEMA, input.inputContentId, input.inputContentId, input.basis, FAILURE, participants, [],
                           rows, [], [Points(NO_RANKING), Points(OPERATION_TAG + op.operationId)], "", NO_EFFECT);
    } else {
      SomethingIncluded(op, observations);
      var ranking := SortBy(ResidualRank(provided, mean.value), included);
      var excludedIds := SortBy(ById(), order);
      SortElements(ById(), order);
      forall i | 0 <= i < |excludedIds|
        ensures excludedIds[i] in excluded && excludedIds[i] in provided
        ensures ExcludedRow(excludedIds[i], excluded[excludedIds[i]].0, [excluded[excludedIds[i]].1])
             == ExclusionRow(op, provided[excludedIds[i]])
      {
        RowsFromDictionary(op, observations, outliers, excluded, order, excludedIds[i]);
      }
      var rows := seq(|excludedIds|, i requires 0 <= i < |excludedIds| && excludedIds[i] in excluded =>
        ExcludedRow(excludedIds[i], excluded[excludedIds[i]].0, [excluded[excludedIds[i]].1]));
      assert rows == ExclusionRows(op, provided, excludedIds);
      unsealed := Decision(SCHEMA, input.inputContentId, input.inputContentId, input.basis, SUCCESS, participants, included,
                           rows, ranking, [Points(OPERATION_TAG + op.operationId)], "", NO_EFFECT);
    }
    decision := unsealed.(decisionContentId := DecisionIdFor(digests, unsealed));
  }

  lemma SomethingIncluded(op: Operation, observations: seq<Observation>)
    requires |IncludedIds(op, observations)| >= 1
    ensures Eligible(observations) != []
  {
    SortElements(ById(), EdgeIds(Kept(op, observations)));
  }

  method EvaluateReference(digests: Digests, input: RoundInput, parameters: ParameterSet, contract: ContractValidation,
                           validation: ParameterValidation, operation: Option<Operation>,
                           observations: seq<Observation>) returns (r: Result<Evaluation, Code>)
    requires operation.Some? ==> ValidOperation(digests, operation.value)
    ensures r == EvaluateSpec(digests, input, parameters, contract, validation, operation, observations)
  {
    hide DecisionFor, DecisionError, ClosureDiagnostics, SortedSet, EventsFor;
    var diagnostics := contract.diagnostics;
    diagnostics := diagnostics + validation.violatedRules;
    if !contract.valid {
      diagnostics := diagnostics + [CONTRACT_BLOCKED];
    }
    if validation.status != "valid" {
      diagnostics := diagnostics + [PARAMETER_BLOCKED];
    }
    if operation.None? || observations == [] {
      diagnostics := diagnostics + [OPERATION_INPUT_UNAVAILABLE];
    }
    assert diagnostics == BlockingDiagnostics(contract, validation, operation, observations);
    if diagnostics != [] {
      return Ok(Blocked(SortedSet(diagnostics), Trace(input.inputContentId, parameters.parameterSetId, [])));
    }
    var op := operation.value;
    diagnostics := CheckClosure(input, parameters, op, observations);
    SortedSetOfSame(diagnostics, ClosureDiagnostics(input, parameters, op, observations));
    if diagnostics != [] {
      return Ok(Blocked(SortedSet(diagnostics), Trace(input.inputContentId, parameters.parameterSetId, [])));
    }
    OpenMeans(input, parameters, op, observations);
    var provided := IndexProjections(observations);
    var decision, events := Decide(digests, input, op, observations, provided);
    match DecisionError(digests, decision)
    case Some(code) =>
      return Err(code);
    case None =>
      return Ok(Evaluated(decision, Trace(input.inputContentId, parameters.parameterSetId, events)));
  }

  // What holds once nothing blocks.
  lemma OpenMeans(input: RoundInput, parameters: ParameterSet, op: Operation, observations: seq<Observation>)
    requires ClosureDiagnostics(input, parameters, op, observations) == []
    ensures ProjectionClosed(input, observations) && ProjectionBound(input, observations)
    ensures ParametersNameOperation(input, parameters, op)
    ensures |observations| + 1 <= op.traceMaxEvents
  {
  }
}
