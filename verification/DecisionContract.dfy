// The payload contracts of Consensus.v2: when a round input or a decision is acceptable,
// and which complaint comes first when it is not. Fields that may hold any text are lists of
// code points; all others are identifiers, or are compared with fixed words.
module DecisionContract {
  import opened Wrappers
  import opened Lists
  import opened SortedIds
  import opened Texts

  predicate IsHexDigit(c: char) {
    '0' <= c <= '9' || 'a' <= c <= 'f'
  }

  // "sha256:" followed by 64 lower-case hexadecimal digits.
  predicate IsImmutableId(id: string) {
    |id| == 71 && id[..7] == "sha256:" && forall i :: 7 <= i < |id| ==> IsHexDigit(id[i])
  }

  // The identifier made of one repeated digit.
  function IdOf(digit: char): (id: string)
    requires IsHexDigit(digit)
    ensures IsImmutableId(id)
  {
    "sha256:" + seq(64, i => digit)
  }

  lemma IdsDiffer(c: char, d: char)
    requires IsHexDigit(c) && IsHexDigit(d) && c != d
    ensures IdOf(c) != IdOf(d)
  {
    assert IdOf(c)[7] == c && IdOf(d)[7] == d;
  }

  type ImmutableId = id: string | IsImmutableId(id) witness IdOf('0')

  const SCHEMA := "Consensus.v2"
  const NO_EFFECT := "none"
  const RAW_CURRENT := "same_profile_raw_current"
  const RESIDUAL := "dimensionless_profile_residual"
  const SUCCESS := "success"
  const FAILURE := "failure"

  datatype Code =
    | BasisId | BasisVersion | BasisCanonicalBytes | BasisHash | BasisProfile | BasisUncertainty | BasisKind
    | RawCurrentClosure | ResidualClosure
    | ObservationId | ObservationHash | SourceSequence | RawCurrentUnit
    | InputVersion | InputId | QualityPolicyClosure | ParameterClosure | ObservationClosure | ObservationOrder
    | RawCurrentProfile | ResidualProfile | InputContentId | InputContentHash
    | DecisionVersion | DecisionInput | ParticipantClosure | IncludedClosure
    | ExclusionId | ExclusionReason | ExclusionEvidence | ExclusionClosure
    | Diagnostics | Outcome | RankingOrder | SuccessRanking | FailureNoRanking
    | DecisionContentId | DecisionContentHash

  datatype Basis = Basis(
    basisId: string, schemaVersion: seq<CodePoint>, canonicalBytes: string, canonicalBytesHash: string,
    kind: string, unit: string, profileIds: seq<string>, uncertaintyParameterIds: seq<string>)

  datatype InputRow = InputRow(
    edgeId: string, observationId: string, observationCanonicalHash: string, profileId: string,
    sourceSequence: int, correlationId: string, rawCurrentUnit: string)

  datatype RoundInput = RoundInput(
    schemaVersion: string, experimentId: string, runId: string, roundId: string, qualificationResultId: string,
    basis: Basis, qualityPolicyIds: seq<string>, parameterIds: seq<string>, observations: seq<InputRow>,
    inputContentId: string, authorizationEffect: string)

  datatype ExcludedRow = ExcludedRow(edgeId: string, reasonId: string, evidenceIds: seq<string>)

  datatype Decision = Decision(
    schemaVersion: string, roundInputId: string, roundInputHash: string, basis: Basis, outcome: string,
    participantIds: seq<string>, includedIds: seq<string>, excluded: seq<ExcludedRow>, ranking: seq<string>,
    diagnostics: seq<seq<CodePoint>>, decisionContentId: string, authorizationEffect: string)

  // How texts and payloads are digested. A payload's digest never covers its own content id.
  datatype Digests = Digests(text: string -> ImmutableId, input: RoundInput -> ImmutableId, decision: Decision -> ImmutableId)

  function InputIdFor(digests: Digests, input: RoundInput): ImmutableId {
    digests.input(input.(inputContentId := ""))
  }

  function DecisionIdFor(digests: Digests, decision: Decision): ImmutableId {
    digests.decision(decision.(decisionContentId := ""))
  }

  predicate AllImmutable(ids: seq<string>) {
    forall i :: 0 <= i < |ids| ==> IsImmutableId(ids[i])
  }

  // Immutable identifiers that sorting leaves alone and that do not repeat.
  predicate OrderedIds(ids: seq<string>) {
    AllImmutable(ids) && ids == SortBy(ById(), ids) && NoRepeat(ids)
  }

  lemma OrderedIdsIncrease(ids: seq<string>)
    ensures OrderedIds(ids) <==> AllImmutable(ids) && Increasing(ById(), ids)
  {
    hide IsImmutableId, SortBy;
    if NoRepeat(ids) {
      SortIncreasing(ById(), ids);
    }
    if Increasing(ById(), ids) {
      IncreasingNoRepeat(ById(), ids);
      SortIncreasing(ById(), ids);
      SortElements(ById(), ids);
      IncreasingIsUnique(ById(), ids, SortBy(ById(), ids));
    }
  }

  predicate IsAscii(s: string) {
    forall i :: 0 <= i < |s| ==> s[i] < 128 as char
  }

  predicate Subset(s: seq<string>, t: seq<string>) {
    forall x :: x in s ==> x in t
  }

  predicate SameElements(s: seq<string>, t: seq<string>) {
    Subset(s, t) && Subset(t, s)
  }

  function BasisError(digests: Digests, b: Basis): Option<Code> {
    if !IsImmutableId(b.basisId) then Some(BasisId)
    else if b.schemaVersion == [] then Some(BasisVersion)
    else if !IsAscii(b.canonicalBytes) then Some(BasisCanonicalBytes)
    else if b.canonicalBytesHash != digests.text(b.canonicalBytes) then Some(BasisHash)
    else if b.profileIds == [] || !OrderedIds(b.profileIds) then Some(BasisProfile)
    else if !OrderedIds(b.uncertaintyParameterIds) then Some(BasisUncertainty)
    else if b.kind != RAW_CURRENT && b.kind != RESIDUAL then Some(BasisKind)
    else if b.kind == RAW_CURRENT && (b.unit != "mA" || |b.profileIds| != 1 || b.uncertaintyParameterIds != [])
    then Some(RawCurrentClosure)
    else if b.kind == RESIDUAL && (b.unit != "one" || |b.profileIds| < 2 || b.uncertaintyParameterIds == [])
    then Some(ResidualClosure)
    else None
  }

  function RowError(row: InputRow): Option<Code> {
    if !AllImmutable([row.edgeId, row.observationId, row.profileId, row.correlationId]) then Some(ObservationId)
    else if !IsImmutableId(row.observationCanonicalHash) then Some(ObservationHash)
    else if row.sourceSequence <= 0 then Some(SourceSequence)
    else if row.rawCurrentUnit != "mA" then Some(RawCurrentUnit)
    else None
  }

  function RowsError(rows: seq<InputRow>): (r: Option<Code>)
    ensures r == None <==> forall i :: 0 <= i < |rows| ==> RowError(rows[i]) == None
  {
    if rows == [] then None
    else
      var earlier := RowsError(rows[..|rows| - 1]);
      if earlier.Some? then earlier else RowError(rows[|rows| - 1])
  }

  // Python's order on (edge_id, source_sequence, observation_id).
  predicate RowLess(a: InputRow, b: InputRow) {
    StrLess(a.edgeId, b.edgeId)
    || (a.edgeId == b.edgeId
        && (a.sourceSequence < b.sourceSequence
            || (a.sourceSequence == b.sourceSequence && StrLess(a.observationId, b.observationId))))
  }

  predicate RowsInOrder(rows: seq<InputRow>) {
    && (forall i, j :: 0 <= i < j < |rows| ==> !RowLess(rows[j], rows[i]))
    && (forall i, j :: 0 <= i < j < |rows| ==> rows[i].edgeId != rows[j].edgeId)
  }

  function ProfilesOf(rows: seq<InputRow>): seq<string> {
    seq(|rows|, i requires 0 <= i < |rows| => rows[i].profileId)
  }

  function InputError(digests: Digests, p: RoundInput): Option<Code> {
    if p.schemaVersion != SCHEMA || p.authorizationEffect != NO_EFFECT then Some(InputVersion)
    else if !AllImmutable([p.experimentId, p.runId, p.roundId, p.qualificationResultId]) then Some(InputId)
    else
      var basis := BasisError(digests, p.basis);
      if basis.Some? then basis
      else if p.qualityPolicyIds == [] || !OrderedIds(p.qualityPolicyIds) then Some(QualityPolicyClosure)
      else if !OrderedIds(p.parameterIds) then Some(ParameterClosure)
      else
        var rows := RowsError(p.observations);
        if rows.Some? then rows
        else if p.observations == [] then Some(ObservationClosure)
        else if !RowsInOrder(p.observations) then Some(ObservationOrder)
        else if p.basis.kind == RAW_CURRENT && !Subset(ProfilesOf(p.observations), p.basis.profileIds[..1])
        then Some(RawCurrentProfile)
        else if p.basis.kind == RESIDUAL && !Subset(ProfilesOf(p.observations), p.basis.profileIds)
        then Some(ResidualProfile)
        else if !Subset(p.basis.uncertaintyParameterIds, p.parameterIds) then Some(ParameterClosure)
        else if !IsImmutableId(p.inputContentId) then Some(InputContentId)
        else if p.inputContentId != InputIdFor(digests, p) then Some(InputContentHash)
        else None
  }

  function ExcludedRowError(row: ExcludedRow): Option<Code> {
    if !IsImmutableId(row.edgeId) then Some(ExclusionId)
    else if !IsImmutableId(row.reasonId) then Some(ExclusionReason)
    else if row.evidenceIds == [] || !OrderedIds(row.evidenceIds) then Some(ExclusionEvidence)
    else None
  }

  function ExcludedRowsError(rows: seq<ExcludedRow>): (r: Option<Code>)
    ensures r == None <==> forall i :: 0 <= i < |rows| ==> ExcludedRowError(rows[i]) == None
  {
    if rows == [] then None
    else
      var earlier := ExcludedRowsError(rows[..|rows| - 1]);
      if earlier.Some? then earlier else ExcludedRowError(rows[|rows| - 1])
  }

  function EdgesOf(rows: seq<ExcludedRow>): seq<string> {
    seq(|rows|, i requires 0 <= i < |rows| => rows[i].edgeId)
  }

  // The loop over the exclusion rows stops at the first complaint and collects the edges.
  method CheckExcludedRows(rows: seq<ExcludedRow>) returns (r: Result<seq<string>, Code>)
    ensures r == match ExcludedRowsError(rows) case Some(code) => Err(code) case None => Ok(EdgesOf(rows))
  {
    var edges: seq<string> := [];
    for i := 0 to |rows|
      invariant ExcludedRowsError(rows[..i]) == None
      invariant edges == EdgesOf(rows[..i])
    {
      assert rows[..i + 1][..i] == rows[..i];
      var complaint := ExcludedRowError(rows[i]);
      if complaint.Some? {
        FirstComplaintStays(rows, i + 1);
        return Err(complaint.value);
      }
      edges := edges + [rows[i].edgeId];
    }
    assert rows[..|rows|] == rows;
    return Ok(edges);
  }

  lemma {:induction false} FirstComplaintStays(rows: seq<ExcludedRow>, k: nat)
    requires k <= |rows| && ExcludedRowsError(rows[..k]).Some?
    ensures ExcludedRowsError(rows) == ExcludedRowsError(rows[..k])
    decreases |rows| - k
  {
    if k == |rows| {
      assert rows[..k] == rows;
    } else {
      assert rows[..k + 1][..k] == rows[..k];
      FirstComplaintStays(rows, k + 1);
    }
  }

  // Excluded and included edges split the participants, and the excluded ones are sorted.
  predicate Splits(participants: seq<string>, included: seq<string>, excluded: seq<string>) {
    && excluded == SortBy(ById(), excluded) && NoRepeat(excluded)
    && SameElements(excluded + included, participants)
    && (forall x :: x in excluded ==> x !in included)
  }

  function DecisionError(digests: Digests, p: Decision): Option<Code> {
    if p.schemaVersion != SCHEMA || p.authorizationEffect != NO_EFFECT then Some(DecisionVersion)
    else if !IsImmutableId(p.roundInputId) || !IsImmutableId(p.roundInputHash) then Some(DecisionInput)
    else
      var basis := BasisError(digests, p.basis);
      if basis.Some? then basis
      else if p.participantIds == [] || !OrderedIds(p.participantIds) then Some(ParticipantClosure)
      else if !OrderedIds(p.includedIds) || !Subset(p.includedIds, p.participantIds) then Some(IncludedClosure)
      else
        var rows := ExcludedRowsError(p.excluded);
        if rows.Some? then rows
        else if !Splits(p.participantIds, p.includedIds, EdgesOf(p.excluded)) then Some(ExclusionClosure)
        else if [] in p.diagnostics then Some(Diagnostics)
        else if p.outcome != SUCCESS && p.outcome != FAILURE then Some(Outcome)
        else if !OrderedIds(p.ranking) then Some(RankingOrder)
        else if p.outcome == SUCCESS && (!SameElements(p.ranking, p.includedIds) || p.ranking == [])
        then Some(SuccessRanking)
        else if p.outcome == FAILURE && (p.ranking != [] || p.includedIds != []) then Some(FailureNoRanking)
        else if !IsImmutableId(p.decisionContentId) then Some(DecisionContentId)
        else if p.decisionContentId != DecisionIdFor(digests, p) then Some(DecisionContentHash)
        else None
  }

  // On an accepted success the published ranking is nothing more than the included edges again.
  lemma AcceptedRankingIsIncluded(digests: Digests, p: Decision)
    requires DecisionError(digests, p) == None
    ensures p.ranking == p.includedIds
  {
    hide IsImmutableId, SortBy, BasisError, ExcludedRowsError, Splits;
    if p.outcome == SUCCESS {
      OrderedIdsIncrease(p.ranking);
      OrderedIdsIncrease(p.includedIds);
      IncreasingIsUnique(ById(), p.ranking, p.includedIds);
    }
  }
}
