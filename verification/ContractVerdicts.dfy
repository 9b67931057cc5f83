// Which complaint the Consensus.v2 contracts raise: the first fault of a payload, in the order of the checks.
module ContractVerdicts {
  import opened Wrappers
  import opened Lists
  import opened SortedIds
  import opened DecisionContract

  // ---- identifiers ----

  ghost predicate IsHex(s: string) {
    forall i :: 0 <= i < |s| ==> s[i] in "0123456789abcdef"
  }

  // An identifier is the word "sha256:" before 64 hexadecimal digits in lower case.
  lemma ImmutableIdIs(id: string)
    ensures IsImmutableId(id) <==> exists hex :: |hex| == 64 && IsHex(hex) && id == "sha256:" + hex
  {
    HexDigitIs();
    if IsImmutableId(id) {
      assert id == id[..7] + id[7..];
      assert IsHex(id[7..]);
    }
    forall hex | |hex| == 64 && IsHex(hex) && id == "sha256:" + hex ensures IsImmutableId(id) {
      assert id[..7] == "sha256:";
      assert forall i :: 7 <= i < |id| ==> id[i] == hex[i - 7];
    }
  }

  lemma HexDigitIs()
    ensures forall c: char :: IsHexDigit(c) <==> c in "0123456789abcdef"
  {
    var digits := "0123456789abcdef";
    forall c: char | IsHexDigit(c) ensures c in digits {
      var k := if c <= '9' then c as int - '0' as int else c as int - 'a' as int + 10;
      assert digits[k] == c;
    }
  }

  // Identifiers in strictly ascending order.
  ghost predicate IdList(ids: seq<string>) {
    (forall i :: 0 <= i < |ids| ==> IsImmutableId(ids[i])) && Ascending(ids)
  }

  lemma OrderedIdsAre(ids: seq<string>)
    ensures OrderedIds(ids) <==> IdList(ids)
  {
    hide IsImmutableId, OrderedIds, Increasing, Ascending;
    OrderedIdsIncrease(ids);
    IncreasingMeans(ids);
  }

  // ---- the basis ----

  // What each complaint about a basis says.
  ghost predicate BasisViolates(digests: Digests, b: Basis, code: Code) {
    match code
    case BasisId => !IsImmutableId(b.basisId)
    case BasisVersion => b.schemaVersion == []
    case BasisCanonicalBytes => exists i :: 0 <= i < |b.canonicalBytes| && b.canonicalBytes[i] >= 128 as char
    case BasisHash => b.canonicalBytesHash != digests.text(b.canonicalBytes)
    case BasisProfile => b.profileIds == [] || !IdList(b.profileIds)
    case BasisUncertainty => !IdList(b.uncertaintyParameterIds)
    case BasisKind => b.kind != "same_profile_raw_current" && b.kind != "dimensionless_profile_residual"
    case RawCurrentClosure =>
      b.kind == "same_profile_raw_current" && (b.unit != "mA" || |b.profileIds| != 1 || b.uncertaintyParameterIds != [])
    case ResidualClosure =>
      b.kind == "dimensionless_profile_residual" && (b.unit != "one" || |b.profileIds| < 2 || b.uncertaintyParameterIds == [])
    case _ => false
  }

  // The order of the checks.
  function BasisRank(code: Code): int {
    match code
    case BasisId => 0
    case BasisVersion => 1
    case BasisCanonicalBytes => 2
    case BasisHash => 3
    case BasisProfile => 4
    case BasisUncertainty => 5
    case BasisKind => 6
    case RawCurrentClosure => 7
    case ResidualClosure => 8
    case _ => 9
  }

  // A basis passes exactly when it violates nothing, and is otherwise refused for its first violation.
  lemma BasisReports(digests: Digests, b: Basis)
    ensures BasisError(digests, b) == None <==> forall code :: !BasisViolates(digests, b, code)
    ensures BasisError(digests, b).Some? ==>
              var code := BasisError(digests, b).value;
              && BasisViolates(digests, b, code)
              && forall earlier :: BasisRank(earlier) < BasisRank(code) ==> !BasisViolates(digests, b, earlier)
  {
    hide IsImmutableId, OrderedIds, IdList;
    OrderedIdsAre(b.profileIds);
    OrderedIdsAre(b.uncertaintyParameterIds);
    KindsDiffer();
    if BasisError(digests, b) == None {
      forall code ensures !BasisViolates(digests, b, code) {
      }
    } else {
      var code := BasisError(digests, b).value;
      assert BasisViolates(digests, b, code);
      forall earlier | BasisRank(earlier) < BasisRank(code) ensures !BasisViolates(digests, b, earlier) {
      }
    }
  }

  lemma KindsDiffer()
    ensures RAW_CURRENT != RESIDUAL && SUCCESS != FAILURE
  {
    assert RAW_CURRENT[0] == 's' && RESIDUAL[0] == 'd' && SUCCESS[0] == 's' && FAILURE[0] == 'f';
  }

  // ---- the rows ----

  ghost predicate RowViolates(row: InputRow, code: Code) {
    match code
    case ObservationId =>
      || !IsImmutableId(row.edgeId) || !IsImmutableId(row.observationId) || !IsImmutableId(row.profileId)
      || !IsImmutableId(row.correlationId)
    case ObservationHash => !IsImmutableId(row.observationCanonicalHash)
    case SourceSequence => row.sourceSequence <= 0
    case RawCurrentUnit => row.rawCurrentUnit != "mA"
    case _ => false
  }

  function RowRank(code: Code): int {
    match code
    case ObservationId => 0
    case ObservationHash => 1
    case SourceSequence => 2
    case RawCurrentUnit => 3
    case _ => 4
  }

  lemma RowReports(row: InputRow)
    ensures RowError(row) == None <==> forall code :: !RowViolates(row, code)
    ensures RowError(row).Some? ==>
              var code := RowError(row).value;
              RowViolates(row, code) && forall earlier :: RowRank(earlier) < RowRank(code) ==> !RowViolates(row, earlier)
  {
    hide IsImmutableId;
    var ids := [row.edgeId, row.observationId, row.profileId, row.correlationId];
    assert AllImmutable(ids) <==> IsImmutableId(ids[0]) && IsImmutableId(ids[1]) && IsImmutableId(ids[2]) && IsImmutableId(ids[3]);
    if RowError(row).Some? {
      assert RowViolates(row, RowError(row).value);
    }
  }

  // The complaint about some rows is the complaint about the first row that has one.
  ghost predicate RowsViolate(rows: seq<InputRow>, code: Code) {
    exists k :: 0 <= k < |rows| && RowError(rows[k]) == Some(code) && forall j :: 0 <= j < k ==> RowError(rows[j]) == None
  }

  lemma {:induction false} RowsReport(rows: seq<InputRow>)
    ensures RowsError(rows).Some? ==> RowsViolate(rows, RowsError(rows).value)
    ensures forall code :: RowsViolate(rows, code) ==> RowsError(rows) == Some(code)
  {
    hide RowError;
    if rows != [] {
      var n := |rows| - 1;
      RowsReport(rows[..n]);
      if RowsError(rows[..n]).Some? {
        var code := RowsError(rows[..n]).value;
        var k :| 0 <= k < n && RowError(rows[..n][k]) == Some(code) && forall j :: 0 <= j < k ==> RowError(rows[..n][j]) == None;
        assert forall j :: 0 <= j < k ==> rows[j] == rows[..n][j];
        assert RowError(rows[k]) == Some(code);
      } else {
        assert forall j :: 0 <= j < n ==> RowError(rows[..n][j]) == None;
        assert forall j :: 0 <= j < n ==> rows[j] == rows[..n][j];
      }
    }
  }

  ghost predicate ExcludedRowViolates(row: ExcludedRow, code: Code) {
    match code
    case ExclusionId => !IsImmutableId(row.edgeId)
    case ExclusionReason => !IsImmutableId(row.reasonId)
    case ExclusionEvidence => row.evidenceIds == [] || !IdList(row.evidenceIds)
    case _ => false
  }

  function ExcludedRowRank(code: Code): int {
    match code
    case ExclusionId => 0
    case ExclusionReason => 1
    case ExclusionEvidence => 2
    case _ => 3
  }

  lemma ExcludedRowReports(row: ExcludedRow)
    ensures ExcludedRowError(row) == None <==> forall code :: !ExcludedRowViolates(row, code)
    ensures ExcludedRowError(row).Some? ==>
              var code := ExcludedRowError(row).value;
              && ExcludedRowViolates(row, code)
              && forall earlier :: ExcludedRowRank(earlier) < ExcludedRowRank(code) ==> !ExcludedRowViolates(row, earlier)
  {
    hide IsImmutableId, OrderedIds, IdList;
    OrderedIdsAre(row.evidenceIds);
    if ExcludedRowError(row).Some? {
      assert ExcludedRowViolates(row, ExcludedRowError(row).value);
    }
  }

  ghost predicate ExcludedRowsViolate(rows: seq<ExcludedRow>, code: Code) {
    exists k :: 0 <= k < |rows| && ExcludedRowError(rows[k]) == Some(code)
      && forall j :: 0 <= j < k ==> ExcludedRowError(rows[j]) == None
  }

  lemma {:induction false} ExcludedRowsReport(rows: seq<ExcludedRow>)
    ensures ExcludedRowsError(rows).Some? ==> ExcludedRowsViolate(rows, ExcludedRowsError(rows).value)
    ensures forall code :: ExcludedRowsViolate(rows, code) ==> ExcludedRowsError(rows) == Some(code)
  {
    hide ExcludedRowError;
    if rows != [] {
      var n := |rows| - 1;
      ExcludedRowsReport(rows[..n]);
      if ExcludedRowsError(rows[..n]).Some? {
        var code := ExcludedRowsError(rows[..n]).value;
        var k :| 0 <= k < n && ExcludedRowError(rows[..n][k]) == Some(code)
                 && forall j :: 0 <= j < k ==> ExcludedRowError(rows[..n][j]) == None;
        assert forall j :: 0 <= j < k ==> rows[j] == rows[..n][j];
        assert ExcludedRowError(rows[k]) == Some(code);
      } else {
        assert forall j :: 0 <= j < n ==> ExcludedRowError(rows[..n][j]) == None;
        assert forall j :: 0 <= j < n ==> rows[j] == rows[..n][j];
      }
    }
  }

  // ---- the round input ----

  ghost predicate IsBasisCode(code: Code) {
    || code.BasisId? || code.BasisVersion? || code.BasisCanonicalBytes? || code.BasisHash? || code.BasisProfile?
    || code.BasisUncertainty? || code.BasisKind? || code.RawCurrentClosure? || code.ResidualClosure?
  }

  ghost predicate IsRowCode(code: Code) {
    code.ObservationId? || code.ObservationHash? || code.SourceSequence? || code.RawCurrentUnit?
  }

  // A complaint about the basis or about the rows is theirs; the others are these.
  ghost predicate InputViolates(digests: Digests, p: RoundInput, code: Code) {
    if IsBasisCode(code) then BasisError(digests, p.basis) == Some(code)
    else if IsRowCode(code) then RowsViolate(p.observations, code)
    else match code
      case InputVersion => p.schemaVersion != "Consensus.v2" || p.authorizationEffect != "none"
      case InputId =>
        || !IsImmutableId(p.experimentId) || !IsImmutableId(p.runId) || !IsImmutableId(p.roundId)
        || !IsImmutableId(p.qualificationResultId)
      case QualityPolicyClosure => p.qualityPolicyIds == [] || !IdList(p.qualityPolicyIds)
      case ParameterClosure => !IdList(p.parameterIds) || exists x :: x in p.basis.uncertaintyParameterIds && x !in p.parameterIds
      case ObservationClosure => p.observations == []
      case ObservationOrder =>
        exists i, j :: 0 <= i < j < |p.observations| && !ComesBefore(p.observations[i].edgeId, p.observations[j].edgeId)
      case RawCurrentProfile =>
        && p.basis.kind == "same_profile_raw_current"
        && exists i :: 0 <= i < |p.observations| && [p.observations[i].profileId] != p.basis.profileIds
      case ResidualProfile =>
        && p.basis.kind == "dimensionless_profile_residual"
        && exists i :: 0 <= i < |p.observations| && p.observations[i].profileId !in p.basis.profileIds
      case InputContentId => !IsImmutableId(p.inputContentId)
      case InputContentHash => p.inputContentId != digests.input(p.(inputContentId := ""))
      case _ => false
  }

  // The parameters are looked at twice: by themselves, and last but the content id against the basis.
  ghost function InputRank(p: RoundInput, code: Code): int {
    if IsBasisCode(code) then 2
    else if IsRowCode(code) then 5
    else match code
      case InputVersion => 0
      case InputId => 1
      case QualityPolicyClosure => 3
      case ParameterClosure => if IdList(p.parameterIds) then 10 else 4
      case ObservationClosure => 6
      case ObservationOrder => 7
      case RawCurrentProfile => 8
      case ResidualProfile => 9
      case InputContentId => 11
      case InputContentHash => 12
      case _ => 13
  }

  lemma RowOrderIs(rows: seq<InputRow>)
    ensures RowsInOrder(rows) <==> forall i, j :: 0 <= i < j < |rows| ==> ComesBefore(rows[i].edgeId, rows[j].edgeId)
  {
    hide ComesBefore, StrLess;
    forall i, j | 0 <= i < j < |rows|
      ensures !RowLess(rows[j], rows[i]) && rows[i].edgeId != rows[j].edgeId <==> ComesBefore(rows[i].edgeId, rows[j].edgeId)
    {
      StrLessIsOrder(rows[i].edgeId, rows[j].edgeId, rows[i].edgeId);
      StrLessMeans(rows[i].edgeId, rows[j].edgeId);
    }
  }

  lemma SubsetOfProfiles(rows: seq<InputRow>, ids: seq<string>)
    ensures Subset(ProfilesOf(rows), ids) <==> forall i :: 0 <= i < |rows| ==> rows[i].profileId in ids
  {
    var profiles := ProfilesOf(rows);
    assert forall i :: 0 <= i < |rows| ==> profiles[i] == rows[i].profileId && profiles[i] in profiles;
  }

  lemma ProfilesAre(p: RoundInput)
    ensures Subset(ProfilesOf(p.observations), p.basis.profileIds)
       <==> forall i :: 0 <= i < |p.observations| ==> p.observations[i].profileId in p.basis.profileIds
    ensures |p.basis.profileIds| == 1 ==>
              (Subset(ProfilesOf(p.observations), p.basis.profileIds[..1])
               <==> forall i :: 0 <= i < |p.observations| ==> [p.observations[i].profileId] == p.basis.profileIds)
  {
    var ids := p.basis.profileIds;
    SubsetOfProfiles(p.observations, ids);
    if |ids| == 1 {
      assert ids == [ids[0]] == ids[..1];
      assert forall x :: x in ids <==> [x] == ids;
    }
  }

  // A round input is accepted exactly when it violates nothing, and is otherwise refused for its first violation.
  lemma InputReports(digests: Digests, p: RoundInput)
    ensures InputError(digests, p) == None <==> forall code :: !InputViolates(digests, p, code)
    ensures InputError(digests, p).Some? ==>
              var code := InputError(digests, p).value;
              && InputViolates(digests, p, code)
              && forall earlier :: InputRank(p, earlier) < InputRank(p, code) ==> !InputViolates(digests, p, earlier)
  {
    hide InputError, InputViolates, InputRank;
    InputAccepted(digests, p);
    if InputError(digests, p).Some? {
      InputRefused(digests, p);
    }
  }

  // The conditions the contract tests are these violations.
  lemma InputConditions(digests: Digests, p: RoundInput)
    ensures p.schemaVersion != SCHEMA || p.authorizationEffect != NO_EFFECT <==> InputViolates(digests, p, InputVersion)
    ensures !AllImmutable([p.experimentId, p.runId, p.roundId, p.qualificationResultId]) <==> InputViolates(digests, p, InputId)
    ensures p.qualityPolicyIds == [] || !OrderedIds(p.qualityPolicyIds) <==> InputViolates(digests, p, QualityPolicyClosure)
    ensures !OrderedIds(p.parameterIds) || !Subset(p.basis.uncertaintyParameterIds, p.parameterIds)
       <==> InputViolates(digests, p, ParameterClosure)
    ensures OrderedIds(p.parameterIds) <==> IdList(p.parameterIds)
  {
    hide IsImmutableId, OrderedIds, IdList;
    OrderedIdsAre(p.qualityPolicyIds);
    OrderedIdsAre(p.parameterIds);
    FourIds([p.experimentId, p.runId, p.roundId, p.qualificationResultId]);
  }

  lemma ObservationConditions(digests: Digests, p: RoundInput)
    ensures p.observations == [] <==> InputViolates(digests, p, ObservationClosure)
    ensures !RowsInOrder(p.observations) <==> InputViolates(digests, p, ObservationOrder)
  {
    hide RowsInOrder, ComesBefore;
    RowOrderIs(p.observations);
  }

  lemma RawCurrentConditions(digests: Digests, p: RoundInput)
    ensures |p.basis.profileIds| == 1 ==>
              (p.basis.kind == RAW_CURRENT && !Subset(ProfilesOf(p.observations), p.basis.profileIds[..1])
               <==> InputViolates(digests, p, RawCurrentProfile))
    ensures p.basis.kind != RAW_CURRENT ==> !InputViolates(digests, p, RawCurrentProfile)
  {
    hide ProfilesOf, Subset, RESIDUAL;
    ProfilesAre(p);
  }

  lemma ResidualConditions(digests: Digests, p: RoundInput)
    ensures p.basis.kind == RESIDUAL && !Subset(ProfilesOf(p.observations), p.basis.profileIds)
       <==> InputViolates(digests, p, ResidualProfile)
  {
    hide ProfilesOf, Subset, RAW_CURRENT;
    ProfilesAre(p);
  }

  lemma InputIdConditions(digests: Digests, p: RoundInput)
    ensures !IsImmutableId(p.inputContentId) <==> InputViolates(digests, p, InputContentId)
    ensures p.inputContentId != InputIdFor(digests, p) <==> InputViolates(digests, p, InputContentHash)
  {
    hide IsImmutableId;
  }

  lemma InputOtherConditions(digests: Digests, p: RoundInput)
    ensures forall code :: IsBasisCode(code) ==> (InputViolates(digests, p, code) <==> BasisError(digests, p.basis) == Some(code))
    ensures forall code :: IsRowCode(code) ==> (InputViolates(digests, p, code) <==> RowsError(p.observations) == Some(code))
    ensures BasisError(digests, p.basis).Some? ==> IsBasisCode(BasisError(digests, p.basis).value)
    ensures RowsError(p.observations).Some? ==> IsRowCode(RowsError(p.observations).value)
    ensures BasisError(digests, p.basis) == None && p.basis.kind == RAW_CURRENT ==> |p.basis.profileIds| == 1
    ensures forall code :: InputRank(p, code) == 13 ==> !InputViolates(digests, p, code)
  {
    hide IsImmutableId, IdList, BasisError, RowsError, RowsViolate, ComesBefore;
    RowsReport(p.observations);
    RowsComplain(p.observations);
    BasisComplains(digests, p.basis);
  }

  lemma InputAccepted(digests: Digests, p: RoundInput)
    ensures InputError(digests, p) == None <==> forall code :: !InputViolates(digests, p, code)
  {
    hide InputViolates, AllImmutable, IsImmutableId, OrderedIds, IdList, BasisError, RowsError, RowsInOrder, ProfilesOf, Subset,
         InputIdFor, SCHEMA, NO_EFFECT, RAW_CURRENT, RESIDUAL;
    InputConditions(digests, p);
    ObservationConditions(digests, p);
    RawCurrentConditions(digests, p);
    ResidualConditions(digests, p);
    InputIdConditions(digests, p);
    InputOtherConditions(digests, p);
    if InputError(digests, p).Some? {
      assert InputViolates(digests, p, InputError(digests, p).value);
    }
  }

  lemma InputRefused(digests: Digests, p: RoundInput)
    requires InputError(digests, p).Some?
    ensures var code := InputError(digests, p).value;
            && InputViolates(digests, p, code)
            && forall earlier :: InputRank(p, earlier) < InputRank(p, code) ==> !InputViolates(digests, p, earlier)
  {
    hide InputViolates, AllImmutable, IsImmutableId, OrderedIds, IdList, BasisError, RowsError, RowsInOrder, ProfilesOf, Subset,
         InputIdFor, SCHEMA, NO_EFFECT, RAW_CURRENT, RESIDUAL;
    InputConditions(digests, p);
    ObservationConditions(digests, p);
    RawCurrentConditions(digests, p);
    ResidualConditions(digests, p);
    InputIdConditions(digests, p);
    InputOtherConditions(digests, p);
  }

  lemma FourIds(ids: seq<string>)
    requires |ids| == 4
    ensures AllImmutable(ids)
       <==> IsImmutableId(ids[0]) && IsImmutableId(ids[1]) && IsImmutableId(ids[2]) && IsImmutableId(ids[3])
  {
    hide IsImmutableId;
  }

  lemma BasisComplains(digests: Digests, b: Basis)
    ensures BasisError(digests, b).Some? ==> IsBasisCode(BasisError(digests, b).value)
    ensures BasisError(digests, b) == None && b.kind == "same_profile_raw_current" ==> |b.profileIds| == 1
  {
    hide IsImmutableId, OrderedIds;
    KindsDiffer();
  }

  lemma {:induction false} RowsComplain(rows: seq<InputRow>)
    ensures RowsError(rows).Some? ==> IsRowCode(RowsError(rows).value)
  {
    hide IsImmutableId, AllImmutable;
    if rows != [] {
      RowsComplain(rows[..|rows| - 1]);
    }
  }

  // ---- the decision ----

  ghost predicate IsExclusionRowCode(code: Code) {
    code.ExclusionId? || code.ExclusionReason? || code.ExclusionEvidence?
  }

  ghost predicate DecisionViolates(digests: Digests, p: Decision, code: Code) {
    if IsBasisCode(code) then BasisError(digests, p.basis) == Some(code)
    else if IsExclusionRowCode(code) then ExcludedRowsViolate(p.excluded, code)
    else match code
      case DecisionVersion => p.schemaVersion != "Consensus.v2" || p.authorizationEffect != "none"
      case DecisionInput => !IsImmutableId(p.roundInputId) || !IsImmutableId(p.roundInputHash)
      case ParticipantClosure => p.participantIds == [] || !IdList(p.participantIds)
      case IncludedClosure => !IdList(p.includedIds) || exists x :: x in p.includedIds && x !in p.participantIds
      case ExclusionClosure =>
        var excluded := EdgesOf(p.excluded);
        || !Ascending(excluded)
        || (exists x :: x in excluded && x in p.includedIds)
        || exists x :: (x in excluded || x in p.includedIds) != (x in p.participantIds)
      case Diagnostics => [] in p.diagnostics
      case Outcome => p.outcome != "success" && p.outcome != "failure"
      case RankingOrder => !IdList(p.ranking)
      case SuccessRanking => p.outcome == "success" && (p.ranking == [] || exists x :: (x in p.ranking) != (x in p.includedIds))
      case FailureNoRanking => p.outcome == "failure" && (p.ranking != [] || p.includedIds != [])
      case DecisionContentId => !IsImmutableId(p.decisionContentId)
      case DecisionContentHash => p.decisionContentId != digests.decision(p.(decisionContentId := ""))
      case _ => false
  }

  ghost function DecisionRank(code: Code): int {
    if IsBasisCode(code) then 2
    else if IsExclusionRowCode(code) then 5
    else match code
      case DecisionVersion => 0
      case DecisionInput => 1
      case ParticipantClosure => 3
      case IncludedClosure => 4
      case ExclusionClosure => 6
      case Diagnostics => 7
      case Outcome => 8
      case RankingOrder => 9
      case SuccessRanking => 10
      case FailureNoRanking => 11
      case DecisionContentId => 12
      case DecisionContentHash => 13
      case _ => 14
  }

  lemma SplitsMeans(participants: seq<string>, included: seq<string>, excluded: seq<string>)
    ensures Splits(participants, included, excluded) <==>
      && Ascending(excluded)
      && !(exists x :: x in excluded && x in included)
      && !(exists x :: (x in excluded || x in included) != (x in participants))
  {
    SortedIsAscending(excluded);
    hide Ascending, SortBy, NoRepeat;
    assert SameElements(excluded + included, participants) <==> forall x :: x in excluded || x in included <==> x in participants;
  }

  lemma SortedIsAscending(ids: seq<string>)
    ensures ids == SortBy(ById(), ids) && NoRepeat(ids) <==> Ascending(ids)
  {
    hide Ascending, SortBy, Increasing, NoRepeat;
    IncreasingMeans(ids);
    if NoRepeat(ids) {
      SortIncreasing(ById(), ids);
    }
    if Increasing(ById(), ids) {
      IncreasingNoRepeat(ById(), ids);
      SortIncreasing(ById(), ids);
      SortElements(ById(), ids);
      IncreasingIsUnique(ById(), ids, SortBy(ById(), ids));
    }
  }

  lemma {:induction false} ExcludedRowsComplain(rows: seq<ExcludedRow>)
    ensures ExcludedRowsError(rows).Some? ==> IsExclusionRowCode(ExcludedRowsError(rows).value)
  {
    hide IsImmutableId, OrderedIds;
    if rows != [] {
      ExcludedRowsComplain(rows[..|rows| - 1]);
    }
  }

  // A decision is accepted exactly when it violates nothing, and is otherwise refused for its first violation.
  lemma DecisionReports(digests: Digests, p: Decision)
    ensures DecisionError(digests, p) == None <==> forall code :: !DecisionViolates(digests, p, code)
    ensures DecisionError(digests, p).Some? ==>
              var code := DecisionError(digests, p).value;
              && DecisionViolates(digests, p, code)
              && forall earlier :: DecisionRank(earlier) < DecisionRank(code) ==> !DecisionViolates(digests, p, earlier)
  {
    hide DecisionError, DecisionViolates, DecisionRank;
    DecisionAccepted(digests, p);
    if DecisionError(digests, p).Some? {
      DecisionRefused(digests, p);
    }
  }

  lemma DecisionConditions(digests: Digests, p: Decision)
    ensures p.schemaVersion != SCHEMA || p.authorizationEffect != NO_EFFECT <==> DecisionViolates(digests, p, DecisionVersion)
    ensures !IsImmutableId(p.roundInputId) || !IsImmutableId(p.roundInputHash) <==> DecisionViolates(digests, p, DecisionInput)
    ensures p.participantIds == [] || !OrderedIds(p.participantIds) <==> DecisionViolates(digests, p, ParticipantClosure)
    ensures !OrderedIds(p.includedIds) || !Subset(p.includedIds, p.participantIds) <==> DecisionViolates(digests, p, IncludedClosure)
  {
    hide IsImmutableId, OrderedIds, IdList;
    OrderedIdsAre(p.participantIds);
    OrderedIdsAre(p.includedIds);
  }

  lemma ExclusionConditions(digests: Digests, p: Decision)
    ensures !Splits(p.participantIds, p.includedIds, EdgesOf(p.excluded)) <==> DecisionViolates(digests, p, ExclusionClosure)
  {
    hide Splits, Ascending, EdgesOf;
    SplitsMeans(p.participantIds, p.includedIds, EdgesOf(p.excluded));
  }

  lemma OutcomeConditions(digests: Digests, p: Decision)
    ensures [] in p.diagnostics <==> DecisionViolates(digests, p, Diagnostics)
    ensures p.outcome != SUCCESS && p.outcome != FAILURE <==> DecisionViolates(digests, p, Outcome)
  {
  }

  lemma RankingConditions(digests: Digests, p: Decision)
    ensures !OrderedIds(p.ranking) <==> DecisionViolates(digests, p, RankingOrder)
    ensures p.outcome == SUCCESS && (!SameElements(p.ranking, p.includedIds) || p.ranking == [])
       <==> DecisionViolates(digests, p, SuccessRanking)
  {
    hide OrderedIds, IdList;
    OrderedIdsAre(p.ranking);
  }

  lemma FailureConditions(digests: Digests, p: Decision)
    ensures p.outcome == FAILURE && (p.ranking != [] || p.includedIds != []) <==> DecisionViolates(digests, p, FailureNoRanking)
  {
  }

  lemma DecisionIdConditions(digests: Digests, p: Decision)
    ensures !IsImmutableId(p.decisionContentId) <==> DecisionViolates(digests, p, DecisionContentId)
    ensures p.decisionContentId != DecisionIdFor(digests, p) <==> DecisionViolates(digests, p, DecisionContentHash)
  {
    hide IsImmutableId;
  }

  lemma DecisionOtherConditions(digests: Digests, p: Decision)
    ensures forall code :: IsBasisCode(code) ==> (DecisionViolates(digests, p, code) <==> BasisError(digests, p.basis) == Some(code))
    ensures forall code :: IsExclusionRowCode(code) ==>
              (DecisionViolates(digests, p, code) <==> ExcludedRowsError(p.excluded) == Some(code))
    ensures BasisError(digests, p.basis).Some? ==> IsBasisCode(BasisError(digests, p.basis).value)
    ensures ExcludedRowsError(p.excluded).Some? ==> IsExclusionRowCode(ExcludedRowsError(p.excluded).value)
    ensures forall code :: DecisionRank(code) == 14 ==> !DecisionViolates(digests, p, code)
  {
    hide IsImmutableId, IdList, BasisError, ExcludedRowsError, ExcludedRowsViolate, Ascending;
    ExcludedRowsReport(p.excluded);
    ExcludedRowsComplain(p.excluded);
    BasisComplains(digests, p.basis);
  }

  lemma DecisionAccepted(digests: Digests, p: Decision)
    ensures DecisionError(digests, p) == None <==> forall code :: !DecisionViolates(digests, p, code)
  {
    hide DecisionViolates, IsImmutableId, OrderedIds, BasisError, ExcludedRowsError, Splits, EdgesOf, Subset, SameElements,
         DecisionIdFor, SCHEMA, NO_EFFECT, SUCCESS, FAILURE;
    DecisionConditions(digests, p);
    ExclusionConditions(digests, p);
    OutcomeConditions(digests, p);
    RankingConditions(digests, p);
    FailureConditions(digests, p);
    DecisionIdConditions(digests, p);
    DecisionOtherConditions(digests, p);
    if DecisionError(digests, p).Some? {
      assert DecisionViolates(digests, p, DecisionError(digests, p).value);
    }
  }

  lemma DecisionRefused(digests: Digests, p: Decision)
    requires DecisionError(digests, p).Some?
    ensures var code := DecisionError(digests, p).value;
            && DecisionViolates(digests, p, code)
            && forall earlier :: DecisionRank(earlier) < DecisionRank(code) ==> !DecisionViolates(digests, p, earlier)
  {
    hide DecisionViolates, IsImmutableId, OrderedIds, BasisError, ExcludedRowsError, Splits, EdgesOf, Subset, SameElements,
         DecisionIdFor, SCHEMA, NO_EFFECT, SUCCESS, FAILURE;
    DecisionConditions(digests, p);
    ExclusionConditions(digests, p);
    OutcomeConditions(digests, p);
    RankingConditions(digests, p);
    FailureConditions(digests, p);
    DecisionIdConditions(digests, p);
    DecisionOtherConditions(digests, p);
  }
}
