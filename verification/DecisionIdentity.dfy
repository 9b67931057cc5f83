// What the content id of a decision record identifies: the decision up to the code units of its
// two kinds of free text.
module DecisionIdentity {
  import opened Wrappers
  import opened Texts
  import opened CanonicalJson
  import opened DecisionContract
  import opened ReferenceEvaluator
  import opened ReferenceAcceptance
  import opened ReferenceExamples

  function TextJson(s: string): Json {
    JText(Units(Points(s)))
  }

  function PointsJson(text: seq<CodePoint>): Json {
    JText(Units(text))
  }

  function TextsJson(texts: seq<seq<CodePoint>>): Json {
    JArray(seq(|texts|, i requires 0 <= i < |texts| => PointsJson(texts[i])))
  }

  function IdsJson(ids: seq<string>): Json {
    JArray(seq(|ids|, i requires 0 <= i < |ids| => TextJson(ids[i])))
  }

  function BasisJson(b: Basis): Json {
    JObject(map[
      "basis_id" := TextJson(b.basisId),
      "schema_version" := PointsJson(b.schemaVersion),
      "canonical_bytes" := TextJson(b.canonicalBytes),
      "canonical_bytes_hash" := TextJson(b.canonicalBytesHash),
      "kind" := TextJson(b.kind),
      "unit" := TextJson(b.unit),
      "profile_ids" := IdsJson(b.profileIds),
      "uncertainty_parameter_ids" := IdsJson(b.uncertaintyParameterIds)])
  }

  function ExcludedJson(row: ExcludedRow): Json {
    JObject(map[
      "edge_id" := TextJson(row.edgeId),
      "reason_id" := TextJson(row.reasonId),
      "evidence_ids" := IdsJson(row.evidenceIds)])
  }

  function RowsJson(rows: seq<ExcludedRow>): Json {
    JArray(seq(|rows|, i requires 0 <= i < |rows| => ExcludedJson(rows[i])))
  }

  // Every field of the record but its own content id.
  function DecisionJson(d: Decision): Json {
    JObject(map[
      "schema_version" := TextJson(d.schemaVersion),
      "round_input_id" := TextJson(d.roundInputId),
      "round_input_hash" := TextJson(d.roundInputHash),
      "comparison_basis" := BasisJson(d.basis),
      "outcome" := TextJson(d.outcome),
      "participant_ids" := IdsJson(d.participantIds),
      "included_ids" := IdsJson(d.includedIds),
      "excluded" := RowsJson(d.excluded),
      "ranking" := IdsJson(d.ranking),
      "diagnostics" := TextsJson(d.diagnostics),
      "authorization_effect" := TextJson(d.authorizationEffect)])
  }

  lemma TextJsonIsInjective(s: string, t: string)
    requires TextJson(s) == TextJson(t)
    ensures s == t
  {
    PointsAreInjective(s, t);
  }

  lemma IdsJsonIsInjective(s: seq<string>, t: seq<string>)
    requires IdsJson(s) == IdsJson(t)
    ensures s == t
  {
    hide TextJson;
    assert |IdsJson(s).items| == |s| && |IdsJson(t).items| == |t|;
    forall i | 0 <= i < |s| ensures s[i] == t[i] {
      assert IdsJson(s).items[i] == IdsJson(t).items[i];
      TextJsonIsInjective(s[i], t[i]);
    }
  }

  // ---- equality up to code units ----

  predicate SameUnits(a: seq<seq<CodePoint>>, b: seq<seq<CodePoint>>) {
    |a| == |b| && forall i :: 0 <= i < |a| ==> Units(a[i]) == Units(b[i])
  }

  predicate SameBasis(a: Basis, b: Basis) {
    a.(schemaVersion := []) == b.(schemaVersion := []) && Units(a.schemaVersion) == Units(b.schemaVersion)
  }

  // Equal but for the content id and for the spelling of free text in code points.
  predicate SameDecision(a: Decision, b: Decision) {
    && a.(decisionContentId := "", basis := b.basis, diagnostics := []) == b.(decisionContentId := "", diagnostics := [])
    && SameBasis(a.basis, b.basis)
    && SameUnits(a.diagnostics, b.diagnostics)
  }

  predicate PairFreeDecision(d: Decision) {
    PairFree(d.basis.schemaVersion) && forall i :: 0 <= i < |d.diagnostics| ==> PairFree(d.diagnostics[i])
  }

  lemma PairFreeMeansEqual(a: Decision, b: Decision)
    requires SameDecision(a, b) && PairFreeDecision(a) && PairFreeDecision(b)
    ensures a.(decisionContentId := "") == b.(decisionContentId := "")
  {
    hide Units, PairFree;
    UnitsAreInjective(a.basis.schemaVersion, b.basis.schemaVersion);
    forall i | 0 <= i < |a.diagnostics| ensures a.diagnostics[i] == b.diagnostics[i] {
      UnitsAreInjective(a.diagnostics[i], b.diagnostics[i]);
    }
    assert a.diagnostics == b.diagnostics;
    assert a.basis == b.basis;
  }

  lemma TextsJsonUpToUnits(s: seq<seq<CodePoint>>, t: seq<seq<CodePoint>>)
    ensures TextsJson(s) == TextsJson(t) <==> SameUnits(s, t)
  {
    hide Units;
    assert |TextsJson(s).items| == |s| && |TextsJson(t).items| == |t|;
    if TextsJson(s) == TextsJson(t) {
      forall i | 0 <= i < |s| ensures Units(s[i]) == Units(t[i]) {
        assert TextsJson(s).items[i] == TextsJson(t).items[i];
      }
    }
    if SameUnits(s, t) {
      assert TextsJson(s).items == TextsJson(t).items;
    }
  }

  lemma BasisJsonUpToUnits(a: Basis, b: Basis)
    ensures BasisJson(a) == BasisJson(b) <==> SameBasis(a, b)
  {
    hide TextJson, IdsJson, Units;
    if BasisJson(a) == BasisJson(b) {
      BasisFields(a, b);
    }
  }

  lemma BasisFields(a: Basis, b: Basis)
    requires BasisJson(a) == BasisJson(b)
    ensures SameBasis(a, b)
  {
    hide TextJson, IdsJson, Units;
    var f, g := BasisJson(a).fields, BasisJson(b).fields;
    assert f["basis_id"] == g["basis_id"] && f["schema_version"] == g["schema_version"];
    assert f["canonical_bytes"] == g["canonical_bytes"] && f["canonical_bytes_hash"] == g["canonical_bytes_hash"];
    assert f["kind"] == g["kind"] && f["unit"] == g["unit"];
    assert f["profile_ids"] == g["profile_ids"] && f["uncertainty_parameter_ids"] == g["uncertainty_parameter_ids"];
    TextJsonIsInjective(a.basisId, b.basisId);
    TextJsonIsInjective(a.canonicalBytes, b.canonicalBytes);
    TextJsonIsInjective(a.canonicalBytesHash, b.canonicalBytesHash);
    TextJsonIsInjective(a.kind, b.kind);
    TextJsonIsInjective(a.unit, b.unit);
    IdsJsonIsInjective(a.profileIds, b.profileIds);
    IdsJsonIsInjective(a.uncertaintyParameterIds, b.uncertaintyParameterIds);
  }

  lemma ExcludedJsonIsInjective(a: ExcludedRow, b: ExcludedRow)
    requires ExcludedJson(a) == ExcludedJson(b)
    ensures a == b
  {
    hide TextJson, IdsJson;
    var f, g := ExcludedJson(a).fields, ExcludedJson(b).fields;
    assert f["edge_id"] == g["edge_id"] && f["reason_id"] == g["reason_id"] && f["evidence_ids"] == g["evidence_ids"];
    TextJsonIsInjective(a.edgeId, b.edgeId);
    TextJsonIsInjective(a.reasonId, b.reasonId);
    IdsJsonIsInjective(a.evidenceIds, b.evidenceIds);
  }

  lemma RowsJsonIsInjective(s: seq<ExcludedRow>, t: seq<ExcludedRow>)
    requires RowsJson(s) == RowsJson(t)
    ensures s == t
  {
    hide ExcludedJson;
    assert |RowsJson(s).items| == |s| && |RowsJson(t).items| == |t|;
    forall i | 0 <= i < |s| ensures s[i] == t[i] {
      assert RowsJson(s).items[i] == RowsJson(t).items[i];
      ExcludedJsonIsInjective(s[i], t[i]);
    }
  }

  lemma DecisionFields(d: Decision)
    ensures var f := DecisionJson(d).fields;
            && {"schema_version", "round_input_id", "round_input_hash", "comparison_basis", "outcome"} <= f.Keys
            && f["schema_version"] == TextJson(d.schemaVersion)
            && f["round_input_id"] == TextJson(d.roundInputId)
            && f["round_input_hash"] == TextJson(d.roundInputHash)
            && f["comparison_basis"] == BasisJson(d.basis)
            && f["outcome"] == TextJson(d.outcome)
  {
    hide TextJson, IdsJson, TextsJson, BasisJson, RowsJson;
  }

  lemma DecisionLists(d: Decision)
    ensures var f := DecisionJson(d).fields;
            && {"participant_ids", "included_ids", "excluded", "ranking", "diagnostics", "authorization_effect"} <= f.Keys
            && f["participant_ids"] == IdsJson(d.participantIds)
            && f["included_ids"] == IdsJson(d.includedIds)
            && f["excluded"] == RowsJson(d.excluded)
            && f["ranking"] == IdsJson(d.ranking)
            && f["diagnostics"] == TextsJson(d.diagnostics)
            && f["authorization_effect"] == TextJson(d.authorizationEffect)
  {
    hide TextJson, IdsJson, TextsJson, BasisJson, RowsJson;
  }

  lemma EqualJson(a: Decision, b: Decision)
    requires DecisionJson(a) == DecisionJson(b)
    ensures SameDecision(a, b)
  {
    hide TextJson, IdsJson, TextsJson, BasisJson, RowsJson, DecisionJson, SameBasis, SameUnits;
    DecisionFields(a);
    DecisionFields(b);
    DecisionLists(a);
    DecisionLists(b);
    TextJsonIsInjective(a.schemaVersion, b.schemaVersion);
    TextJsonIsInjective(a.roundInputId, b.roundInputId);
    TextJsonIsInjective(a.roundInputHash, b.roundInputHash);
    BasisJsonUpToUnits(a.basis, b.basis);
    TextJsonIsInjective(a.outcome, b.outcome);
    IdsJsonIsInjective(a.participantIds, b.participantIds);
    IdsJsonIsInjective(a.includedIds, b.includedIds);
    RowsJsonIsInjective(a.excluded, b.excluded);
    IdsJsonIsInjective(a.ranking, b.ranking);
    TextsJsonUpToUnits(a.diagnostics, b.diagnostics);
    TextJsonIsInjective(a.authorizationEffect, b.authorizationEffect);
  }

  // Two decisions have one tree exactly when they are the same up to code units.
  lemma DecisionJsonUpToUnits(a: Decision, b: Decision)
    ensures DecisionJson(a) == DecisionJson(b) <==> SameDecision(a, b)
  {
    hide TextJson, IdsJson, TextsJson, BasisJson, RowsJson, SameBasis, SameUnits;
    if DecisionJson(a) == DecisionJson(b) {
      EqualJson(a, b);
    }
    if SameDecision(a, b) {
      BasisJsonUpToUnits(a.basis, b.basis);
      TextsJsonUpToUnits(a.diagnostics, b.diagnostics);
    }
  }

  // The digests of the program: a hash of the canonical text without the content id.
  ghost predicate HashesCanonicalText(digests: Digests, hash: string -> ImmutableId) {
    forall d: Decision :: digests.decision(d) == hash(Text(DecisionJson(d)))
  }

  ghost predicate Collide(hash: string -> ImmutableId, s: string, t: string) {
    s != t && hash(s) == hash(t)
  }

  // Two accepted decision records share a content id exactly when they are the same up to code
  // units, or their canonical texts are a collision of the hash.
  lemma ContentIdIdentifies(digests: Digests, hash: string -> ImmutableId, a: Decision, b: Decision)
    requires HashesCanonicalText(digests, hash)
    requires DecisionError(digests, a) == None && DecisionError(digests, b) == None
    ensures a.decisionContentId == b.decisionContentId
       <==> SameDecision(a, b) || Collide(hash, Text(DecisionJson(a)), Text(DecisionJson(b)))
  {
    hide Text, SameDecision, DecisionJson;
    IdOfText(digests, hash, a);
    IdOfText(digests, hash, b);
    DecisionJsonUpToUnits(a, b);
    if Text(DecisionJson(a)) == Text(DecisionJson(b)) {
      TextIsInjective(DecisionJson(a), DecisionJson(b));
    }
  }

  // Without surrogate pairs written as two characters, one content id means one record.
  lemma PairFreeIdIdentifies(digests: Digests, hash: string -> ImmutableId, a: Decision, b: Decision)
    requires HashesCanonicalText(digests, hash)
    requires DecisionError(digests, a) == None && DecisionError(digests, b) == None
    requires PairFreeDecision(a) && PairFreeDecision(b) && a.decisionContentId == b.decisionContentId
    ensures a == b || Collide(hash, Text(DecisionJson(a)), Text(DecisionJson(b)))
  {
    hide Text, SameDecision, DecisionJson, DecisionError, PairFreeDecision;
    ContentIdIdentifies(digests, hash, a, b);
    if SameDecision(a, b) {
      PairFreeMeansEqual(a, b);
      assert a == a.(decisionContentId := "").(decisionContentId := a.decisionContentId);
      assert b == b.(decisionContentId := "").(decisionContentId := b.decisionContentId);
    }
  }

  lemma IdOfText(digests: Digests, hash: string -> ImmutableId, p: Decision)
    requires HashesCanonicalText(digests, hash) && DecisionError(digests, p) == None
    ensures p.decisionContentId == hash(Text(DecisionJson(p)))
  {
    hide Text;
    AcceptedIsSealed(digests, p);
    var x := p.(decisionContentId := "");
    assert DecisionJson(x) == DecisionJson(p);
    assert digests.decision(x) == hash(Text(DecisionJson(x)));
  }

  lemma AcceptedIsSealed(digests: Digests, p: Decision)
    requires DecisionError(digests, p) == None
    ensures p.decisionContentId == DecisionIdFor(digests, p)
  {
    hide IsImmutableId, OrderedIds, BasisError, ExcludedRowsError, Splits;
  }

  // ---- two accepted records with one content id ----

  // A failure of one participant whose diagnostic is the given text.
  function FailureSaying(digests: Digests, diagnostic: seq<CodePoint>): Decision {
    Sealed(digests, Decision(SCHEMA, IdOf('1'), IdOf('1'), ThreeRows(digests).basis, FAILURE, [IdOf('a')], [],
                             [ExcludedRow(IdOf('a'), IdOf('b'), [IdOf('c')])], [], [diagnostic], "", NO_EFFECT))
  }

  lemma FailureIsAccepted(digests: Digests, diagnostic: seq<CodePoint>)
    requires diagnostic != []
    ensures DecisionError(digests, FailureSaying(digests, diagnostic)) == None
  {
    hide IdOf, IsImmutableId, OrderedIds, ThreeRows, BasisError, DecisionError;
    var d := FailureSaying(digests, diagnostic);
    ExampleBasis(digests);
    OneId(IdOf('a'));
    OneId(IdOf('c'));
    NoIds();
    OneSplits(IdOf('a'));
    assert EdgesOf(d.excluded) == [IdOf('a')];
    Sealing(digests, d.(decisionContentId := ""));
    VerdictOnRanking(digests, d);
  }

  lemma OneSplits(id: string)
    ensures Splits([id], [], [id])
  {
  }

  // Two lone surrogates and the character they would encode: different accepted decisions, one
  // canonical text, one content id, and no collision of the hash.
  lemma DifferentDecisionsShareAnId(digests: Digests, hash: string -> ImmutableId) returns (a: Decision, b: Decision)
    requires HashesCanonicalText(digests, hash)
    ensures DecisionError(digests, a) == None && DecisionError(digests, b) == None
    ensures a != b && a.decisionContentId == b.decisionContentId
    ensures Text(DecisionJson(a)) == Text(DecisionJson(b))
  {
    hide Text, DecisionJson, DecisionError, IdOf, ThreeRows, Units;
    var pair: seq<CodePoint>, single: seq<CodePoint> := [0xD800, 0xDC00], [0x10000];
    a, b := FailureSaying(digests, pair), FailureSaying(digests, single);
    FailureIsAccepted(digests, pair);
    FailureIsAccepted(digests, single);
    SurrogatesCollide();
    assert a.diagnostics == [pair] && b.diagnostics == [single] && |pair| != |single|;
    DecisionJsonUpToUnits(a, b);
    ContentIdIdentifies(digests, hash, a, b);
  }
}
