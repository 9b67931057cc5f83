// The two contracts as tests of a payload's content, and the round trip of the records they accept.
module RecordContracts {
  import opened Wrappers
  import opened Texts
  import opened CanonicalJson
  import opened RecordIdentity
  import opened DecisionContract
  import opened DecisionIdentity

  const DECISION_ID := "decision_content_id"
  const INPUT_ID := "input_content_id"

  function DecisionRecord(d: Decision): Json {
    JObject(DecisionJson(d).fields[DECISION_ID := TextJson(d.decisionContentId)])
  }

  function RowJson(row: InputRow): Json {
    JObject(map[
      "edge_id" := TextJson(row.edgeId),
      "observation_id" := TextJson(row.observationId),
      "observation_canonical_hash" := TextJson(row.observationCanonicalHash),
      "profile_id" := TextJson(row.profileId),
      "source_sequence" := JInt(row.sourceSequence),
      "correlation_id" := TextJson(row.correlationId),
      "raw_current_unit" := TextJson(row.rawCurrentUnit)])
  }

  function InputRowsJson(rows: seq<InputRow>): Json {
    JArray(seq(|rows|, i requires 0 <= i < |rows| => RowJson(rows[i])))
  }

  function InputRecord(p: RoundInput): Json {
    JObject(map[
      "schema_version" := TextJson(p.schemaVersion),
      "experiment_id" := TextJson(p.experimentId),
      "run_id" := TextJson(p.runId),
      "round_id" := TextJson(p.roundId),
      "qualification_result_id" := TextJson(p.qualificationResultId),
      "comparison_basis" := BasisJson(p.basis),
      "quality_policy_ids" := IdsJson(p.qualityPolicyIds),
      "parameter_ids" := IdsJson(p.parameterIds),
      "observations" := InputRowsJson(p.observations),
      INPUT_ID := TextJson(p.inputContentId),
      "authorization_effect" := TextJson(p.authorizationEffect)])
  }

  // A content the decision contract accepts: that of a decision about which it has no complaint.
  ghost function AcceptsDecision(digests: Digests): Json -> bool {
    (j: Json) => exists d: Decision :: j == DecisionRecord(d) && DecisionError(digests, d) == None
  }

  ghost function AcceptsInput(digests: Digests): Json -> bool {
    (j: Json) => exists p: RoundInput :: j == InputRecord(p) && InputError(digests, p) == None
  }

  lemma IdsShape(ids: seq<string>)
    ensures IsLeafArray(IdsJson(ids))
  {
  }

  lemma TextsShape(texts: seq<seq<CodePoint>>)
    ensures IsLeafArray(TextsJson(texts))
  {
  }

  lemma BasisShape(b: Basis)
    ensures IsFlat(BasisJson(b))
  {
    hide TextJson, IdsJson, PointsJson, IsLeaf;
    BasisLeaves(b);
    IdsShape(b.profileIds);
    IdsShape(b.uncertaintyParameterIds);
  }

  lemma BasisLeaves(b: Basis)
    ensures forall s :: IsLeaf(TextJson(s))
    ensures forall t :: IsLeaf(PointsJson(t))
  {
  }

  lemma ExcludedShape(rows: seq<ExcludedRow>)
    ensures IsFlatArray(RowsJson(rows))
  {
    forall i | 0 <= i < |rows| ensures IsFlat(ExcludedJson(rows[i])) {
      IdsShape(rows[i].evidenceIds);
    }
  }

  lemma DecisionShape(d: Decision)
    ensures RecordShape(DecisionRecord(d))
  {
    hide TextJson, IdsJson, TextsJson, BasisJson, RowsJson, IsLeaf, IsLeafArray, IsFlat, IsFlatArray;
    BasisLeaves(d.basis);
    BasisShape(d.basis);
    IdsShape(d.participantIds);
    IdsShape(d.includedIds);
    IdsShape(d.ranking);
    TextsShape(d.diagnostics);
    ExcludedShape(d.excluded);
  }

  lemma InputRowsShape(rows: seq<InputRow>)
    ensures IsFlatArray(InputRowsJson(rows))
  {
    forall i | 0 <= i < |rows| ensures IsFlat(RowJson(rows[i])) {
    }
  }

  lemma InputShape(p: RoundInput)
    ensures RecordShape(InputRecord(p))
  {
    hide TextJson, IdsJson, BasisJson, InputRowsJson, IsLeaf, IsLeafArray, IsFlat, IsFlatArray;
    BasisLeaves(p.basis);
    BasisShape(p.basis);
    IdsShape(p.qualityPolicyIds);
    IdsShape(p.parameterIds);
    InputRowsShape(p.observations);
  }

  lemma IdIsApart(d: Decision)
    ensures DecisionJson(d).JObject? && DECISION_ID !in DecisionJson(d).fields
  {
    hide TextJson, IdsJson, TextsJson, BasisJson, RowsJson;
  }

  // What is hashed for the content id of a decision record is the text of the decision without it.
  lemma HashedBytes(payload: Value, d: Decision)
    requires IsMapping(payload) && Content(payload) == DecisionRecord(d) && CanonicalBytes(payload, DECISION_ID).Some?
    ensures CanonicalBytes(payload, DECISION_ID) == Some(Text(DecisionJson(d)))
  {
    hide Text, CanonicalBytes, DecisionJson;
    IdIsApart(d);
    BytesOfBody(payload, DECISION_ID);
    var whole, bare := Content(payload).fields, DecisionJson(d).fields;
    assert whole == bare[DECISION_ID := TextJson(d.decisionContentId)];
    assert whole.Keys == payload.fields.Keys;
    assert forall k :: k in payload.fields ==> Content(payload.fields[k]) == whole[k];
    assert forall k :: k in bare ==> k in whole && k != DECISION_ID;
    assert Body(payload, DECISION_ID).fields == DecisionJson(d).fields;
  }

  // Every accepted decision record, parsed again from what it prints, is the same record.
  lemma DecisionRoundTrip(digests: Digests, payload: Value)
    requires IsMapping(payload) && Construct(AcceptsDecision(digests), payload, DECISION_ID).Some?
    ensures var record := Construct(AcceptsDecision(digests), payload, DECISION_ID).value;
            IsMapping(Thaw(record)) && Construct(AcceptsDecision(digests), Thaw(record), DECISION_ID) == Some(record)
  {
    hide Construct, RecordShape, DecisionRecord, DecisionError;
    forall j | AcceptsDecision(digests)(j) ensures RecordShape(j) {
      var d: Decision :| j == DecisionRecord(d) && DecisionError(digests, d) == None;
      DecisionShape(d);
    }
    RecordRoundTrip(AcceptsDecision(digests), payload, DECISION_ID);
  }

  // And so is every accepted round input record.
  lemma InputRoundTrip(digests: Digests, payload: Value)
    requires IsMapping(payload) && Construct(AcceptsInput(digests), payload, INPUT_ID).Some?
    ensures var record := Construct(AcceptsInput(digests), payload, INPUT_ID).value;
            IsMapping(Thaw(record)) && Construct(AcceptsInput(digests), Thaw(record), INPUT_ID) == Some(record)
  {
    hide Construct, RecordShape, InputRecord, InputError;
    forall j | AcceptsInput(digests)(j) ensures RecordShape(j) {
      var p: RoundInput :| j == InputRecord(p) && InputError(digests, p) == None;
      InputShape(p);
    }
    RecordRoundTrip(AcceptsInput(digests), payload, INPUT_ID);
  }
}
