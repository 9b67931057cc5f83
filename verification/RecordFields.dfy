// Under which name each field of a Consensus.v2 record is written, and that nothing else is.
module RecordFields {
  import opened Wrappers
  import opened Texts
  import opened CanonicalJson
  import opened CanonicalReader
  import opened DecisionContract
  import opened DecisionIdentity
  import opened RecordContracts

  // The named field is a string of these characters.
  ghost predicate HasText(j: Json, name: string, s: string) {
    j.JObject? && name in j.fields && IsText(j.fields[name], s)
  }

  ghost predicate IsText(j: Json, s: string) {
    j.JText? && KeyOf(j.units) == Some(s)
  }

  // The named field is a list of such strings.
  ghost predicate HasTexts(j: Json, name: string, ids: seq<string>) {
    j.JObject? && name in j.fields && IsTexts(j.fields[name], ids)
  }

  ghost predicate IsTexts(j: Json, ids: seq<string>) {
    j.JArray? && |j.items| == |ids| && forall i :: 0 <= i < |ids| ==> IsText(j.items[i], ids[i])
  }

  lemma TextIs(s: string)
    ensures IsText(TextJson(s), s)
  {
    KeyRead(s);
  }

  lemma TextsAre(ids: seq<string>)
    ensures IsTexts(IdsJson(ids), ids)
  {
    hide TextJson, IsText;
    forall i | 0 <= i < |ids| ensures IsText(IdsJson(ids).items[i], ids[i]) {
      TextIs(ids[i]);
    }
  }

  lemma AllText()
    ensures forall s :: IsText(TextJson(s), s)
    ensures forall ids :: IsTexts(IdsJson(ids), ids)
  {
    hide TextJson, IdsJson, IsText, IsTexts;
    forall s ensures IsText(TextJson(s), s) {
      TextIs(s);
    }
    forall ids ensures IsTexts(IdsJson(ids), ids) {
      TextsAre(ids);
    }
  }

  // ---- the parts of a record ----

  ghost predicate BasisSays(j: Json, b: Basis) {
    && HasText(j, "basis_id", b.basisId)
    && HasText(j, "canonical_bytes", b.canonicalBytes) && HasText(j, "canonical_bytes_hash", b.canonicalBytesHash)
    && HasText(j, "kind", b.kind) && HasText(j, "unit", b.unit)
    && HasTexts(j, "profile_ids", b.profileIds) && HasTexts(j, "uncertainty_parameter_ids", b.uncertaintyParameterIds)
    && "schema_version" in j.fields && j.fields["schema_version"] == JText(Units(b.schemaVersion))
    && |j.fields| <= 8
  }

  lemma BasisNames(b: Basis)
    ensures BasisSays(BasisJson(b), b)
  {
    hide TextJson, IdsJson, IsText, IsTexts;
    AllText();
  }

  ghost predicate ExcludedSays(j: Json, row: ExcludedRow) {
    && HasText(j, "edge_id", row.edgeId) && HasText(j, "reason_id", row.reasonId)
    && HasTexts(j, "evidence_ids", row.evidenceIds) && |j.fields| <= 3
  }

  lemma ExcludedNames(row: ExcludedRow)
    ensures ExcludedSays(ExcludedJson(row), row)
  {
    hide TextJson, IdsJson, IsText, IsTexts;
    AllText();
  }

  ghost predicate RowSays(j: Json, row: InputRow) {
    && HasText(j, "edge_id", row.edgeId) && HasText(j, "observation_id", row.observationId)
    && HasText(j, "observation_canonical_hash", row.observationCanonicalHash)
    && HasText(j, "profile_id", row.profileId) && HasText(j, "correlation_id", row.correlationId)
    && HasText(j, "raw_current_unit", row.rawCurrentUnit)
    && "source_sequence" in j.fields && j.fields["source_sequence"] == JInt(row.sourceSequence)
    && |j.fields| <= 7
  }

  lemma RowNames(row: InputRow)
    ensures RowSays(RowJson(row), row)
  {
    hide TextJson, IsText;
    AllText();
  }

  // ---- the decision record ----

  ghost predicate DecisionTexts(j: Json, d: Decision) {
    && HasText(j, "schema_version", d.schemaVersion) && HasText(j, "outcome", d.outcome)
    && HasText(j, "round_input_id", d.roundInputId) && HasText(j, "round_input_hash", d.roundInputHash)
    && HasText(j, "authorization_effect", d.authorizationEffect)
    && HasText(j, "decision_content_id", d.decisionContentId)
    && HasTexts(j, "participant_ids", d.participantIds) && HasTexts(j, "included_ids", d.includedIds)
    && HasTexts(j, "ranking", d.ranking)
    && |j.fields| <= 12
  }

  ghost predicate DecisionParts(j: Json, d: Decision) {
    && j.JObject? && {"comparison_basis", "excluded", "diagnostics"} <= j.fields.Keys
    && BasisSays(j.fields["comparison_basis"], d.basis)
    && var rows, texts := j.fields["excluded"], j.fields["diagnostics"];
       && rows.JArray? && |rows.items| == |d.excluded|
       && (forall i :: 0 <= i < |d.excluded| ==> ExcludedSays(rows.items[i], d.excluded[i]))
       && texts.JArray? && |texts.items| == |d.diagnostics|
       && forall i :: 0 <= i < |d.diagnostics| ==> texts.items[i] == JText(Units(d.diagnostics[i]))
  }

  lemma DecisionHasTexts(d: Decision)
    ensures DecisionTexts(DecisionRecord(d), d)
  {
    hide TextJson, IdsJson, IsText, IsTexts, TextsJson, BasisJson, RowsJson, DecisionJson;
    AllText();
    DecisionFields(d);
    DecisionLists(d);
    IdIsApart(d);
    FieldCount(d);
  }

  lemma FieldCount(d: Decision)
    ensures DecisionJson(d).JObject? && |DecisionJson(d).fields| <= 11
  {
    hide TextJson, IdsJson, TextsJson, BasisJson, RowsJson;
  }

  lemma DecisionHasParts(d: Decision)
    ensures DecisionParts(DecisionRecord(d), d)
  {
    hide TextJson, IdsJson, BasisJson, ExcludedJson, DecisionJson, BasisSays, ExcludedSays, Units;
    DecisionFields(d);
    DecisionLists(d);
    BasisNames(d.basis);
    forall i | 0 <= i < |d.excluded| ensures ExcludedSays(ExcludedJson(d.excluded[i]), d.excluded[i]) {
      ExcludedNames(d.excluded[i]);
    }
    assert RowsJson(d.excluded).items == seq(|d.excluded|, i requires 0 <= i < |d.excluded| => ExcludedJson(d.excluded[i]));
  }

  // Reading the canonical text of a decision record gives, under these names, what the decision holds and nothing else.
  lemma DecisionIsRead(d: Decision)
    ensures var r := ReadValue(Text(DecisionRecord(d)));
            r.Some? && r.value.1 == "" && DecisionTexts(r.value.0, d) && DecisionParts(r.value.0, d)
  {
    hide Text, ReadValue, DecisionRecord, DecisionTexts, DecisionParts;
    CanonicalRoundTrip(DecisionRecord(d));
    DecisionHasTexts(d);
    DecisionHasParts(d);
  }

  // ---- the round input record ----

  ghost predicate InputTexts(j: Json, p: RoundInput) {
    && HasText(j, "schema_version", p.schemaVersion) && HasText(j, "experiment_id", p.experimentId)
    && HasText(j, "run_id", p.runId) && HasText(j, "round_id", p.roundId)
    && HasText(j, "qualification_result_id", p.qualificationResultId)
  }

  ghost predicate InputLists(j: Json, p: RoundInput) {
    && HasTexts(j, "quality_policy_ids", p.qualityPolicyIds) && HasTexts(j, "parameter_ids", p.parameterIds)
    && HasText(j, "input_content_id", p.inputContentId) && HasText(j, "authorization_effect", p.authorizationEffect)
    && |j.fields| <= 11
  }

  ghost predicate InputParts(j: Json, p: RoundInput) {
    && j.JObject? && {"comparison_basis", "observations"} <= j.fields.Keys
    && BasisSays(j.fields["comparison_basis"], p.basis)
    && var rows := j.fields["observations"];
       && rows.JArray? && |rows.items| == |p.observations|
       && forall i :: 0 <= i < |p.observations| ==> RowSays(rows.items[i], p.observations[i])
  }

  lemma InputHasTexts(p: RoundInput)
    ensures InputTexts(InputRecord(p), p)
  {
    hide TextJson, IdsJson, IsText, IsTexts, BasisJson, InputRowsJson;
    AllText();
  }

  lemma InputHasLists(p: RoundInput)
    ensures InputLists(InputRecord(p), p)
  {
    hide TextJson, IdsJson, IsText, IsTexts, BasisJson, InputRowsJson;
    AllText();
  }

  lemma InputHasParts(p: RoundInput)
    ensures InputParts(InputRecord(p), p)
  {
    hide TextJson, IdsJson, BasisJson, RowJson, BasisSays, RowSays;
    BasisNames(p.basis);
    forall i | 0 <= i < |p.observations| ensures RowSays(RowJson(p.observations[i]), p.observations[i]) {
      RowNames(p.observations[i]);
    }
  }

  lemma InputIsRead(p: RoundInput)
    ensures var r := ReadValue(Text(InputRecord(p)));
            r.Some? && r.value.1 == "" && InputTexts(r.value.0, p) && InputLists(r.value.0, p) && InputParts(r.value.0, p)
  {
    hide Text, ReadValue, InputRecord, InputTexts, InputLists, InputParts;
    CanonicalRoundTrip(InputRecord(p));
    InputHasTexts(p);
    InputHasLists(p);
    InputHasParts(p);
  }
}
