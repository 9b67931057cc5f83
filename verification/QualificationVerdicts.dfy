// Which diagnostic each qualification check gives, and which verdict the six of them, read off the evidence.
module QualificationVerdicts {
  import opened Wrappers
  import opened Lists
  import opened DecisionContract
  import opened Assessments
  import opened Qualification

  // An id that can be looked up.
  ghost predicate Retained(id: string, resolver: Resolver) {
    IsImmutableId(id) && resolver(id)
  }

  lemma ResolvedMeans(resolver: Resolver)
    ensures forall id :: Resolved(id, resolver) <==> Retained(id, resolver)
  {
  }

  ghost predicate Says(check: Check<Diagnostic>, disposition: Disposition, diagnostic: Option<Diagnostic>) {
    check.disposition == disposition && check.diagnostic == diagnostic
  }

  // ---- the verdict ----

  ghost predicate Among(checks: seq<Check<Diagnostic>>, d: Disposition) {
    exists k :: 0 <= k < |checks| && checks[k].disposition == d
  }

  // Incomplete evidence keeps the candidate incomplete, whatever else; otherwise blocked evidence blocks it; otherwise
  // a failed check leaves it in shadow; otherwise it is qualified.
  lemma VerdictSays(checks: seq<Check<Diagnostic>>)
    ensures VerdictOf(checks) == QualificationIncomplete <==> Among(checks, Incomplete)
    ensures VerdictOf(checks) == QualificationBlocked <==> Among(checks, Blocked) && !Among(checks, Incomplete)
    ensures VerdictOf(checks) == Shadow <==> Among(checks, Fail) && !Among(checks, Blocked) && !Among(checks, Incomplete)
    ensures VerdictOf(checks) == Qualified <==> forall k :: 0 <= k < |checks| ==> checks[k].disposition == Pass
  {
    PassPrevails(checks);
    assert forall d :: HasDisposition(checks, d) <==> Among(checks, d);
    hide HasDisposition, Among;
  }

  // The six checks in their order.
  lemma SixChecks(c: Candidate, resolver: Resolver)
    ensures var checks := AllChecks(c, resolver);
            && |checks| == 6
            && checks[0].checkId == "immutable_closure" && checks[1].checkId == "python_go_parity"
            && checks[2].checkId == "abci_integration" && checks[3].checkId == "versioned_state"
            && checks[4].checkId == "sensitivity" && checks[5].checkId == "provenance"
  {
    hide AllImmutable, AllResolved, AllSupported, KindsCovered, NoRepeat, FixturesResolved, FirstProblem, Resolved;
  }

  // ---- closure, sensitivity and provenance ----

  lemma ClosureReports(c: Candidate, resolver: Resolver)
    ensures var check, ids := AllChecks(c, resolver)[0], [c.primaryConfigurationId] + c.closureIds;
            && check.evidence == ids
            && (Says(check, Incomplete, Some(ClosureIdMissing)) <==> exists id :: id in ids && !IsImmutableId(id))
            && (Says(check, Blocked, Some(ClosureUnresolved)) <==>
                  (forall id :: id in ids ==> IsImmutableId(id)) && exists id :: id in ids && !resolver(id))
            && (Says(check, Pass, None) <==> forall id :: id in ids ==> Retained(id, resolver))
  {
    hide IsImmutableId, ParityVerdict, SensitivityVerdict, ProvenanceVerdict, EvidenceBoolean;
    AllMeans([c.primaryConfigurationId] + c.closureIds, resolver);
  }

  lemma AllMeans(ids: seq<string>, resolver: Resolver)
    ensures AllImmutable(ids) <==> forall id :: id in ids ==> IsImmutableId(id)
    ensures AllResolved(ids, resolver) <==> forall id :: id in ids ==> resolver(id)
    ensures AllSupported(ids, resolver) <==> forall id :: id in ids ==> Retained(id, resolver)
  {
    hide IsImmutableId;
    ResolvedMeans(resolver);
  }

  lemma SensitivityReports(c: Candidate, resolver: Resolver)
    ensures var check := AllChecks(c, resolver)[4];
            var given := c.sensitivityPlan.Some? && c.sensitivityComplete.Some? && c.sensitivityResults != [];
            && (Says(check, Incomplete, Some(EvidenceMissing)) && check.evidence == [] <==> !given)
            && (given ==>
                  var ids := [c.sensitivityPlan.value] + c.sensitivityResults;
                  var retained := forall id :: id in ids ==> Retained(id, resolver);
                  && (forall id :: id in check.evidence <==> id in ids && id != "")
                  && (Says(check, Blocked, Some(EvidenceUnresolved)) <==> !retained)
                  && (Says(check, Fail, Some(OutcomeFailed)) <==> retained && !c.sensitivityComplete.value)
                  && (Says(check, Pass, None) <==> retained && c.sensitivityComplete.value))
  {
    hide IsImmutableId, ParityVerdict, ClosureVerdict, ProvenanceVerdict, EvidenceBoolean, NonBlank, AllSupported;
    if c.sensitivityPlan.Some? {
      var ids := [c.sensitivityPlan.value] + c.sensitivityResults;
      AllMeans(ids, resolver);
      NonBlankHas(ids);
      NotBlankWhenRetained(ids, resolver);
    }
  }

  lemma NotBlankWhenRetained(ids: seq<string>, resolver: Resolver)
    ensures (forall id :: id in ids ==> Retained(id, resolver)) ==> forall id :: id in ids ==> id != ""
  {
  }

  lemma ProvenanceReports(c: Candidate, resolver: Resolver)
    ensures var check := AllChecks(c, resolver)[5];
            var given := c.provenance != [] && c.provenanceComplete.Some?;
            && (Says(check, Incomplete, Some(EvidenceMissing)) && check.evidence == [] <==> !given)
            && (given ==>
                  var retained := forall id :: id in c.provenance ==> Retained(id, resolver);
                  && check.evidence == c.provenance
                  && (Says(check, Blocked, Some(EvidenceUnresolved)) <==> !retained)
                  && (Says(check, Fail, Some(OutcomeFailed)) <==> retained && !c.provenanceComplete.value)
                  && (Says(check, Pass, None) <==> retained && c.provenanceComplete.value))
  {
    hide IsImmutableId, ParityVerdict, ClosureVerdict, SensitivityVerdict, EvidenceBoolean, AllSupported;
    AllMeans(c.provenance, resolver);
  }

  // ---- integration and state ----

  // A check with one piece of evidence and one outcome.
  ghost predicate BooleanSays(check: Check<Diagnostic>, evidence: Option<string>, outcome: Option<bool>, resolver: Resolver)
  {
    if evidence.None? || outcome.None? then Says(check, Incomplete, Some(EvidenceMissing)) && check.evidence == []
    else
      && check.evidence == [evidence.value]
      && (Says(check, Blocked, Some(EvidenceUnresolved)) <==> !Retained(evidence.value, resolver))
      && (Says(check, Fail, Some(OutcomeFailed)) <==> Retained(evidence.value, resolver) && !outcome.value)
      && (Says(check, Pass, None) <==> Retained(evidence.value, resolver) && outcome.value)
  }

  lemma BooleansReport(c: Candidate, resolver: Resolver)
    ensures BooleanSays(AllChecks(c, resolver)[2], c.integrationEvidence, c.usedRealBoundary, resolver)
    ensures BooleanSays(AllChecks(c, resolver)[3], c.stateEvidence, c.statePreserved, resolver)
  {
    hide IsImmutableId, ParityVerdict, ClosureVerdict, SensitivityVerdict, ProvenanceVerdict;
    ResolvedMeans(resolver);
  }

  // ---- parity ----

  // Both implementations answered, the answers are retained, and they matched.
  ghost predicate Fine(f: Fixture, resolver: Resolver) {
    && f.matched == Some(true)
    && f.pythonResult.Some? && Retained(f.pythonResult.value, resolver)
    && f.goResult.Some? && Retained(f.goResult.value, resolver)
  }

  ghost predicate Answered(f: Fixture) {
    f.matched.Some? && f.pythonResult.Some? && f.goResult.Some?
  }

  ghost predicate AnswersRetained(f: Fixture, resolver: Resolver)
    requires Answered(f)
  {
    Retained(f.pythonResult.value, resolver) && Retained(f.goResult.value, resolver)
  }

  // What a fixture that is not fine makes of the check.
  ghost predicate FaultSays(check: Check<Diagnostic>, f: Fixture, resolver: Resolver) {
    if !Answered(f) then Says(check, Incomplete, Some(ParityResultMissing))
    else if !AnswersRetained(f, resolver) then Says(check, Blocked, Some(ParityResultUnresolved))
    else if f.mismatchDiagnostic.Some? && Retained(f.mismatchDiagnostic.value, resolver) then Says(check, Fail, Some(ParityMismatch))
    else Says(check, Blocked, Some(ParityMismatchUnretained))
  }

  // The check names the fixtures in their order.
  ghost predicate ListsFixtures(check: Check<Diagnostic>, fixtures: seq<Fixture>) {
    |check.evidence| == |fixtures| && forall i :: 0 <= i < |fixtures| ==> check.evidence[i] == fixtures[i].fixtureId
  }

  ghost predicate AllDistinct(fixtures: seq<Fixture>) {
    forall i, j :: 0 <= i < j < |fixtures| ==> fixtures[i].fixtureId != fixtures[j].fixtureId
  }

  ghost predicate AllRetained(fixtures: seq<Fixture>, resolver: Resolver) {
    forall i :: 0 <= i < |fixtures| ==> Retained(fixtures[i].fixtureId, resolver)
  }

  ghost predicate Covers(fixtures: seq<Fixture>, kind: string) {
    exists i :: 0 <= i < |fixtures| && fixtures[i].caseKind == kind
  }

  ghost predicate CoversAll(fixtures: seq<Fixture>) {
    && Covers(fixtures, "valid") && Covers(fixtures, "invalid") && Covers(fixtures, "missing") && Covers(fixtures, "stale")
    && Covers(fixtures, "mixed_profile") && Covers(fixtures, "mixed_unit") && Covers(fixtures, "boundary")
    && Covers(fixtures, "exclusion") && Covers(fixtures, "tie") && Covers(fixtures, "failure")
  }

  // Of the fixtures the k-th is the first that is not fine, if there is one. The parity check asks, in this order, for
  // every kind of case, for distinct fixtures, for retained ones, and then about that fixture.
  lemma ParityReports(fixtures: seq<Fixture>, resolver: Resolver, k: nat)
    requires k <= |fixtures| && forall i :: 0 <= i < k ==> Fine(fixtures[i], resolver)
    requires k < |fixtures| ==> !Fine(fixtures[k], resolver)
    ensures var check := ParityVerdict(fixtures, resolver);
            var distinct, retained := AllDistinct(fixtures), AllRetained(fixtures, resolver);
            && ListsFixtures(check, fixtures)
            && (Says(check, Incomplete, Some(ParityCoverageMissing)) <==> !CoversAll(fixtures))
            && (Says(check, Fail, Some(ParityFixtureDuplicate)) <==> CoversAll(fixtures) && !distinct)
            && (Says(check, Blocked, Some(ParityFixtureUnresolved)) <==>
                  CoversAll(fixtures) && distinct && !retained)
            && (CoversAll(fixtures) && distinct && retained ==>
                  if k == |fixtures| then Says(check, Pass, None) else FaultSays(check, fixtures[k], resolver))
  {
    hide Resolved, Retained, NoRepeat, KindsCovered, FixturesResolved, FirstProblem, CoversAll, Fine;
    KindsMean(fixtures);
    DistinctMeans(fixtures);
    ResolvedMeans(resolver);
    AllFixturesMean(fixtures, resolver);
    FirstFault(fixtures, resolver, k);
    if k < |fixtures| {
      FaultOf(fixtures[k], resolver);
    }
  }

  lemma KindsMean(fixtures: seq<Fixture>)
    ensures KindsCovered(fixtures) <==> CoversAll(fixtures)
  {
    hide Covers, KindsCovered;
    KindsAre();
    CoversIs(fixtures);
  }

  lemma KindsAre()
    ensures REQUIRED_KINDS == ["valid", "invalid", "missing", "stale", "mixed_profile", "mixed_unit", "boundary", "exclusion",
                               "tie", "failure"]
  {
  }

  lemma CoversIs(fixtures: seq<Fixture>)
    ensures KindsCovered(fixtures) <==> forall kind :: kind in REQUIRED_KINDS ==> Covers(fixtures, kind)
  {
    hide REQUIRED_KINDS;
  }

  lemma DistinctMeans(fixtures: seq<Fixture>)
    ensures NoRepeat(FixtureIds(fixtures))
       <==> AllDistinct(fixtures)
  {
    var ids := FixtureIds(fixtures);
    assert forall i :: 0 <= i < |fixtures| ==> ids[i] == fixtures[i].fixtureId;
  }

  lemma AllFixturesMean(fixtures: seq<Fixture>, resolver: Resolver)
    ensures FixturesResolved(fixtures, resolver)
       <==> AllRetained(fixtures, resolver)
  {
    hide Resolved, Retained;
    ResolvedMeans(resolver);
  }

  lemma FaultOf(f: Fixture, resolver: Resolver)
    ensures FixtureProblem(f, resolver) == None <==> Fine(f, resolver)
    ensures !Fine(f, resolver) ==>
              FixtureProblem(f, resolver)
              == if !Answered(f) then Some((Incomplete, ParityResultMissing))
                 else if !AnswersRetained(f, resolver) then Some((Blocked, ParityResultUnresolved))
                 else if f.mismatchDiagnostic.Some? && Retained(f.mismatchDiagnostic.value, resolver) then Some((Fail, ParityMismatch))
                 else Some((Blocked, ParityMismatchUnretained))
  {
    ResolvedMeans(resolver);
    hide Resolved, Retained;
  }

  lemma {:induction false} FirstFault(fixtures: seq<Fixture>, resolver: Resolver, k: nat)
    requires k <= |fixtures| && forall i :: 0 <= i < k ==> Fine(fixtures[i], resolver)
    requires k < |fixtures| ==> !Fine(fixtures[k], resolver)
    ensures FirstProblem(fixtures, resolver) == if k < |fixtures| then FixtureProblem(fixtures[k], resolver) else None
  {
    hide FixtureProblem, Fine;
    if fixtures != [] {
      FaultOf(fixtures[0], resolver);
      if k > 0 {
        FirstFault(fixtures[1..], resolver, k - 1);
      }
    }
  }
}
