// Which diagnostic a causal-path case is given, and which verdict a matrix, read off their traces.
module CausalVerdicts {
  import opened Wrappers
  import opened Lists
  import opened DecisionContract
  import opened Assessments
  import opened CausalIndependence

  // ---- the verdict over the checks ----

  ghost predicate Has<D>(checks: seq<Check<D>>, d: Disposition) {
    exists k :: 0 <= k < |checks| && checks[k].disposition == d
  }

  // One incomplete check makes the matrix incomplete, whatever else; without one, a blocked check blocks it; without
  // either, a failed check is a violation.
  lemma VerdictSays(checks: seq<Check<Diagnostic>>)
    ensures VerdictOf(checks) == MatrixIncomplete <==> Has(checks, Incomplete)
    ensures VerdictOf(checks) == MatrixBlocked <==> Has(checks, Blocked) && !Has(checks, Incomplete)
    ensures VerdictOf(checks) == Violated <==> Has(checks, Fail) && !Has(checks, Blocked) && !Has(checks, Incomplete)
    ensures VerdictOf(checks) == Demonstrated <==> forall k :: 0 <= k < |checks| ==> checks[k].disposition == Pass
  {
    PassPrevails(checks);
    assert forall d :: HasDisposition(checks, d) <==> Has(checks, d);
    hide HasDisposition, Has;
  }

  // ---- the ids ----

  ghost predicate Names(t: Trace, id: string) {
    || id == t.traceId || id == t.snapshotId || id == t.writerId || id == t.serverId || id == t.clientId
    || id == t.opcConditionId || t.opcObservationId == Some(id)
    || id == t.consensusConfigurationId || id == t.consensusInputId || id == t.consensusDecisionId
    || t.comparisonId == Some(id) || id == t.opcLineageSnapshotId || id == t.consensusLineageSnapshotId
  }

  ghost predicate CaseNames(c: Case, id: string) {
    id in c.transitionEvidence || Names(c.baseline, id) || Names(c.varied, id)
  }

  lemma IdsAreNamed(t: Trace, id: string)
    ensures id in TraceIds(t) <==> Names(t, id)
  {
  }

  lemma CaseIdsAreNamed(c: Case)
    ensures forall id :: id in CaseIds(c) <==> CaseNames(c, id)
  {
    hide TraceIds, Names;
    forall id ensures id in CaseIds(c) <==> CaseNames(c, id) {
      IdsAreNamed(c.baseline, id);
      IdsAreNamed(c.varied, id);
    }
  }

  // ---- the traces ----

  // What is wrong with a trace, each diagnostic with its own condition; nothing else is.
  lemma TraceReports(t: Trace, resolver: Resolver)
    requires forall id :: Names(t, id) ==> IsImmutableId(id) && resolver(id)
    ensures var e := TraceError(t, resolver);
            var known := t.opcState in {"available", "unavailable", "delayed", "newly_read"};
            var newer := t.opcState in {"available", "newly_read"};
            var sound := if newer then t.opcEvidenceValid && t.opcObservationId.Some? else !t.opcEvidenceValid && t.opcObservationId.None?;
            && (e == Some((Incomplete, StateUnknown)) <==> !known)
            && (e == Some((Fail, FallbackUsed)) <==> known && t.opcFallback != "none")
            && (e == Some((Fail, ValidEvidenceIncoherent)) <==> known && t.opcFallback == "none" && newer && !sound)
            && (e == Some((Fail, UnavailableEvidenceFabricated)) <==> known && t.opcFallback == "none" && !newer && !sound)
            && (e == Some((Fail, LineageBroken)) <==>
                  && known && t.opcFallback == "none" && sound
                  && !(t.opcLineageSnapshotId == t.snapshotId == t.consensusLineageSnapshotId))
            && (e == None <==>
                  && known && t.opcFallback == "none" && sound
                  && t.opcLineageSnapshotId == t.snapshotId == t.consensusLineageSnapshotId)
  {
    CleanIds(t, resolver);
    hide AllImmutable, AllResolved, TraceIds, Names, IsImmutableId;
    StatesDiffer();
  }

  lemma CleanIds(t: Trace, resolver: Resolver)
    requires forall id :: Names(t, id) ==> IsImmutableId(id) && resolver(id)
    ensures AllImmutable(TraceIds(t)) && AllResolved(TraceIds(t), resolver)
  {
    hide TraceIds, Names, IsImmutableId;
    forall i | 0 <= i < |TraceIds(t)| ensures Names(t, TraceIds(t)[i]) {
      IdsAreNamed(t, TraceIds(t)[i]);
    }
  }

  ghost predicate Clean(c: Case, resolver: Resolver) {
    && IsImmutableId(c.caseId) && c.transitionEvidence != []
    && forall id :: CaseNames(c, id) ==> IsImmutableId(id) && resolver(id)
  }

  // ---- the variation ----

  ghost predicate ConsensusDiffers(a: Trace, b: Trace) {
    || a.consensusConfigurationId != b.consensusConfigurationId
    || a.consensusInputId != b.consensusInputId
    || a.consensusDecisionId != b.consensusDecisionId
  }

  // The varied side shows where only the other side may.
  ghost predicate Leaks(c: Case) {
    var a, b := c.baseline, c.varied;
    || (c.variation == "consensus_only" && (a.snapshotId != b.snapshotId || a.opcObservationId != b.opcObservationId))
    || (c.variation == "opc_only" && (a.snapshotId != b.snapshotId || ConsensusDiffers(a, b)))
    || (c.variation == "opc_unavailable"
        && (b.opcState == "available" || a.snapshotId != b.snapshotId || ConsensusDiffers(a, b)))
  }

  // What was to be varied was not.
  ghost predicate Unvaried(c: Case) {
    var a, b := c.baseline, c.varied;
    || (c.variation == "consensus_only"
        && a.consensusConfigurationId == b.consensusConfigurationId && a.consensusInputId == b.consensusInputId)
    || (c.variation == "opc_only" && a.opcConditionId == b.opcConditionId)
    || (c.variation == "common_source" && a.snapshotId == b.snapshotId)
  }

  // Between coherent traces, each diagnostic of a variation has its own condition; a leak is a failure, and a variation
  // that is not there, or not known, leaves the case incomplete.
  lemma VariationReports(c: Case)
    requires Coherent(c.varied)
    ensures var e, a, b := VariationError(c), c.baseline, c.varied;
            && (e == Some((Fail, ConsensusChangeLeaked)) <==> c.variation == "consensus_only" && Leaks(c))
            && (e == Some((Fail, OpcChangeLeaked)) <==> c.variation == "opc_only" && Leaks(c))
            && (e == Some((Fail, OutageStateUndeclared)) <==> c.variation == "opc_unavailable" && b.opcState == "available")
            && (e == Some((Fail, OutageLeaked)) <==>
                  && c.variation == "opc_unavailable" && b.opcState != "available"
                  && (a.snapshotId != b.snapshotId || ConsensusDiffers(a, b)))
            && (e == Some((Incomplete, ConsensusVariationNotObserved)) <==>
                  c.variation == "consensus_only" && Unvaried(c) && !Leaks(c))
            && (e == Some((Incomplete, OpcVariationNotObserved)) <==> c.variation == "opc_only" && Unvaried(c) && !Leaks(c))
            && (e == Some((Incomplete, CommonSourceVariationNotObserved)) <==> c.variation == "common_source" && Unvaried(c))
            && (e == Some((Incomplete, VariationUnknown)) <==>
                  c.variation !in {"consensus_only", "opc_only", "common_source", "opc_unavailable"})
            && (e == None <==>
                  && c.variation in {"consensus_only", "opc_only", "common_source", "opc_unavailable"}
                  && !Leaks(c) && !Unvaried(c))
            && (e.Some? ==> e.value.0 == if Leaks(c) then Fail else Incomplete)
  {
    StatesDiffer();
    VariationsDiffer();
    FourVariations();
  }

  // ---- the case ----

  // A case is checked in this order: its evidence, its ids, their resolution, its two traces, its variation; the first
  // complaint is the check's diagnostic.
  lemma CaseReports(c: Case, resolver: Resolver)
    ensures var check := CaseCheck(c, resolver);
            && check.checkId == c.caseId && (check.disposition == Pass <==> check.diagnostic == None)
            && (check.diagnostic == Some(CaseEvidenceMissing) <==> !IsImmutableId(c.caseId) || c.transitionEvidence == [])
            && (check.diagnostic == Some(CaseIdMissing) <==>
                  && IsImmutableId(c.caseId) && c.transitionEvidence != [] && exists id :: CaseNames(c, id) && !IsImmutableId(id))
            && (check.diagnostic == Some(CaseIdUnresolved) <==>
                  && IsImmutableId(c.caseId) && c.transitionEvidence != [] && (forall id :: CaseNames(c, id) ==> IsImmutableId(id))
                  && exists id :: CaseNames(c, id) && !resolver(id))
            && (Clean(c, resolver) ==>
                  && (forall id :: id in check.evidence <==> CaseNames(c, id))
                  && (!Coherent(c.baseline) ==> SaidBy(check, TraceError(c.baseline, resolver)))
                  && (Coherent(c.baseline) && !Coherent(c.varied) ==> SaidBy(check, TraceError(c.varied, resolver)))
                  && (Coherent(c.baseline) && Coherent(c.varied) ==> SaidBy(check, VariationError(c))))
            && (check.diagnostic in {Some(CaseEvidenceMissing), Some(CaseIdMissing)} ==> check.disposition == Incomplete)
            && (check.diagnostic == Some(CaseIdUnresolved) ==> check.disposition == Blocked)
  {
    hide CaseIds, CaseNames, IsImmutableId, VariationError, TraceIds, TraceError, Coherent, NonBlank;
    CaseIdsAreNamed(c);
    IdsOfCase(c, resolver);
    CaseIdsCover(c, resolver);
    if AllImmutable(CaseIds(c)) && AllResolved(CaseIds(c), resolver) {
      TraceErrorNone(c.baseline, resolver);
      TraceErrorNone(c.varied, resolver);
      TraceErrorCodes(c.baseline, resolver);
      TraceErrorCodes(c.varied, resolver);
      VariationErrorCodes(c);
    }
  }

  ghost predicate SaidBy(check: Check<Diagnostic>, complaint: Option<(Disposition, Diagnostic)>) {
    match complaint
    case Some((disposition, diagnostic)) => check.disposition == disposition && check.diagnostic == Some(diagnostic)
    case None => check.disposition == Pass && check.diagnostic == None
  }

  lemma IdsOfCase(c: Case, resolver: Resolver)
    ensures AllImmutable(CaseIds(c)) <==> forall id :: id in CaseIds(c) ==> IsImmutableId(id)
    ensures AllResolved(CaseIds(c), resolver) <==> forall id :: id in CaseIds(c) ==> resolver(id)
  {
    hide CaseIds, IsImmutableId;
  }

  lemma TraceErrorCodes(t: Trace, resolver: Resolver)
    ensures TraceError(t, resolver).Some? ==> TraceError(t, resolver).value.1 !in {CaseEvidenceMissing, CaseIdMissing, CaseIdUnresolved}
  {
    hide AllImmutable, AllResolved, TraceIds;
  }

  lemma VariationErrorCodes(c: Case)
    ensures VariationError(c).Some? ==> VariationError(c).value.1 !in {CaseEvidenceMissing, CaseIdMissing, CaseIdUnresolved}
  {
  }

  // ---- the matrix ----

  // The checks are those of the cases, in their order, and after them an incomplete one for a repeated variation and
  // an incomplete one for a missing variation.
  lemma CoverageReports(cases: seq<Case>, resolver: Resolver)
    ensures var checks, n := AllChecks(cases, resolver), |cases|;
            var repeated := exists i, j :: 0 <= i < j < n && cases[i].variation == cases[j].variation;
            var missing := exists v :: v in {"consensus_only", "opc_only", "common_source", "opc_unavailable"}
                                       && v !in Elements(Kinds(cases));
            && |checks| == n + (if repeated then 1 else 0) + (if missing then 1 else 0)
            && (forall i :: 0 <= i < n ==> checks[i] == CaseCheck(cases[i], resolver))
            && (repeated ==> checks[n] == Check("matrix_coverage", Incomplete, Some(VariationDuplicate), []))
            && (missing ==> checks[|checks| - 1] == Check("matrix_coverage", Incomplete, Some(VariationCoverageMissing), []))
  {
    hide CaseCheck, NoRepeat, Variations;
    var kinds := Kinds(cases);
    RepeatedKinds(cases);
    FourVariations();
    assert Variations() <= Elements(kinds) <==> !exists v :: v in Variations() && v !in Elements(kinds);
  }

  lemma FourVariations()
    ensures Variations() == {"consensus_only", "opc_only", "common_source", "opc_unavailable"}
  {
  }

  lemma RepeatedKinds(cases: seq<Case>)
    ensures NoRepeat(Kinds(cases)) <==> !exists i, j :: 0 <= i < j < |cases| && cases[i].variation == cases[j].variation
  {
    var kinds := Kinds(cases);
    assert forall i :: 0 <= i < |cases| ==> kinds[i] == cases[i].variation;
  }

  // Four clean cases, one for each variation, over coherent traces: the matrix is incomplete if some variation is not
  // there in a case that does not leak, otherwise violated if some case leaks, otherwise demonstrated.
  lemma ControlledMatrix(cases: seq<Case>, resolver: Resolver)
    requires |cases| == 4 && Elements(Kinds(cases)) == {"consensus_only", "opc_only", "common_source", "opc_unavailable"}
    requires forall c :: c in cases ==> Clean(c, resolver) && Coherent(c.baseline) && Coherent(c.varied)
    ensures Assess(cases, resolver)
         == if exists c :: c in cases && Unvaried(c) && !Leaks(c) then MatrixIncomplete
            else if exists c :: c in cases && Leaks(c) then Violated
            else Demonstrated
  {
    hide CaseCheck, Clean, Coherent, Leaks, Unvaried, NoRepeat, VerdictOf, AllChecks, Kinds, Has;
    ControlledChecks(cases, resolver);
    var checks := AllChecks(cases, resolver);
    VerdictSays(checks);
    FromCheckToCase(cases, checks, Incomplete);
    FromCheckToCase(cases, checks, Fail);
    FromCheckToCase(cases, checks, Blocked);
  }

  ghost function Comes(c: Case): Disposition {
    if Leaks(c) then Fail else if Unvaried(c) then Incomplete else Pass
  }

  lemma FromCheckToCase(cases: seq<Case>, checks: seq<Check<Diagnostic>>, d: Disposition)
    requires |checks| == |cases| && forall i :: 0 <= i < |cases| ==> checks[i].disposition == Comes(cases[i])
    ensures Has(checks, d) <==> exists c :: c in cases && Comes(c) == d
    ensures (forall i :: 0 <= i < |checks| ==> checks[i].disposition == Pass) <==> forall c :: c in cases ==> Comes(c) == Pass
  {
    hide Comes;
    if Has(checks, d) {
      var i :| 0 <= i < |checks| && checks[i].disposition == d;
      assert cases[i] in cases;
    }
    forall c | c in cases ensures exists i :: 0 <= i < |cases| && cases[i] == c && checks[i].disposition == Comes(c) {
      var i :| 0 <= i < |cases| && cases[i] == c;
    }
    forall i | 0 <= i < |cases| ensures cases[i] in cases {
    }
  }

  lemma ControlledChecks(cases: seq<Case>, resolver: Resolver)
    requires |cases| == 4 && Elements(Kinds(cases)) == {"consensus_only", "opc_only", "common_source", "opc_unavailable"}
    requires forall c :: c in cases ==> Clean(c, resolver) && Coherent(c.baseline) && Coherent(c.varied)
    ensures |AllChecks(cases, resolver)| == 4
    ensures forall i :: 0 <= i < 4 ==> AllChecks(cases, resolver)[i].disposition == Comes(cases[i])
  {
    hide CaseCheck, Clean, Coherent, Comes, NoRepeat;
    DistinctCount(Kinds(cases));
    VariationsAreFour();
    FourVariations();
    hide Variations;
    forall i | 0 <= i < 4 ensures CaseCheck(cases[i], resolver).disposition == Comes(cases[i]) {
      assert cases[i] in cases && Kinds(cases)[i] in Elements(Kinds(cases));
      CleanCase(cases[i], resolver);
    }
  }

  lemma CleanCase(c: Case, resolver: Resolver)
    requires Clean(c, resolver) && Coherent(c.baseline) && Coherent(c.varied)
    requires c.variation in {"consensus_only", "opc_only", "common_source", "opc_unavailable"}
    ensures CaseCheck(c, resolver).disposition == Comes(c)
  {
    hide CaseCheck, Clean, Coherent, Leaks, Unvaried, VariationError, TraceError, CaseNames, IsImmutableId;
    CaseReports(c, resolver);
    VariationReports(c);
  }
}
