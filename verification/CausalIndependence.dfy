// Causal-path independence: the check of one controlled case, and the verdict on a matrix of cases.
module CausalIndependence {
  import opened Wrappers
  import opened Lists
  import opened DecisionContract
  import opened Assessments

  const CONSENSUS_ONLY := "consensus_only"
  const OPC_ONLY := "opc_only"
  const COMMON_SOURCE := "common_source"
  const OPC_UNAVAILABLE := "opc_unavailable"

  function Variations(): set<string> {
    {CONSENSUS_ONLY, OPC_ONLY, COMMON_SOURCE, OPC_UNAVAILABLE}
  }

  const AVAILABLE := "available"
  const UNAVAILABLE := "unavailable"
  const DELAYED := "delayed"
  const NEWLY_READ := "newly_read"
  const NO_FALLBACK := "none"

  datatype Verdict = Demonstrated | Violated | MatrixBlocked | MatrixIncomplete

  datatype Diagnostic =
    | TraceIdMissing | TraceIdUnresolved | StateUnknown | FallbackUsed | ValidEvidenceIncoherent
    | UnavailableEvidenceFabricated | LineageBroken
    | CaseEvidenceMissing | CaseIdMissing | CaseIdUnresolved
    | ConsensusChangeLeaked | ConsensusVariationNotObserved | OpcChangeLeaked | OpcVariationNotObserved
    | CommonSourceVariationNotObserved | OutageStateUndeclared | OutageLeaked | VariationUnknown
    | VariationDuplicate | VariationCoverageMissing

  datatype Trace = Trace(
    traceId: string, snapshotId: string, writerId: string, serverId: string, clientId: string,
    opcConditionId: string, opcState: string, opcObservationId: Option<string>, opcEvidenceValid: bool, opcFallback: string,
    consensusConfigurationId: string, consensusInputId: string, consensusDecisionId: string,
    comparisonId: Option<string>, opcLineageSnapshotId: string, consensusLineageSnapshotId: string)

  datatype Case = Case(caseId: string, variation: string, baseline: Trace, varied: Trace, transitionEvidence: seq<string>)

  function Present(id: Option<string>): seq<string> {
    if id.None? then [] else [id.value]
  }

  function TraceIds(t: Trace): seq<string> {
    [t.traceId, t.snapshotId, t.writerId, t.serverId, t.clientId, t.opcConditionId] + Present(t.opcObservationId)
    + [t.consensusConfigurationId, t.consensusInputId, t.consensusDecisionId] + Present(t.comparisonId)
    + [t.opcLineageSnapshotId, t.consensusLineageSnapshotId]
  }

  predicate KnownState(state: string) {
    state == AVAILABLE || state == UNAVAILABLE || state == DELAYED || state == NEWLY_READ
  }

  function TraceError(t: Trace, resolver: Resolver): (r: Option<(Disposition, Diagnostic)>)
    ensures r.Some? ==> r.value.0 != Pass
  {
    if !AllImmutable(TraceIds(t)) then Some((Incomplete, TraceIdMissing))
    else if !AllResolved(TraceIds(t), resolver) then Some((Blocked, TraceIdUnresolved))
    else if !KnownState(t.opcState) then Some((Incomplete, StateUnknown))
    else if t.opcFallback != NO_FALLBACK then Some((Fail, FallbackUsed))
    else if t.opcState == AVAILABLE || t.opcState == NEWLY_READ then
      if !t.opcEvidenceValid || t.opcObservationId.None? then Some((Fail, ValidEvidenceIncoherent))
      else LineageError(t)
    else if t.opcEvidenceValid || t.opcObservationId.Some? then Some((Fail, UnavailableEvidenceFabricated))
    else LineageError(t)
  }

  function LineageError(t: Trace): (r: Option<(Disposition, Diagnostic)>)
    ensures r.Some? ==> r.value.0 != Pass
  {
    if t.opcLineageSnapshotId != t.snapshotId || t.consensusLineageSnapshotId != t.snapshotId
    then Some((Fail, LineageBroken)) else None
  }

  function CaseIds(c: Case): seq<string> {
    c.transitionEvidence + TraceIds(c.baseline) + TraceIds(c.varied)
  }

  predicate SameConsensus(a: Trace, b: Trace) {
    && a.consensusConfigurationId == b.consensusConfigurationId
    && a.consensusInputId == b.consensusInputId
    && a.consensusDecisionId == b.consensusDecisionId
  }

  // The non-interference condition of each kind of variation.
  function VariationError(c: Case): (r: Option<(Disposition, Diagnostic)>)
    ensures r.Some? ==> r.value.0 != Pass
  {
    var base, varied := c.baseline, c.varied;
    if c.variation == CONSENSUS_ONLY then
      if base.snapshotId != varied.snapshotId || base.opcObservationId != varied.opcObservationId
      then Some((Fail, ConsensusChangeLeaked))
      else if base.consensusConfigurationId == varied.consensusConfigurationId
              && base.consensusInputId == varied.consensusInputId
      then Some((Incomplete, ConsensusVariationNotObserved))
      else None
    else if c.variation == OPC_ONLY then
      if base.snapshotId != varied.snapshotId || !SameConsensus(base, varied) then Some((Fail, OpcChangeLeaked))
      else if base.opcConditionId == varied.opcConditionId then Some((Incomplete, OpcVariationNotObserved))
      else None
    else if c.variation == COMMON_SOURCE then
      if base.snapshotId == varied.snapshotId then Some((Incomplete, CommonSourceVariationNotObserved)) else None
    else if c.variation == OPC_UNAVAILABLE then
      if varied.opcState != UNAVAILABLE && varied.opcState != DELAYED && varied.opcState != NEWLY_READ
      then Some((Fail, OutageStateUndeclared))
      else if base.snapshotId != varied.snapshotId || !SameConsensus(base, varied) then Some((Fail, OutageLeaked))
      else None
    else Some((Incomplete, VariationUnknown))
  }

  function CaseCheck(c: Case, resolver: Resolver): Check<Diagnostic> {
    if !IsImmutableId(c.caseId) || c.transitionEvidence == [] then
      Check(c.caseId, Incomplete, Some(CaseEvidenceMissing), [])
    else if !AllImmutable(CaseIds(c)) then Check(c.caseId, Incomplete, Some(CaseIdMissing), NonBlank(CaseIds(c)))
    else if !AllResolved(CaseIds(c), resolver) then Check(c.caseId, Blocked, Some(CaseIdUnresolved), CaseIds(c))
    else
      var first := TraceError(c.baseline, resolver);
      var error := if first.Some? then first else TraceError(c.varied, resolver);
      var verdict := if error.Some? then error else VariationError(c);
      match verdict
      case Some((disposition, diagnostic)) => Check(c.caseId, disposition, Some(diagnostic), CaseIds(c))
      case None => Check(c.caseId, Pass, None, CaseIds(c))
  }

  // ---- the matrix ----

  function CaseChecks(cases: seq<Case>, resolver: Resolver): (r: seq<Check<Diagnostic>>)
    ensures |r| == |cases|
  {
    seq(|cases|, i requires 0 <= i < |cases| => CaseCheck(cases[i], resolver))
  }

  function Kinds(cases: seq<Case>): (r: seq<string>)
    ensures |r| == |cases|
  {
    seq(|cases|, i requires 0 <= i < |cases| => cases[i].variation)
  }

  function CoverageChecks(kinds: seq<string>): seq<Check<Diagnostic>> {
    (if NoRepeat(kinds) then [] else [Check("matrix_coverage", Incomplete, Some(VariationDuplicate), [])])
    + (if Variations() <= Elements(kinds) then []
       else [Check("matrix_coverage", Incomplete, Some(VariationCoverageMissing), [])])
  }

  function AllChecks(cases: seq<Case>, resolver: Resolver): seq<Check<Diagnostic>> {
    CaseChecks(cases, resolver) + CoverageChecks(Kinds(cases))
  }

  function VerdictOf(checks: seq<Check<Diagnostic>>): Verdict {
    match Prevailing(checks)
    case Incomplete => MatrixIncomplete
    case Blocked => MatrixBlocked
    case Fail => Violated
    case Pass => Demonstrated
  }

  function Assess(cases: seq<Case>, resolver: Resolver): Verdict {
    VerdictOf(AllChecks(cases, resolver))
  }

  // The assessment as it appends its checks.
  method AssessCausalPathIndependence(cases: seq<Case>, resolver: Resolver) returns (checks: seq<Check<Diagnostic>>, verdict: Verdict)
    ensures checks == AllChecks(cases, resolver)
    ensures verdict == Assess(cases, resolver)
  {
    hide CaseCheck, VerdictOf, NoRepeat, Variations;
    checks := [];
    var kinds: seq<string> := [];
    for i := 0 to |cases|
      invariant checks == CaseChecks(cases[..i], resolver)
      invariant kinds == Kinds(cases[..i])
    {
      checks := checks + [CaseCheck(cases[i], resolver)];
      kinds := kinds + [cases[i].variation];
    }
    assert cases[..|cases|] == cases;
    var distinct := set x | x in kinds;
    assert distinct == Elements(kinds);
    DistinctCount(kinds);
    if |kinds| != |distinct| {
      checks := checks + [Check("matrix_coverage", Incomplete, Some(VariationDuplicate), [])];
    }
    var missing := Variations() - distinct;
    NothingMissing(Variations(), distinct);
    if missing != {} {
      checks := checks + [Check("matrix_coverage", Incomplete, Some(VariationCoverageMissing), [])];
    }
    verdict := VerdictOf(checks);
  }

  lemma NothingMissing(required: set<string>, present: set<string>)
    ensures required - present == {} <==> required <= present
  {
    if required - present == {} {
      forall x | x in required ensures x in present {
        assert x !in required - present;
      }
    }
  }

  // ---- what the verdict means ----

  predicate Passes(c: Case, resolver: Resolver) {
    CaseCheck(c, resolver).disposition == Pass
  }

  lemma PassedVariationIsKnown(c: Case, resolver: Resolver)
    requires Passes(c, resolver)
    ensures c.variation in Variations()
  {
    hide TraceError, AllImmutable, AllResolved, CaseIds, IsImmutableId;
    assert VariationError(c) == None;
  }

  lemma VariationsAreFour()
    ensures |Variations()| == 4
  {
    assert CONSENSUS_ONLY[0] == 'c' && OPC_ONLY[0] == 'o' && COMMON_SOURCE[0] == 'c' && OPC_UNAVAILABLE[0] == 'o';
    assert |CONSENSUS_ONLY| != |COMMON_SOURCE| && |OPC_ONLY| != |OPC_UNAVAILABLE|;
  }

  lemma CheckAt(cases: seq<Case>, resolver: Resolver, i: nat)
    requires i < |cases|
    ensures AllChecks(cases, resolver)[i] == CaseCheck(cases[i], resolver)
  {
  }

  // The verdict is "demonstrated" exactly when every check passed and coverage adds nothing.
  lemma DemonstratedMeansAllPass(cases: seq<Case>, resolver: Resolver)
    ensures Assess(cases, resolver) == Demonstrated
       <==> CoverageChecks(Kinds(cases)) == [] && forall i :: 0 <= i < |cases| ==> Passes(cases[i], resolver)
  {
    hide CaseCheck;
    var checks, kinds := AllChecks(cases, resolver), Kinds(cases);
    PassPrevails(checks);
    forall i | 0 <= i < |cases| ensures checks[i] == CaseCheck(cases[i], resolver) {
      CheckAt(cases, resolver, i);
    }
    if CoverageChecks(kinds) != [] {
      assert checks[|cases|] == CoverageChecks(kinds)[0];
    }
  }

  // "Demonstrated" means exactly four cases, one for each variation, each passing its own check.
  lemma DemonstratedExactlyWhen(cases: seq<Case>, resolver: Resolver)
    ensures Assess(cases, resolver) == Demonstrated
       <==> |cases| == 4 && Variations() == Elements(Kinds(cases)) && forall i :: 0 <= i < |cases| ==> Passes(cases[i], resolver)
  {
    hide CaseCheck, Assess, Passes, Variations;
    var kinds := Kinds(cases);
    VariationsAreFour();
    DistinctCount(kinds);
    DemonstratedMeansAllPass(cases, resolver);
    if forall i :: 0 <= i < |cases| ==> Passes(cases[i], resolver) {
      forall x | x in Elements(kinds) ensures x in Variations() {
        var i :| 0 <= i < |kinds| && kinds[i] == x;
        PassedVariationIsKnown(cases[i], resolver);
      }
      assert Elements(kinds) <= Variations();
      if CoverageChecks(kinds) == [] {
        assert Elements(kinds) == Variations();
      }
    }
  }

  // Coverage is met and every earlier check passed, so one more check decides.
  lemma OneMoreDecides(passed: seq<Check<Diagnostic>>, last: Check<Diagnostic>)
    requires forall i :: 0 <= i < |passed| ==> passed[i].disposition == Pass
    ensures VerdictOf(passed + [last])
         == match last.disposition
            case Incomplete => MatrixIncomplete
            case Blocked => MatrixBlocked
            case Fail => Violated
            case Pass => Demonstrated
  {
    OneDecides(passed + [last], |passed|);
  }

  lemma AnyIncompleteDecides(checks: seq<Check<Diagnostic>>, i: nat)
    requires i < |checks| && checks[i].disposition == Incomplete
    ensures VerdictOf(checks) == MatrixIncomplete
  {
  }

  // ---- order ----

  lemma CheckSomewhere(cases: seq<Case>, resolver: Resolver, d: Disposition)
    ensures HasDisposition(AllChecks(cases, resolver), d)
       <==> (exists c :: c in cases && CaseCheck(c, resolver).disposition == d)
            || (d == Incomplete && CoverageChecks(Kinds(cases)) != [])
  {
    hide CaseCheck;
    var checks, coverage := AllChecks(cases, resolver), CoverageChecks(Kinds(cases));
    if HasDisposition(checks, d) {
      var i :| 0 <= i < |checks| && checks[i].disposition == d;
      if i < |cases| {
        assert cases[i] in cases && CaseCheck(cases[i], resolver).disposition == d;
      } else {
        assert checks[i] == coverage[i - |cases|];
      }
    }
    if exists c :: c in cases && CaseCheck(c, resolver).disposition == d {
      var c :| c in cases && CaseCheck(c, resolver).disposition == d;
      var i :| 0 <= i < |cases| && cases[i] == c;
      CheckAt(cases, resolver, i);
    }
    if d == Incomplete && coverage != [] {
      assert checks[|cases|] == coverage[0];
    }
  }

  lemma CoverageShuffled(cases: seq<Case>, shuffled: seq<Case>)
    requires |cases| == |shuffled| && forall c :: c in cases <==> c in shuffled
    ensures CoverageChecks(Kinds(cases)) == CoverageChecks(Kinds(shuffled))
  {
    hide Variations, NoRepeat;
    DistinctCount(Kinds(cases));
    DistinctCount(Kinds(shuffled));
    forall x ensures x in Elements(Kinds(cases)) <==> x in Elements(Kinds(shuffled)) {
      KindOfSomeCase(cases, x);
      KindOfSomeCase(shuffled, x);
    }
    assert Elements(Kinds(cases)) == Elements(Kinds(shuffled));
  }

  lemma KindOfSomeCase(cases: seq<Case>, x: string)
    ensures x in Elements(Kinds(cases)) <==> exists c :: c in cases && c.variation == x
  {
    if x in Elements(Kinds(cases)) {
      var i :| 0 <= i < |cases| && Kinds(cases)[i] == x;
      assert cases[i] in cases;
    }
    if exists c :: c in cases && c.variation == x {
      var c :| c in cases && c.variation == x;
      var i :| 0 <= i < |cases| && cases[i] == c;
      assert Kinds(cases)[i] == x;
    }
  }

  // The verdict does not depend on the order of the cases.
  lemma VerdictIgnoresOrder(cases: seq<Case>, shuffled: seq<Case>, resolver: Resolver)
    requires multiset(cases) == multiset(shuffled)
    ensures Assess(cases, resolver) == Assess(shuffled, resolver)
  {
    hide CaseCheck, AllChecks, CoverageChecks, HasDisposition;
    forall c ensures c in cases <==> c in shuffled {
      assert c in multiset(cases) <==> c in multiset(shuffled);
    }
    assert |cases| == |multiset(cases)| == |multiset(shuffled)| == |shuffled|;
    CoverageShuffled(cases, shuffled);
    forall d: Disposition ensures HasDisposition(AllChecks(cases, resolver), d) <==> HasDisposition(AllChecks(shuffled, resolver), d) {
      CheckSomewhere(cases, resolver, d);
      CheckSomewhere(shuffled, resolver, d);
    }
  }

  // ---- resolver ----

  lemma PassIsMonotone(c: Case, resolver: Resolver, wider: Resolver)
    requires AcceptsMore(resolver, wider) && Passes(c, resolver)
    ensures Passes(c, wider)
  {
    hide AllImmutable, CaseIds, IsImmutableId, VariationError, TraceIds;
  }

  // Accepting more ids never takes a demonstration away.
  lemma DemonstrationIsMonotone(cases: seq<Case>, resolver: Resolver, wider: Resolver)
    requires AcceptsMore(resolver, wider) && Assess(cases, resolver) == Demonstrated
    ensures Assess(cases, wider) == Demonstrated
  {
    hide Assess, Passes, AcceptsMore;
    DemonstratedExactlyWhen(cases, resolver);
    DemonstratedExactlyWhen(cases, wider);
    forall i | 0 <= i < |cases| ensures Passes(cases[i], wider) {
      PassIsMonotone(cases[i], resolver, wider);
    }
  }

  // ---- what a passing case shows ----

  // Fresh OPC evidence is present exactly when its state says so, nothing replaced it, and both
  // branches come from the trace's own snapshot.
  predicate Coherent(t: Trace) {
    && t.opcFallback == NO_FALLBACK
    && (t.opcState == AVAILABLE || t.opcState == UNAVAILABLE || t.opcState == DELAYED || t.opcState == NEWLY_READ)
    && (t.opcEvidenceValid <==> t.opcState == AVAILABLE || t.opcState == NEWLY_READ)
    && (t.opcObservationId.Some? <==> t.opcEvidenceValid)
    && t.opcLineageSnapshotId == t.snapshotId == t.consensusLineageSnapshotId
  }

  predicate NonInterfering(c: Case) {
    var base, varied := c.baseline, c.varied;
    || (c.variation == CONSENSUS_ONLY && base.snapshotId == varied.snapshotId
        && base.opcObservationId == varied.opcObservationId
        && (base.consensusConfigurationId != varied.consensusConfigurationId
            || base.consensusInputId != varied.consensusInputId))
    || (c.variation == OPC_ONLY && base.snapshotId == varied.snapshotId && SameConsensus(base, varied)
        && base.opcConditionId != varied.opcConditionId)
    || (c.variation == COMMON_SOURCE && base.snapshotId != varied.snapshotId)
    || (c.variation == OPC_UNAVAILABLE && base.snapshotId == varied.snapshotId && SameConsensus(base, varied)
        && varied.opcState != AVAILABLE)
  }

  lemma TraceErrorNone(t: Trace, resolver: Resolver)
    requires AllImmutable(TraceIds(t)) && AllResolved(TraceIds(t), resolver)
    ensures TraceError(t, resolver) == None <==> Coherent(t)
    ensures TraceError(t, resolver).Some? ==> TraceError(t, resolver).value.1 !in {TraceIdMissing, TraceIdUnresolved}
  {
    hide AllImmutable, AllResolved, TraceIds;
    StatesDiffer();
  }

  lemma StatesDiffer()
    ensures AVAILABLE != UNAVAILABLE && AVAILABLE != DELAYED && AVAILABLE != NEWLY_READ
    ensures NEWLY_READ != UNAVAILABLE && NEWLY_READ != DELAYED && UNAVAILABLE != DELAYED
  {
    assert AVAILABLE[0] == 'a' && UNAVAILABLE[0] == 'u' && DELAYED[0] == 'd' && NEWLY_READ[0] == 'n';
  }

  lemma VariationErrorNone(c: Case)
    requires Coherent(c.varied)
    ensures VariationError(c) == None <==> NonInterfering(c)
  {
    hide SameConsensus;
    StatesDiffer();
    VariationsDiffer();
  }

  lemma VariationsDiffer()
    ensures CONSENSUS_ONLY != OPC_ONLY && CONSENSUS_ONLY != COMMON_SOURCE && CONSENSUS_ONLY != OPC_UNAVAILABLE
    ensures OPC_ONLY != COMMON_SOURCE && OPC_ONLY != OPC_UNAVAILABLE && COMMON_SOURCE != OPC_UNAVAILABLE
  {
    assert CONSENSUS_ONLY[0] == 'c' && OPC_ONLY[0] == 'o' && COMMON_SOURCE[0] == 'c' && OPC_UNAVAILABLE[0] == 'o';
    assert |CONSENSUS_ONLY| != |COMMON_SOURCE| && |OPC_ONLY| != |OPC_UNAVAILABLE|;
  }

  lemma CaseIdsCover(c: Case, resolver: Resolver)
    ensures AllImmutable(CaseIds(c)) ==> AllImmutable(TraceIds(c.baseline)) && AllImmutable(TraceIds(c.varied))
    ensures AllResolved(CaseIds(c), resolver) ==> AllResolved(TraceIds(c.baseline), resolver) && AllResolved(TraceIds(c.varied), resolver)
  {
    hide TraceIds, IsImmutableId;
    var ids, m, n := CaseIds(c), |c.transitionEvidence|, |TraceIds(c.baseline)|;
    assert forall i :: 0 <= i < n ==> ids[m + i] == TraceIds(c.baseline)[i];
    assert forall i :: 0 <= i < |TraceIds(c.varied)| ==> ids[m + n + i] == TraceIds(c.varied)[i];
  }

  // A case passes exactly when its identities are immutable and resolved, its two traces are
  // coherent, and the varied branch left the other one alone.
  lemma PassesExactlyWhen(c: Case, resolver: Resolver)
    ensures Passes(c, resolver)
       <==> && IsImmutableId(c.caseId) && c.transitionEvidence != []
            && AllImmutable(CaseIds(c)) && AllResolved(CaseIds(c), resolver)
            && Coherent(c.baseline) && Coherent(c.varied) && NonInterfering(c)
  {
    hide AllImmutable, AllResolved, CaseIds, IsImmutableId, VariationError, TraceIds, TraceError, Coherent, NonInterfering,
         NonBlank;
    CaseIdsCover(c, resolver);
    if AllImmutable(CaseIds(c)) && AllResolved(CaseIds(c), resolver) {
      TraceErrorNone(c.baseline, resolver);
      TraceErrorNone(c.varied, resolver);
      if Coherent(c.varied) {
        VariationErrorNone(c);
      }
    }
  }

  // The trace check's own identity diagnostics are never reported: the case check sees such ids first.
  lemma TraceIdDiagnosticsNeverAppear(c: Case, resolver: Resolver)
    ensures CaseCheck(c, resolver).diagnostic != Some(TraceIdMissing)
    ensures CaseCheck(c, resolver).diagnostic != Some(TraceIdUnresolved)
  {
    hide AllImmutable, AllResolved, CaseIds, IsImmutableId, TraceIds, TraceError, NonBlank;
    CaseIdsCover(c, resolver);
    if AllImmutable(CaseIds(c)) && AllResolved(CaseIds(c), resolver) {
      TraceErrorNone(c.baseline, resolver);
      TraceErrorNone(c.varied, resolver);
    }
  }

  // What a case of an unlisted variation comes to, by its ids, the resolver and its two traces.
  function UnlistedDisposition(c: Case, resolver: Resolver): Disposition {
    if !IsImmutableId(c.caseId) || c.transitionEvidence == [] || !AllImmutable(CaseIds(c)) then Incomplete
    else if !AllResolved(CaseIds(c), resolver) then Blocked
    else
      var first := if Coherent(c.baseline) then c.varied else c.baseline;
      if !Coherent(first) && KnownState(first.opcState) then Fail else Incomplete
  }

  lemma TraceErrorKind(t: Trace, resolver: Resolver)
    requires AllImmutable(TraceIds(t)) && AllResolved(TraceIds(t), resolver) && !Coherent(t)
    ensures TraceError(t, resolver).Some?
    ensures TraceError(t, resolver).value.0 == if KnownState(t.opcState) then Fail else Incomplete
  {
    hide AllImmutable, AllResolved, TraceIds;
    TraceErrorNone(t, resolver);
  }

  lemma UnlistedCase(c: Case, resolver: Resolver)
    requires c.variation !in Variations()
    ensures CaseCheck(c, resolver).disposition == UnlistedDisposition(c, resolver) != Pass
  {
    hide AllImmutable, AllResolved, CaseIds, IsImmutableId, TraceIds, TraceError, Coherent, NonBlank;
    CaseIdsCover(c, resolver);
    if AllImmutable(CaseIds(c)) && AllResolved(CaseIds(c), resolver) {
      TraceErrorNone(c.baseline, resolver);
      TraceErrorNone(c.varied, resolver);
      if !Coherent(c.baseline) {
        TraceErrorKind(c.baseline, resolver);
      } else if !Coherent(c.varied) {
        TraceErrorKind(c.varied, resolver);
      }
    }
  }

  // One more case spoils a demonstrated matrix. A repeated variation makes it incomplete; an
  // unknown one makes it incomplete, blocked or violated, as its ids, the resolver and its traces say.
  lemma FifthCaseSpoils(cases: seq<Case>, extra: Case, resolver: Resolver)
    requires Assess(cases, resolver) == Demonstrated
    ensures Assess(cases + [extra], resolver) != Demonstrated
    ensures Assess(cases + [extra], resolver)
         == if extra.variation in Variations() then MatrixIncomplete
            else match UnlistedDisposition(extra, resolver)
                 case Blocked => MatrixBlocked
                 case Fail => Violated
                 case _ => MatrixIncomplete
  {
    hide CaseCheck, Variations, VerdictOf, UnlistedDisposition;
    DemonstratedExactlyWhen(cases, resolver);
    DemonstratedExactlyWhen(cases + [extra], resolver);
    var more, kinds := cases + [extra], Kinds(cases);
    var passed := CaseChecks(cases, resolver);
    assert Kinds(more) == kinds + [extra.variation];
    assert CaseChecks(more, resolver) == passed + [CaseCheck(extra, resolver)];
    VariationsAreFour();
    DistinctCount(kinds);
    NoRepeatSnoc(kinds, extra.variation);
    assert extra.variation in kinds <==> extra.variation in Elements(kinds);
    if extra.variation in Variations() {
      AnyIncompleteDecides(AllChecks(more, resolver), 5);
    } else {
      UnlistedCase(extra, resolver);
      assert Elements(Kinds(more)) == Variations() + {extra.variation};
      assert AllChecks(more, resolver) == passed + [CaseCheck(extra, resolver)];
      forall i | 0 <= i < |passed| ensures passed[i].disposition == Pass {
        assert Passes(cases[i], resolver);
      }
      OneMoreDecides(passed, CaseCheck(extra, resolver));
    }
  }

  // ---- a matrix that demonstrates independence, and a fifth case that only blocks it ----

  function Same(): Trace {
    var id := IdOf('1');
    Trace(id, id, id, id, id, id, AVAILABLE, Some(id), true, NO_FALLBACK, id, id, id, None, id, id)
  }

  function Varied(variation: string): Trace {
    var id := IdOf('2');
    if variation == CONSENSUS_ONLY then Same().(consensusInputId := id)
    else if variation == OPC_ONLY then Same().(opcConditionId := id)
    else if variation == COMMON_SOURCE then
      Same().(snapshotId := id, opcLineageSnapshotId := id, consensusLineageSnapshotId := id)
    else Same().(opcState := UNAVAILABLE, opcObservationId := None, opcEvidenceValid := false)
  }

  function Controlled(variation: string): Case {
    Case(IdOf('3'), variation, Same(), Varied(variation), [IdOf('4')])
  }

  function Matrix(): seq<Case> {
    [Controlled(CONSENSUS_ONLY), Controlled(OPC_ONLY), Controlled(COMMON_SOURCE), Controlled(OPC_UNAVAILABLE)]
  }

  function AllBut(id: string): Resolver {
    (x: string) => x != id
  }

  function Unlisted(): Case {
    Case(IdOf('3'), "unlisted", Same().(traceId := IdOf('f')), Same(), [IdOf('4')])
  }

  lemma VariedIds(variation: string)
    ensures forall id :: id in TraceIds(Varied(variation)) ==> id == IdOf('1') || id == IdOf('2')
    ensures forall id :: id in TraceIds(Same()) ==> id == IdOf('1')
  {
    hide IdOf;
  }

  lemma ControlledPasses(variation: string)
    requires variation in Variations()
    ensures Passes(Controlled(variation), AllBut(IdOf('f')))
  {
    hide IdOf, IsImmutableId, TraceIds, Passes;
    var c, resolver := Controlled(variation), AllBut(IdOf('f'));
    IdsDiffer('1', 'f');
    IdsDiffer('2', 'f');
    IdsDiffer('4', 'f');
    IdsDiffer('1', '2');
    VariedIds(variation);
    VariationsDiffer();
    StatesDiffer();
    forall i | 0 <= i < |CaseIds(c)| ensures CaseIds(c)[i] == IdOf('1') || CaseIds(c)[i] == IdOf('2') || CaseIds(c)[i] == IdOf('4') {
      assert CaseIds(c)[i] in c.transitionEvidence + TraceIds(c.baseline) + TraceIds(c.varied);
    }
    assert Coherent(c.baseline) && Coherent(c.varied) && NonInterfering(c);
    PassesExactlyWhen(c, resolver);
  }

  // Adding a fifth case need not make the matrix incomplete.
  lemma UnknownFifthCaseBlocks()
    ensures Assess(Matrix(), AllBut(IdOf('f'))) == Demonstrated
    ensures Assess(Matrix() + [Unlisted()], AllBut(IdOf('f'))) == MatrixBlocked
  {
    hide IdOf, IsImmutableId, TraceIds, Passes, Assess, AllBut;
    var resolver := AllBut(IdOf('f'));
    forall v | v in Variations() ensures Passes(Controlled(v), resolver) {
      ControlledPasses(v);
    }
    assert Kinds(Matrix()) == [CONSENSUS_ONLY, OPC_ONLY, COMMON_SOURCE, OPC_UNAVAILABLE];
    DemonstratedExactlyWhen(Matrix(), resolver);
    UnlistedIsBlocked();
    FifthCaseSpoils(Matrix(), Unlisted(), resolver);
  }

  lemma UnlistedIsBlocked()
    ensures UnlistedDisposition(Unlisted(), AllBut(IdOf('f'))) == Blocked
    ensures Unlisted().variation !in Variations()
  {
    hide IdOf, IsImmutableId;
    var ids := CaseIds(Unlisted());
    assert ids[1] == IdOf('f');
    assert "unlisted"[0] == 'u';
    assert CONSENSUS_ONLY[0] == 'c' && OPC_ONLY[0] == 'o' && COMMON_SOURCE[0] == 'c' && OPC_UNAVAILABLE[0] == 'o';
  }
}
