// G3 qualification of Consensus.v2: six checks of supplied evidence, and the verdict on them.
module Qualification {
  import opened Wrappers
  import opened Lists
  import opened DecisionContract
  import opened Assessments

  datatype Verdict = Qualified | Shadow | QualificationBlocked | QualificationIncomplete

  datatype Diagnostic =
    | ClosureIdMissing | ClosureUnresolved
    | ParityCoverageMissing | ParityFixtureDuplicate | ParityFixtureUnresolved | ParityResultMissing
    | ParityResultUnresolved | ParityMismatchUnretained | ParityMismatch
    | EvidenceMissing | EvidenceUnresolved | OutcomeFailed

  datatype Fixture = Fixture(
    fixtureId: string, caseKind: string, pythonResult: Option<string>, goResult: Option<string>,
    matched: Option<bool>, mismatchDiagnostic: Option<string>)

  datatype Candidate = Candidate(
    primaryConfigurationId: string, closureIds: seq<string>, fixtures: seq<Fixture>,
    integrationEvidence: Option<string>, usedRealBoundary: Option<bool>,
    stateEvidence: Option<string>, statePreserved: Option<bool>,
    sensitivityPlan: Option<string>, sensitivityResults: seq<string>, sensitivityComplete: Option<bool>,
    provenance: seq<string>, provenanceComplete: Option<bool>)

  const REQUIRED_KINDS: seq<string> :=
    ["valid", "invalid", "missing", "stale", "mixed_profile", "mixed_unit", "boundary", "exclusion", "tie", "failure"]

  predicate Resolved(id: string, resolver: Resolver) {
    id != "" && IsImmutableId(id) && resolver(id)
  }

  predicate Supported(id: Option<string>, resolver: Resolver) {
    id.Some? && Resolved(id.value, resolver)
  }

  function FixtureIds(fixtures: seq<Fixture>): (r: seq<string>)
    ensures |r| == |fixtures|
  {
    seq(|fixtures|, i requires 0 <= i < |fixtures| => fixtures[i].fixtureId)
  }

  predicate KindsCovered(fixtures: seq<Fixture>) {
    forall kind :: kind in REQUIRED_KINDS ==> exists i :: 0 <= i < |fixtures| && fixtures[i].caseKind == kind
  }

  predicate FixturesResolved(fixtures: seq<Fixture>, resolver: Resolver) {
    forall i :: 0 <= i < |fixtures| ==> Resolved(fixtures[i].fixtureId, resolver)
  }

  function FixtureProblem(f: Fixture, resolver: Resolver): Option<(Disposition, Diagnostic)> {
    if f.matched.None? || f.pythonResult.None? || f.goResult.None? then Some((Incomplete, ParityResultMissing))
    else if !Supported(f.pythonResult, resolver) || !Supported(f.goResult, resolver) then Some((Blocked, ParityResultUnresolved))
    else if !f.matched.value && !Supported(f.mismatchDiagnostic, resolver) then Some((Blocked, ParityMismatchUnretained))
    else if !f.matched.value then Some((Fail, ParityMismatch))
    else None
  }

  // The first fixture with a problem decides.
  function FirstProblem(fixtures: seq<Fixture>, resolver: Resolver): Option<(Disposition, Diagnostic)> {
    if fixtures == [] then None
    else
      var first := FixtureProblem(fixtures[0], resolver);
      if first.Some? then first else FirstProblem(fixtures[1..], resolver)
  }

  function ParityVerdict(fixtures: seq<Fixture>, resolver: Resolver): Check<Diagnostic> {
    var ids := FixtureIds(fixtures);
    if !KindsCovered(fixtures) then Check("python_go_parity", Incomplete, Some(ParityCoverageMissing), ids)
    else if !NoRepeat(ids) then Check("python_go_parity", Fail, Some(ParityFixtureDuplicate), ids)
    else if !FixturesResolved(fixtures, resolver) then Check("python_go_parity", Blocked, Some(ParityFixtureUnresolved), ids)
    else
      match FirstProblem(fixtures, resolver)
      case Some((disposition, diagnostic)) => Check("python_go_parity", disposition, Some(diagnostic), ids)
      case None => Check("python_go_parity", Pass, None, ids)
  }

  method ParityCheck(fixtures: seq<Fixture>, resolver: Resolver) returns (check: Check<Diagnostic>)
    ensures check == ParityVerdict(fixtures, resolver)
  {
    var ids := FixtureIds(fixtures);
    if !KindsCovered(fixtures) {
      return Check("python_go_parity", Incomplete, Some(ParityCoverageMissing), ids);
    }
    if !NoRepeat(ids) {
      return Check("python_go_parity", Fail, Some(ParityFixtureDuplicate), ids);
    }
    if !FixturesResolved(fixtures, resolver) {
      return Check("python_go_parity", Blocked, Some(ParityFixtureUnresolved), ids);
    }
    for i := 0 to |fixtures|
      invariant FirstProblem(fixtures, resolver) == FirstProblem(fixtures[i..], resolver)
    {
      var f := fixtures[i];
      assert fixtures[i..][0] == f && fixtures[i..][1..] == fixtures[i + 1..];
      if f.matched.None? || f.pythonResult.None? || f.goResult.None? {
        return Check("python_go_parity", Incomplete, Some(ParityResultMissing), ids);
      }
      if !Resolved(f.pythonResult.value, resolver) || !Resolved(f.goResult.value, resolver) {
        return Check("python_go_parity", Blocked, Some(ParityResultUnresolved), ids);
      }
      if !f.matched.value && !Supported(f.mismatchDiagnostic, resolver) {
        return Check("python_go_parity", Blocked, Some(ParityMismatchUnretained), ids);
      }
      if !f.matched.value {
        return Check("python_go_parity", Fail, Some(ParityMismatch), ids);
      }
    }
    return Check("python_go_parity", Pass, None, ids);
  }

  function Outcome(checkId: string, ok: bool, evidence: seq<string>): Check<Diagnostic> {
    if ok then Check(checkId, Pass, None, evidence) else Check(checkId, Fail, Some(OutcomeFailed), evidence)
  }

  function EvidenceBoolean(checkId: string, evidence: Option<string>, outcome: Option<bool>, resolver: Resolver): Check<Diagnostic> {
    if evidence.None? || outcome.None? then Check(checkId, Incomplete, Some(EvidenceMissing), [])
    else if !Resolved(evidence.value, resolver) then Check(checkId, Blocked, Some(EvidenceUnresolved), [evidence.value])
    else Outcome(checkId, outcome.value, [evidence.value])
  }

  predicate AllSupported(ids: seq<string>, resolver: Resolver) {
    forall i :: 0 <= i < |ids| ==> Resolved(ids[i], resolver)
  }

  function ClosureVerdict(c: Candidate, resolver: Resolver): Check<Diagnostic> {
    var closure := [c.primaryConfigurationId] + c.closureIds;
    if !AllImmutable(closure) then Check("immutable_closure", Incomplete, Some(ClosureIdMissing), closure)
    else if !AllResolved(closure, resolver) then Check("immutable_closure", Blocked, Some(ClosureUnresolved), closure)
    else Check("immutable_closure", Pass, None, closure)
  }

  function SensitivityVerdict(c: Candidate, resolver: Resolver): Check<Diagnostic> {
    if c.sensitivityPlan.None? || c.sensitivityComplete.None? || c.sensitivityResults == [] then
      Check("sensitivity", Incomplete, Some(EvidenceMissing), [])
    else
      var ids := [c.sensitivityPlan.value] + c.sensitivityResults;
      if !AllSupported(ids, resolver) then Check("sensitivity", Blocked, Some(EvidenceUnresolved), NonBlank(ids))
      else Outcome("sensitivity", c.sensitivityComplete.value, ids)
  }

  function ProvenanceVerdict(c: Candidate, resolver: Resolver): Check<Diagnostic> {
    if c.provenance == [] || c.provenanceComplete.None? then Check("provenance", Incomplete, Some(EvidenceMissing), [])
    else if !AllSupported(c.provenance, resolver) then Check("provenance", Blocked, Some(EvidenceUnresolved), c.provenance)
    else Outcome("provenance", c.provenanceComplete.value, c.provenance)
  }

  function AllChecks(c: Candidate, resolver: Resolver): seq<Check<Diagnostic>> {
    [ClosureVerdict(c, resolver), ParityVerdict(c.fixtures, resolver),
     EvidenceBoolean("abci_integration", c.integrationEvidence, c.usedRealBoundary, resolver),
     EvidenceBoolean("versioned_state", c.stateEvidence, c.statePreserved, resolver),
     SensitivityVerdict(c, resolver), ProvenanceVerdict(c, resolver)]
  }

  function VerdictOf(checks: seq<Check<Diagnostic>>): Verdict {
    match Prevailing(checks)
    case Incomplete => QualificationIncomplete
    case Blocked => QualificationBlocked
    case Fail => Shadow
    case Pass => Qualified
  }

  function Qualify(c: Candidate, resolver: Resolver): Verdict {
    VerdictOf(AllChecks(c, resolver))
  }

  // The qualification as it appends its checks.
  method QualifyConsensusV2(c: Candidate, resolver: Resolver) returns (checks: seq<Check<Diagnostic>>, verdict: Verdict)
    ensures checks == AllChecks(c, resolver)
    ensures verdict == Qualify(c, resolver)
    ensures verdict == Qualified <==> EvidenceComplete(c, resolver)
  {
    QualifiedExactlyWhen(c, resolver);
    hide EvidenceComplete;
    hide ParityVerdict, VerdictOf, AllImmutable, AllResolved, EvidenceBoolean, SensitivityVerdict, ProvenanceVerdict;
    checks := [];
    var closure := [c.primaryConfigurationId] + c.closureIds;
    if !AllImmutable(closure) {
      checks := checks + [Check("immutable_closure", Incomplete, Some(ClosureIdMissing), closure)];
    } else if !AllResolved(closure, resolver) {
      checks := checks + [Check("immutable_closure", Blocked, Some(ClosureUnresolved), closure)];
    } else {
      checks := checks + [Check("immutable_closure", Pass, None, closure)];
    }
    var parity := ParityCheck(c.fixtures, resolver);
    checks := checks + [parity];
    checks := checks + [EvidenceBoolean("abci_integration", c.integrationEvidence, c.usedRealBoundary, resolver)];
    checks := checks + [EvidenceBoolean("versioned_state", c.stateEvidence, c.statePreserved, resolver)];
    checks := checks + [SensitivityVerdict(c, resolver)];
    checks := checks + [ProvenanceVerdict(c, resolver)];
    verdict := VerdictOf(checks);
  }

  // ---- what "qualified" means ----

  // A parity fixture whose two implementations are known to have agreed.
  predicate Agreed(f: Fixture, resolver: Resolver) {
    f.matched == Some(true) && Supported(f.pythonResult, resolver) && Supported(f.goResult, resolver)
  }

  predicate EvidenceComplete(c: Candidate, resolver: Resolver) {
    && AllImmutable([c.primaryConfigurationId] + c.closureIds) && AllResolved([c.primaryConfigurationId] + c.closureIds, resolver)
    && KindsCovered(c.fixtures) && NoRepeat(FixtureIds(c.fixtures)) && FixturesResolved(c.fixtures, resolver)
    && (forall i :: 0 <= i < |c.fixtures| ==> Agreed(c.fixtures[i], resolver))
    && Supported(c.integrationEvidence, resolver) && c.usedRealBoundary == Some(true)
    && Supported(c.stateEvidence, resolver) && c.statePreserved == Some(true)
    && Supported(c.sensitivityPlan, resolver) && c.sensitivityResults != [] && AllSupported(c.sensitivityResults, resolver)
    && c.sensitivityComplete == Some(true)
    && c.provenance != [] && AllSupported(c.provenance, resolver) && c.provenanceComplete == Some(true)
  }

  lemma {:induction false} NoProblemWhenAllAgree(fixtures: seq<Fixture>, resolver: Resolver)
    ensures FirstProblem(fixtures, resolver) == None <==> forall i :: 0 <= i < |fixtures| ==> Agreed(fixtures[i], resolver)
    ensures FirstProblem(fixtures, resolver).Some? ==> FirstProblem(fixtures, resolver).value.0 != Pass
  {
    hide Resolved;
    if fixtures != [] {
      NoProblemWhenAllAgree(fixtures[1..], resolver);
      assert FixtureProblem(fixtures[0], resolver) == None <==> Agreed(fixtures[0], resolver);
      assert forall i :: 0 < i < |fixtures| ==> fixtures[i] == fixtures[1..][i - 1];
      assert forall i :: 0 <= i < |fixtures[1..]| ==> fixtures[1..][i] == fixtures[i + 1];
    }
  }

  lemma ParityPassesWhen(fixtures: seq<Fixture>, resolver: Resolver)
    ensures ParityVerdict(fixtures, resolver).disposition == Pass
       <==> && KindsCovered(fixtures) && NoRepeat(FixtureIds(fixtures)) && FixturesResolved(fixtures, resolver)
            && forall i :: 0 <= i < |fixtures| ==> Agreed(fixtures[i], resolver)
  {
    hide Resolved, KindsCovered, NoRepeat, FixturesResolved, Agreed, FirstProblem;
    NoProblemWhenAllAgree(fixtures, resolver);
  }

  lemma SensitivityPassesWhen(c: Candidate, resolver: Resolver)
    ensures SensitivityVerdict(c, resolver).disposition == Pass
       <==> && Supported(c.sensitivityPlan, resolver) && c.sensitivityResults != []
            && AllSupported(c.sensitivityResults, resolver) && c.sensitivityComplete == Some(true)
  {
    hide Resolved;
    if c.sensitivityPlan.Some? {
      var ids := [c.sensitivityPlan.value] + c.sensitivityResults;
      assert ids[0] == c.sensitivityPlan.value;
      assert forall i :: 0 < i < |ids| ==> ids[i] == c.sensitivityResults[i - 1];
      assert forall i :: 0 <= i < |c.sensitivityResults| ==> c.sensitivityResults[i] == ids[i + 1];
    }
  }

  // "Qualified" means that every piece of evidence is present, resolved and positive.
  lemma QualifiedExactlyWhen(c: Candidate, resolver: Resolver)
    ensures Qualify(c, resolver) == Qualified <==> EvidenceComplete(c, resolver)
  {
    hide ParityVerdict, SensitivityVerdict, Prevailing, AllImmutable, AllResolved, AllSupported, Resolved, KindsCovered,
         NoRepeat, FixturesResolved, Agreed;
    var checks := AllChecks(c, resolver);
    PassPrevails(checks);
    ParityPassesWhen(c.fixtures, resolver);
    SensitivityPassesWhen(c, resolver);
    assert |checks| == 6;
    assert (forall i :: 0 <= i < |checks| ==> checks[i].disposition == Pass)
      <==> checks[0].disposition == checks[1].disposition == checks[2].disposition == checks[3].disposition
           == checks[4].disposition == checks[5].disposition == Pass;
  }

  // Accepting more ids never takes a qualification away.
  lemma QualificationIsMonotone(c: Candidate, resolver: Resolver, wider: Resolver)
    requires AcceptsMore(resolver, wider) && Qualify(c, resolver) == Qualified
    ensures Qualify(c, wider) == Qualified
  {
    hide Qualify, AllImmutable, KindsCovered, NoRepeat, IsImmutableId;
    QualifiedExactlyWhen(c, resolver);
    QualifiedExactlyWhen(c, wider);
  }

  // ---- order of the fixtures ----

  lemma FixtureIdOfSome(fixtures: seq<Fixture>, id: string)
    ensures id in Elements(FixtureIds(fixtures)) <==> exists f :: f in fixtures && f.fixtureId == id
  {
    if id in Elements(FixtureIds(fixtures)) {
      var i :| 0 <= i < |fixtures| && FixtureIds(fixtures)[i] == id;
      assert fixtures[i] in fixtures;
    }
    if exists f :: f in fixtures && f.fixtureId == id {
      var f :| f in fixtures && f.fixtureId == id;
      var i :| 0 <= i < |fixtures| && fixtures[i] == f;
      assert FixtureIds(fixtures)[i] == id;
    }
  }

  // The tests made before the loop over the fixtures do not look at their order.
  lemma TestsShuffled(fixtures: seq<Fixture>, shuffled: seq<Fixture>, resolver: Resolver)
    requires multiset(fixtures) == multiset(shuffled)
    ensures KindsCovered(fixtures) ==> KindsCovered(shuffled)
    ensures NoRepeat(FixtureIds(fixtures)) ==> NoRepeat(FixtureIds(shuffled))
    ensures FixturesResolved(fixtures, resolver) ==> FixturesResolved(shuffled, resolver)
    ensures forall f :: f in fixtures <==> f in shuffled
  {
    hide Resolved, NoRepeat;
    forall f ensures f in fixtures <==> f in shuffled {
      assert f in multiset(fixtures) <==> f in multiset(shuffled);
    }
    assert |fixtures| == |multiset(fixtures)| == |multiset(shuffled)| == |shuffled|;
    DistinctCount(FixtureIds(fixtures));
    DistinctCount(FixtureIds(shuffled));
    forall id ensures id in Elements(FixtureIds(fixtures)) <==> id in Elements(FixtureIds(shuffled)) {
      FixtureIdOfSome(fixtures, id);
      FixtureIdOfSome(shuffled, id);
    }
    assert Elements(FixtureIds(fixtures)) == Elements(FixtureIds(shuffled));
    if KindsCovered(fixtures) {
      forall kind | kind in REQUIRED_KINDS ensures exists i :: 0 <= i < |shuffled| && shuffled[i].caseKind == kind {
        var i :| 0 <= i < |fixtures| && fixtures[i].caseKind == kind;
        assert fixtures[i] in shuffled;
        var j :| 0 <= j < |shuffled| && shuffled[j] == fixtures[i];
      }
    }
    if FixturesResolved(fixtures, resolver) {
      forall i | 0 <= i < |shuffled| ensures Resolved(shuffled[i].fixtureId, resolver) {
        assert shuffled[i] in fixtures;
        var j :| 0 <= j < |fixtures| && fixtures[j] == shuffled[i];
      }
    }
  }

  lemma ParityShuffled(fixtures: seq<Fixture>, shuffled: seq<Fixture>, resolver: Resolver)
    requires multiset(fixtures) == multiset(shuffled)
    requires ParityVerdict(fixtures, resolver).disposition == Pass
    ensures ParityVerdict(shuffled, resolver).disposition == Pass
  {
    hide ParityVerdict, Resolved, NoRepeat, Agreed, KindsCovered, FixturesResolved;
    ParityPassesWhen(fixtures, resolver);
    ParityPassesWhen(shuffled, resolver);
    TestsShuffled(fixtures, shuffled, resolver);
    forall i | 0 <= i < |shuffled| ensures Agreed(shuffled[i], resolver) {
      assert shuffled[i] in fixtures;
      var j :| 0 <= j < |fixtures| && fixtures[j] == shuffled[i];
    }
  }

  // Whether the candidate is qualified does not depend on the order of the parity fixtures.
  lemma QualifiedIgnoresFixtureOrder(c: Candidate, shuffled: seq<Fixture>, resolver: Resolver)
    requires multiset(c.fixtures) == multiset(shuffled)
    ensures Qualify(c, resolver) == Qualified <==> Qualify(c.(fixtures := shuffled), resolver) == Qualified
  {
    hide Resolved, KindsCovered, NoRepeat, Agreed, AllImmutable, AllResolved, AllSupported, Qualify, FixturesResolved,
         ParityVerdict;
    QualifiedExactlyWhen(c, resolver);
    QualifiedExactlyWhen(c.(fixtures := shuffled), resolver);
    ParityPassesWhen(c.fixtures, resolver);
    ParityPassesWhen(shuffled, resolver);
    if EvidenceComplete(c, resolver) {
      ParityShuffled(c.fixtures, shuffled, resolver);
    }
    if EvidenceComplete(c.(fixtures := shuffled), resolver) {
      ParityShuffled(shuffled, c.fixtures, resolver);
    }
  }

  // ---- when the verdict depends on that order ----

  // The verdict if the parity check came out as d.
  function WithParity(c: Candidate, resolver: Resolver, d: Disposition): Verdict {
    VerdictOf([ClosureVerdict(c, resolver), Check("python_go_parity", d, None, []),
               EvidenceBoolean("abci_integration", c.integrationEvidence, c.usedRealBoundary, resolver),
               EvidenceBoolean("versioned_state", c.stateEvidence, c.statePreserved, resolver),
               SensitivityVerdict(c, resolver), ProvenanceVerdict(c, resolver)])
  }

  lemma PrevailingByDisposition(s: seq<Check<Diagnostic>>, t: seq<Check<Diagnostic>>)
    requires |s| == |t| && forall i :: 0 <= i < |s| ==> s[i].disposition == t[i].disposition
    ensures Prevailing(s) == Prevailing(t)
  {
    forall d: Disposition ensures HasDisposition(s, d) <==> HasDisposition(t, d) {
    }
  }

  lemma QualifyByParity(c: Candidate, fixtures: seq<Fixture>, resolver: Resolver)
    ensures Qualify(c.(fixtures := fixtures), resolver)
         == WithParity(c, resolver, ParityVerdict(fixtures, resolver).disposition)
  {
    hide ParityVerdict, EvidenceBoolean, AllImmutable, AllResolved, AllSupported, Prevailing;
    var d := ParityVerdict(fixtures, resolver).disposition;
    var t := [ClosureVerdict(c, resolver), Check("python_go_parity", d, None, []),
              EvidenceBoolean("abci_integration", c.integrationEvidence, c.usedRealBoundary, resolver),
              EvidenceBoolean("versioned_state", c.stateEvidence, c.statePreserved, resolver),
              SensitivityVerdict(c, resolver), ProvenanceVerdict(c, resolver)];
    PrevailingByDisposition(AllChecks(c.(fixtures := fixtures), resolver), t);
  }

  // The first problem is some fixture's problem, and there is none only if no fixture has one.
  lemma {:induction false} FirstProblemFound(fixtures: seq<Fixture>, resolver: Resolver)
    ensures FirstProblem(fixtures, resolver) == None <==> forall f :: f in fixtures ==> FixtureProblem(f, resolver) == None
    ensures FirstProblem(fixtures, resolver).Some? ==>
              exists f :: f in fixtures && FixtureProblem(f, resolver) == FirstProblem(fixtures, resolver)
  {
    hide FixtureProblem;
    if fixtures != [] {
      FirstProblemFound(fixtures[1..], resolver);
      assert fixtures == [fixtures[0]] + fixtures[1..];
      if FixtureProblem(fixtures[0], resolver).Some? {
        assert fixtures[0] in fixtures;
      }
    }
  }

  // The loop over the fixtures is reached.
  predicate FixturesTested(fixtures: seq<Fixture>, resolver: Resolver) {
    KindsCovered(fixtures) && NoRepeat(FixtureIds(fixtures)) && FixturesResolved(fixtures, resolver)
  }

  // A test before the loop decides, or any two fixtures with a problem lead to the same verdict.
  predicate OrderIrrelevant(c: Candidate, resolver: Resolver) {
    || !FixturesTested(c.fixtures, resolver)
    || forall f, g :: f in c.fixtures && g in c.fixtures
                      && FixtureProblem(f, resolver).Some? && FixtureProblem(g, resolver).Some? ==>
         WithParity(c, resolver, FixtureProblem(f, resolver).value.0) == WithParity(c, resolver, FixtureProblem(g, resolver).value.0)
  }

  lemma ShuffledVerdict(c: Candidate, shuffled: seq<Fixture>, resolver: Resolver)
    requires OrderIrrelevant(c, resolver) && multiset(c.fixtures) == multiset(shuffled)
    ensures Qualify(c.(fixtures := shuffled), resolver) == Qualify(c, resolver)
  {
    hide Qualify, WithParity, FixtureProblem, KindsCovered, NoRepeat, FixturesResolved, FirstProblem;
    TestsShuffled(c.fixtures, shuffled, resolver);
    TestsShuffled(shuffled, c.fixtures, resolver);
    QualifyByParity(c, shuffled, resolver);
    QualifyByParity(c, c.fixtures, resolver);
    assert c.(fixtures := c.fixtures) == c;
    FirstProblemFound(c.fixtures, resolver);
    FirstProblemFound(shuffled, resolver);
  }

  // The order that puts fixture k first.
  function Leading(fixtures: seq<Fixture>, k: nat): (r: seq<Fixture>)
    requires k < |fixtures|
    ensures multiset(r) == multiset(fixtures)
  {
    assert fixtures == fixtures[..k] + [fixtures[k]] + fixtures[k + 1..];
    [fixtures[k]] + (fixtures[..k] + fixtures[k + 1..])
  }

  lemma LeadingVerdict(c: Candidate, k: nat, resolver: Resolver)
    requires k < |c.fixtures| && FixturesTested(c.fixtures, resolver) && FixtureProblem(c.fixtures[k], resolver).Some?
    ensures Qualify(c.(fixtures := Leading(c.fixtures, k)), resolver)
         == WithParity(c, resolver, FixtureProblem(c.fixtures[k], resolver).value.0)
  {
    hide Qualify, WithParity, FixtureProblem, KindsCovered, NoRepeat, FixturesResolved;
    var leading := Leading(c.fixtures, k);
    TestsShuffled(c.fixtures, leading, resolver);
    QualifyByParity(c, leading, resolver);
    assert leading[0] == c.fixtures[k];
  }

  // Every order of the fixtures gives one verdict exactly when a test before the loop decides, or no two
  // fixtures have problems that the other five checks would turn into different verdicts.
  lemma OrderIsIrrelevantExactlyWhen(c: Candidate, resolver: Resolver)
    ensures (forall shuffled :: multiset(c.fixtures) == multiset(shuffled) ==>
               Qualify(c.(fixtures := shuffled), resolver) == Qualify(c, resolver))
       <==> OrderIrrelevant(c, resolver)
  {
    hide Qualify, WithParity, FixtureProblem, FixturesTested, Leading;
    if OrderIrrelevant(c, resolver) {
      forall shuffled | multiset(c.fixtures) == multiset(shuffled)
        ensures Qualify(c.(fixtures := shuffled), resolver) == Qualify(c, resolver)
      {
        ShuffledVerdict(c, shuffled, resolver);
      }
    } else {
      var f, g :| f in c.fixtures && g in c.fixtures
                  && FixtureProblem(f, resolver).Some? && FixtureProblem(g, resolver).Some?
                  && WithParity(c, resolver, FixtureProblem(f, resolver).value.0)
                     != WithParity(c, resolver, FixtureProblem(g, resolver).value.0);
      var i :| 0 <= i < |c.fixtures| && c.fixtures[i] == f;
      var j :| 0 <= j < |c.fixtures| && c.fixtures[j] == g;
      LeadingVerdict(c, i, resolver);
      LeadingVerdict(c, j, resolver);
      assert multiset(c.fixtures) == multiset(Leading(c.fixtures, i)) == multiset(Leading(c.fixtures, j));
    }
  }

  // ---- two orders with different verdicts ----

  const DIGITS := "0123456789"

  function Agreeing(i: nat): Fixture
    requires i < 10
  {
    Fixture(IdOf(DIGITS[i]), REQUIRED_KINDS[i], Some(IdOf('0')), Some(IdOf('0')), Some(true), None)
  }

  function Unanswered(): Fixture {
    Fixture(IdOf('a'), "valid", None, None, None, None)
  }

  function Mismatched(): Fixture {
    Fixture(IdOf('b'), "valid", Some(IdOf('0')), Some(IdOf('0')), Some(false), Some(IdOf('0')))
  }

  function Covering(): seq<Fixture> {
    seq(10, i requires 0 <= i < 10 => Agreeing(i))
  }

  function Nearly(fixtures: seq<Fixture>): Candidate {
    var id := IdOf('0');
    Candidate(id, [], fixtures, Some(id), Some(true), Some(id), Some(true), Some(id), [id], Some(true), [id], Some(true))
  }

  function Anyone(): Resolver {
    (id: string) => true
  }

  lemma DistinctDigits(order: string, fixtures: seq<Fixture>)
    requires |order| == |fixtures|
    requires forall i :: 0 <= i < |order| ==> IsHexDigit(order[i]) && fixtures[i].fixtureId == IdOf(order[i])
    requires forall i, j :: 0 <= i < j < |order| ==> order[i] != order[j]
    ensures NoRepeat(FixtureIds(fixtures)) && FixturesResolved(fixtures, Anyone())
  {
    hide IdOf, IsImmutableId;
    forall i, j | 0 <= i < j < |fixtures| ensures fixtures[i].fixtureId != fixtures[j].fixtureId {
      IdsDiffer(order[i], order[j]);
    }
    forall i | 0 <= i < |fixtures| ensures Resolved(fixtures[i].fixtureId, Anyone()) {
      NotBlank(IdOf(order[i]));
    }
  }

  lemma NotBlank(id: string)
    requires IsImmutableId(id)
    ensures id != ""
  {
  }

  // Both orders cover every kind with distinct, resolved fixtures.
  lemma CoveredEitherWay(first: Fixture, second: Fixture, order: string)
    requires |order| == 2 && IsHexDigit(order[0]) && IsHexDigit(order[1]) && order[0] != order[1]
    requires order[0] > '9' && order[1] > '9'
    requires first.fixtureId == IdOf(order[0]) && second.fixtureId == IdOf(order[1])
    ensures var fixtures := [first, second] + Covering();
            KindsCovered(fixtures) && NoRepeat(FixtureIds(fixtures)) && FixturesResolved(fixtures, Anyone())
  {
    hide IdOf, IsImmutableId;
    var fixtures := [first, second] + Covering();
    var letters := order + DIGITS;
    assert forall i :: 0 <= i < 10 ==> DIGITS[i] == '0' + i as char;
    forall i | 0 <= i < 12 ensures IsHexDigit(letters[i]) && fixtures[i].fixtureId == IdOf(letters[i]) {
      if i >= 2 {
        assert fixtures[i] == Agreeing(i - 2) && letters[i] == DIGITS[i - 2];
      }
    }
    DistinctDigits(letters, fixtures);
    forall kind | kind in REQUIRED_KINDS ensures exists i :: 0 <= i < |fixtures| && fixtures[i].caseKind == kind {
      var k :| 0 <= k < |REQUIRED_KINDS| && REQUIRED_KINDS[k] == kind;
      assert fixtures[k + 2] == Agreeing(k);
    }
  }

  lemma OnlyParityDecides(fixtures: seq<Fixture>)
    ensures Qualify(Nearly(fixtures), Anyone())
         == match ParityVerdict(fixtures, Anyone()).disposition
            case Incomplete => QualificationIncomplete
            case Blocked => QualificationBlocked
            case Fail => Shadow
            case Pass => Qualified
  {
    hide IdOf, IsImmutableId, ParityVerdict;
    var c := Nearly(fixtures);
    NotBlank(IdOf('0'));
    var checks := AllChecks(c, Anyone());
    assert checks[1] == ParityVerdict(fixtures, Anyone());
    assert checks[0].disposition == checks[2].disposition == checks[3].disposition == checks[4].disposition
        == checks[5].disposition == Pass;
    assert |checks| == 6;
    OneDecides(checks, 1);
  }

  // The first fixture with a problem decides, so exchanging two fixtures can change the verdict.
  lemma VerdictDependsOnFixtureOrder()
    ensures Qualify(Nearly([Unanswered(), Mismatched()] + Covering()), Anyone()) == QualificationIncomplete
    ensures Qualify(Nearly([Mismatched(), Unanswered()] + Covering()), Anyone()) == Shadow
  {
    hide IdOf, IsImmutableId, KindsCovered, NoRepeat, FixturesResolved, Qualify, Covering;
    NotBlank(IdOf('0'));
    CoveredEitherWay(Unanswered(), Mismatched(), "ab");
    CoveredEitherWay(Mismatched(), Unanswered(), "ba");
    OnlyParityDecides([Unanswered(), Mismatched()] + Covering());
    OnlyParityDecides([Mismatched(), Unanswered()] + Covering());
  }
}
