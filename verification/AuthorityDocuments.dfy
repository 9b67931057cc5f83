// The documents of the Matrix V2 authority chain, the checks the four commands make on what
// they read, and what each command goes on to publish.
module AuthorityDocuments {
  import opened Wrappers

  type Path = string
  type Instant = int

  const EXPERIMENT_ID := "thesis-evaluation-v2"
  const APPROVAL_SCHEMA := "academic-matrix-v2-owner-approval-v1"
  const TEST_LOCK_SCHEMA := "academic-matrix-v2-test-lock-v1"
  const TRUTH_LOCK_SCHEMA := "academic-matrix-v2-truth-lock-v1"
  const DECISION_ID := "decision:thesis-evaluation-v2:interactive-owner-approval-v2"
  const INVENTORY_ID := "numeric-consumer-inventory:thesis-evaluation-v2"
  const REQUIRED_SET_ID := "required-parameter-set:thesis-evaluation-v2"
  const DEFAULT_CONTEXT_PATH := "configs/experiments/thesis-evaluation-v2.temporal-context-v2.json"
  const UNRESOLVED := "UNRESOLVED"

  datatype Group = Group(id: string, title: string, status: string)

  const GROUP_IDS: seq<string> := ["1", "2", "3", "4", "5", "6", "7"]

  const GROUP_LABELS: map<string, string> := map[
    "1" := "compute-governance",
    "2" := "randomness-and-execution-schedule",
    "3" := "statistical-protocol",
    "4" := "validation-role",
    "5" := "dataset-allocation-and-support",
    "6" := "window-and-preprocessing",
    "7" := "model-and-stopping"]

  datatype Approval = Approval(
    schemaVersion: string, approvalId: string, approvedBy: string, approvedAt: Instant,
    candidateConfigIdentity: string, candidateRequirementsSha: string,
    groups: seq<Group>, authorizationEffect: string, complete: bool)

  datatype Decision = Decision(
    decisionId: string, contentSha: string, approvedBy: string, approvedAt: Instant, freezeTime: Instant, recordSha: string)

  datatype Config = Config(
    experimentId: string, protocol: string, sourceCatalogPath: Path,
    requirementsPath: Path, requirementsSha: string, catalogPath: Path, catalogSha: string,
    inventoryId: string, requiredSetId: string, contextPath: Path, contextSha: string)

  datatype TestLock = TestLock(
    schemaVersion: string, experimentId: string, configIdentity: string, freezeIdentity: string,
    startedAt: Instant, completedAt: Instant, exitCode: int, passed: bool,
    stdoutPath: Path, stdoutSha: string, stderrPath: Path, stderrSha: string, identity: string)

  datatype TruthLock = TruthLock(
    schemaVersion: string, experimentId: string, configIdentity: string, freezeIdentity: string,
    testLockIdentity: string, lockedAt: Instant, sourceSnapshots: string, identity: string)

  datatype Context = Context(
    freezeIdentity: string, testIdentity: string, truthIdentity: string,
    freezeTime: Instant, testTime: Instant, truthTime: Instant)

  datatype Document =
    | ApprovalDoc(approval: Approval)
    | RequirementsDoc(slots: string, unresolved: bool)
    | CatalogDoc(content: string, decisions: seq<Decision>)
    | ConfigDoc(config: Config)
    | OutputDoc(text: string)
    | TestLockDoc(test: TestLock)
    | TruthLockDoc(truth: TruthLock)
    | ContextDoc(context: Context)
    | DecisionDoc(decision: Decision)
    | BindingDoc(approvalSha: string, approvalId: string, configIdentity: string, requirementsSha: string)
    | OtherDoc(content: string)

  type Files = map<Path, Document>

  // The digest of a document, and the config loader's verdict on a config.
  datatype World = World(hash: Document -> string, accepts: Config -> bool)

  datatype Error =
    | CannotRead | ConfigRefused | NotOneDecision | UnsupportedSchema | IdentityMismatch
    | UnsupportedExperiment | FreezeBeforeApproval | ApprovalRefused | RequirementsRefused | BundleRefused
    | SuiteFailed | TestNotAfterFreeze | NotBoundToConfig | NotASuccessfulLock | SourceRefused | TruthNotAfterTest
    | FreezeNotBound | TestLockNotBound | WrongTemporalOrder | GateNotClosed | ImmutableConflict

  // ---- approval groups ----

  predicate GroupApproved(g: Group) {
    g.id in GROUP_LABELS && g.title == GROUP_LABELS[g.id] && g.status == "approved"
  }

  predicate GroupIdsDistinct(groups: seq<Group>) {
    forall i, j :: 0 <= i < j < |groups| ==> groups[i].id != groups[j].id
  }

  // Each of the seven groups is approved, exactly once, under its own label.
  predicate EveryGroupApproved(groups: seq<Group>) {
    && (forall i :: 0 <= i < |groups| ==> GroupApproved(groups[i]))
    && GroupIdsDistinct(groups)
    && (forall id :: id in GROUP_IDS ==> exists i :: 0 <= i < |groups| && groups[i].id == id)
  }

  method CheckApprovalGroups(groups: seq<Group>) returns (ok: bool)
    ensures ok <==> EveryGroupApproved(groups)
  {
    var resolved: set<string> := {};
    for i := 0 to |groups|
      invariant forall k :: 0 <= k < i ==> GroupApproved(groups[k])
      invariant GroupIdsDistinct(groups[..i])
      invariant forall id :: id in resolved <==> exists k :: 0 <= k < i && groups[k].id == id
    {
      var item := groups[i];
      if item.id !in GROUP_LABELS {
        return false;
      }
      if item.id in resolved {
        return false;
      }
      if item.title != GROUP_LABELS[item.id] || item.status != "approved" {
        return false;
      }
      assert groups[..i + 1] == groups[..i] + [item];
      resolved := resolved + {item.id};
    }
    assert groups[..|groups|] == groups;
    return forall id :: id in GROUP_IDS ==> id in resolved;
  }

  // ---- reading ----

  function LoadConfig(w: World, files: Files, path: Path): Result<Config, Error> {
    if path !in files || !files[path].ConfigDoc? then Err(CannotRead)
    else if !w.accepts(files[path].config) then Err(ConfigRefused)
    else Ok(files[path].config)
  }

  function LoadDecision(files: Files, config: Config): Result<Decision, Error> {
    if config.catalogPath !in files || !files[config.catalogPath].CatalogDoc? then Err(CannotRead)
    else
      var decisions := files[config.catalogPath].decisions;
      if |decisions| != 1 || decisions[0].decisionId != DECISION_ID then Err(NotOneDecision) else Ok(decisions[0])
  }

  function ConfigIdentity(w: World, config: Config): string {
    w.hash(ConfigDoc(config))
  }

  function TestIdentity(w: World, t: TestLock): string {
    w.hash(TestLockDoc(t.(identity := "")))
  }

  function TruthIdentity(w: World, t: TruthLock): string {
    w.hash(TruthLockDoc(t.(identity := "")))
  }

  function LoadTestLock(w: World, files: Files, path: Path): Result<TestLock, Error> {
    if path !in files then Err(CannotRead)
    else if !files[path].TestLockDoc? || files[path].test.schemaVersion != TEST_LOCK_SCHEMA then Err(UnsupportedSchema)
    else if files[path].test.identity != TestIdentity(w, files[path].test) then Err(IdentityMismatch)
    else Ok(files[path].test)
  }

  function LoadTruthLock(w: World, files: Files, path: Path): Result<TruthLock, Error> {
    if path !in files then Err(CannotRead)
    else if !files[path].TruthLockDoc? || files[path].truth.schemaVersion != TRUTH_LOCK_SCHEMA then Err(UnsupportedSchema)
    else if files[path].truth.identity != TruthIdentity(w, files[path].truth) then Err(IdentityMismatch)
    else Ok(files[path].truth)
  }

  // ---- what the commands build ----

  function DecisionFor(w: World, approval: Approval, freezeTime: Instant): Decision {
    var binding := BindingDoc(w.hash(ApprovalDoc(approval)), approval.approvalId,
                              approval.candidateConfigIdentity, approval.candidateRequirementsSha);
    var bare := Decision(DECISION_ID, w.hash(binding), approval.approvedBy, approval.approvedAt, freezeTime, "");
    bare.(recordSha := w.hash(DecisionDoc(bare)))
  }

  function AuthorizedConfig(w: World, config: Config, requirementsPath: Path, requirements: Document,
                            catalogPath: Path, catalog: Document): Config {
    config.(requirementsPath := requirementsPath, requirementsSha := w.hash(requirements),
            catalogPath := catalogPath, catalogSha := w.hash(catalog),
            inventoryId := INVENTORY_ID, requiredSetId := REQUIRED_SET_ID,
            contextPath := DEFAULT_CONTEXT_PATH, contextSha := UNRESOLVED)
  }

  function SealTest(w: World, t: TestLock): TestLock {
    t.(identity := TestIdentity(w, t))
  }

  function SealTruth(w: World, t: TruthLock): TruthLock {
    t.(identity := TruthIdentity(w, t))
  }

  function TestLockFor(w: World, config: Config, d: Decision, startedAt: Instant, completedAt: Instant, exitCode: int,
                       stdoutPath: Path, stdout: string, stderrPath: Path, stderr: string): TestLock {
    SealTest(w, TestLock(TEST_LOCK_SCHEMA, EXPERIMENT_ID, ConfigIdentity(w, config), d.recordSha, startedAt, completedAt,
                         exitCode, true, stdoutPath, w.hash(OutputDoc(stdout)), stderrPath, w.hash(OutputDoc(stderr)), ""))
  }

  function TruthLockFor(w: World, config: Config, d: Decision, test: TestLock, lockedAt: Instant, snapshots: string): TruthLock {
    SealTruth(w, TruthLock(TRUTH_LOCK_SCHEMA, EXPERIMENT_ID, ConfigIdentity(w, config), d.recordSha, test.identity,
                           lockedAt, snapshots, ""))
  }

  function ContextFor(d: Decision, test: TestLock, truth: TruthLock): Context {
    Context(d.recordSha, test.identity, truth.identity, d.freezeTime, test.completedAt, truth.lockedAt)
  }

  function FrozenConfig(w: World, config: Config, contextPath: Path, context: Context): Config {
    config.(contextPath := contextPath, contextSha := w.hash(ContextDoc(context)))
  }

  // ---- commands ----

  // Arguments, followed by what the command learns from outside: clock readings, the outcome
  // of the test suite, the source snapshot, the parameter gate.
  datatype Command =
    | Authorize(approvalPath: Path, candidatePath: Path, requirementsPath: Path, catalogPath: Path, authorizedPath: Path,
                freezeTime: Instant, approvedSlots: string, catalogContent: string, bundled: bool)
    | Verify(authorizedPath: Path, testLockPath: Path, stdoutPath: Path, stderrPath: Path,
             startedAt: Instant, completedAt: Instant, exitCode: int, stdout: string, stderr: string)
    | LockTruth(authorizedPath: Path, testLockPath: Path, truthLockPath: Path, snapshots: Option<string>, lockedAt: Instant)
    | Finalize(authorizedPath: Path, testLockPath: Path, truthLockPath: Path, contextPath: Path, frozenPath: Path,
               accountable: bool)

  datatype Artifact = Artifact(path: Path, document: Document)

  // What a command publishes, in order, and the error with which it ends if it does.
  datatype Plan = Plan(publications: seq<Artifact>, ending: Option<Error>)

  function Refuse(e: Error): Plan {
    Plan([], Some(e))
  }

  // validate_owner_approval and the checks of build_authority_bundle before the bundle is built.
  function ApprovalError(w: World, files: Files, config: Config, approval: Approval, freezeTime: Instant): Option<Error> {
    if config.experimentId != EXPERIMENT_ID then Some(UnsupportedExperiment)
    else if freezeTime < approval.approvedAt then Some(FreezeBeforeApproval)
    else if !approval.complete || approval.schemaVersion != APPROVAL_SCHEMA || approval.authorizationEffect != "none"
            || approval.candidateConfigIdentity != ConfigIdentity(w, config)
            || approval.candidateRequirementsSha != config.requirementsSha
            || !EveryGroupApproved(approval.groups) then Some(ApprovalRefused)
    else if config.requirementsPath !in files || !files[config.requirementsPath].RequirementsDoc?
            || !files[config.requirementsPath].unresolved then Some(RequirementsRefused)
    else None
  }

  function AuthorizePlan(w: World, files: Files, c: Command): Plan
    requires c.Authorize?
  {
    var loaded := LoadConfig(w, files, c.candidatePath);
    if loaded.Err? then Refuse(loaded.error)
    else if c.approvalPath !in files || !files[c.approvalPath].ApprovalDoc? then Refuse(CannotRead)
    else
      var config, approval := loaded.value, files[c.approvalPath].approval;
      var complaint := ApprovalError(w, files, config, approval, c.freezeTime);
      if complaint.Some? then Refuse(complaint.value)
      else if !c.bundled then Refuse(BundleRefused)
      else
        var requirements := RequirementsDoc(c.approvedSlots, false);
        var catalog := CatalogDoc(c.catalogContent, [DecisionFor(w, approval, c.freezeTime)]);
        var authorized := AuthorizedConfig(w, config, c.requirementsPath, requirements, c.catalogPath, catalog);
        Plan([Artifact(c.requirementsPath, requirements), Artifact(c.catalogPath, catalog),
              Artifact(c.authorizedPath, ConfigDoc(authorized))], None)
  }

  function VerifyPlan(w: World, files: Files, c: Command): Plan
    requires c.Verify?
  {
    var loaded := LoadConfig(w, files, c.authorizedPath);
    if loaded.Err? then Refuse(loaded.error)
    else
      var config := loaded.value;
      var decided := LoadDecision(files, config);
      if decided.Err? then Refuse(decided.error)
      else if c.exitCode != 0 then Refuse(SuiteFailed)
      else if c.completedAt <= decided.value.freezeTime then Refuse(TestNotAfterFreeze)
      else
        var lock := TestLockFor(w, config, decided.value, c.startedAt, c.completedAt, c.exitCode,
                                c.stdoutPath, c.stdout, c.stderrPath, c.stderr);
        Plan([Artifact(c.stdoutPath, OutputDoc(c.stdout)), Artifact(c.stderrPath, OutputDoc(c.stderr)),
              Artifact(c.testLockPath, TestLockDoc(lock))], None)
  }

  function LockTruthPlan(w: World, files: Files, c: Command): Plan
    requires c.LockTruth?
  {
    var loaded := LoadConfig(w, files, c.authorizedPath);
    if loaded.Err? then Refuse(loaded.error)
    else
      var config := loaded.value;
      var decided, tested := LoadDecision(files, config), LoadTestLock(w, files, c.testLockPath);
      if decided.Err? then Refuse(decided.error)
      else if tested.Err? then Refuse(tested.error)
      else
        var d, test := decided.value, tested.value;
        if test.experimentId != EXPERIMENT_ID || test.configIdentity != ConfigIdentity(w, config) then Refuse(NotBoundToConfig)
        else if test.freezeIdentity != d.recordSha || !test.passed then Refuse(NotASuccessfulLock)
        else if test.completedAt <= d.freezeTime then Refuse(TestNotAfterFreeze)
        else if c.snapshots.None? then Refuse(SourceRefused)
        else if c.lockedAt <= test.completedAt then Refuse(TruthNotAfterTest)
        else Plan([Artifact(c.truthLockPath,
                               TruthLockDoc(TruthLockFor(w, config, d, test, c.lockedAt, c.snapshots.value)))], None)
  }

  // The checks of finalize on what it has read, in order.
  function ChainError(w: World, config: Config, d: Decision, test: TestLock, truth: TruthLock): Option<Error> {
    if test.experimentId != EXPERIMENT_ID || test.configIdentity != ConfigIdentity(w, config) then Some(NotBoundToConfig)
    else if test.freezeIdentity != d.recordSha then Some(FreezeNotBound)
    else if truth.experimentId != EXPERIMENT_ID || truth.configIdentity != ConfigIdentity(w, config) then Some(NotBoundToConfig)
    else if truth.freezeIdentity != d.recordSha then Some(FreezeNotBound)
    else if truth.testLockIdentity != test.identity then Some(TestLockNotBound)
    else if !test.passed || test.exitCode != 0 then Some(NotASuccessfulLock)
    else if !(d.freezeTime < test.completedAt < truth.lockedAt) then Some(WrongTemporalOrder)
    else None
  }

  function FinalizePlan(w: World, files: Files, c: Command): Plan
    requires c.Finalize?
  {
    var loaded := LoadConfig(w, files, c.authorizedPath);
    if loaded.Err? then Refuse(loaded.error)
    else
      var config := loaded.value;
      var decided, tested, locked :=
        LoadDecision(files, config), LoadTestLock(w, files, c.testLockPath), LoadTruthLock(w, files, c.truthLockPath);
      if decided.Err? then Refuse(decided.error)
      else if tested.Err? then Refuse(tested.error)
      else if locked.Err? then Refuse(locked.error)
      else
        var d, test, truth := decided.value, tested.value, locked.value;
        var complaint := ChainError(w, config, d, test, truth);
        if complaint.Some? then Refuse(complaint.value)
        else
          var context := ContextFor(d, test, truth);
          var published := Artifact(c.contextPath, ContextDoc(context));
          if !c.accountable then Plan([published], Some(GateNotClosed))
          else Plan([published, Artifact(c.frozenPath, ConfigDoc(FrozenConfig(w, config, c.contextPath, context)))], None)
  }

  function PlanOf(w: World, files: Files, c: Command): Plan {
    match c
    case Authorize(_, _, _, _, _, _, _, _, _) => AuthorizePlan(w, files, c)
    case Verify(_, _, _, _, _, _, _, _, _) => VerifyPlan(w, files, c)
    case LockTruth(_, _, _, _, _) => LockTruthPlan(w, files, c)
    case Finalize(_, _, _, _, _, _) => FinalizePlan(w, files, c)
  }
}
