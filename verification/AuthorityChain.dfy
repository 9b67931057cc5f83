// Every interleaving of the four commands over one write-once store: what a frozen config proves.
module AuthorityChain {
  import opened Wrappers
  import opened AuthorityDocuments
  import opened AuthorityStore
  import opened AuthorityVerdicts
  import Publication

  // A command in progress, with the artifacts it has still to publish.
  datatype Job = Job(command: Command, pending: seq<Artifact>)

  datatype State = State(files: Files, jobs: seq<Job>)

  datatype Label = Begin(command: Command) | Continue(job: nat)

  ghost predicate Step(w: World, s: State, l: Label, s': State) {
    match l
    case Begin(command) =>
      s' == s.(jobs := s.jobs + [Job(command, PlanOf(w, s.files, command).publications)])
    case Continue(i) =>
      && i < |s.jobs| && s.jobs[i].pending != []
      && var job := s.jobs[i];
         var (files, outcome) := Publication.Publish(s.files, job.pending[0].path, job.pending[0].document);
         s' == State(files, s.jobs[i := job.(pending := if outcome == Publication.Conflict then [] else job.pending[1..])])
  }

  // At the start there are approvals, candidate requirements, candidate configs and other
  // inputs, but nothing the commands publish.
  predicate IsInput(d: Document) {
    d.ApprovalDoc? || d.RequirementsDoc? || d.OtherDoc? || (d.ConfigDoc? && d.config.contextSha == UNRESOLVED)
  }

  ghost predicate Init(s: State) {
    s.jobs == [] && forall p :: p in s.files ==> IsInput(s.files[p])
  }

  ghost predicate Next(w: World, s: State, s': State) {
    exists l: Label :: Step(w, s, l, s')
  }

  ghost predicate Run(w: World, states: seq<State>) {
    && states != [] && Init(states[0])
    && forall k :: 0 <= k < |states| - 1 ==> Next(w, states[k], states[k + 1])
  }

  // ---- what a published document vouches for ----

  datatype Approved = Approved(approvalPath: Path, candidatePath: Path, freezeTime: Instant)

  // The decision was frozen from an owner approval that passes every check for one accepted
  // candidate config: schema, effect, completeness, identity, requirements and all seven groups.
  ghost predicate ApprovedBy(w: World, files: Files, d: Decision, a: Approved) {
    && a.approvalPath in files && files[a.approvalPath].ApprovalDoc?
    && LoadConfig(w, files, a.candidatePath).Ok?
    && var config, approval := files[a.candidatePath].config, files[a.approvalPath].approval;
       ApprovalError(w, files, config, approval, a.freezeTime) == None && d == DecisionFor(w, approval, a.freezeTime)
  }

  datatype Chain = Chain(configPath: Path, config: Config, decision: Decision, testPath: Path, test: TestLock,
                         truthPath: Path, truth: TruthLock)

  ghost predicate DecidedIn(w: World, files: Files, config: Config, d: Decision) {
    && LoadDecision(files, config) == Ok(d)
    && exists a: Approved :: ApprovedBy(w, files, d, a)
  }

  // The test lock: sealed, successful, later than the freeze, its output kept.
  ghost predicate TestLocked(w: World, files: Files, extra: seq<Artifact>, config: Config, d: Decision, t: TestLock) {
    && t.schemaVersion == TEST_LOCK_SCHEMA && t.identity == TestIdentity(w, t)
    && t.experimentId == EXPERIMENT_ID && t.configIdentity == ConfigIdentity(w, config) && t.freezeIdentity == d.recordSha
    && t.passed && t.exitCode == 0 && d.freezeTime < t.completedAt
    && Kept(w, files, extra, t.stdoutPath, t.stdoutSha) && Kept(w, files, extra, t.stderrPath, t.stderrSha)
  }

  ghost predicate Available(files: Files, extra: seq<Artifact>, path: Path, document: Document) {
    (path in files && files[path] == document) || Artifact(path, document) in extra
  }

  ghost predicate Kept(w: World, files: Files, extra: seq<Artifact>, path: Path, sha: string) {
    exists document: Document :: Available(files, extra, path, document) && w.hash(document) == sha
  }

  ghost predicate TruthLocked(w: World, config: Config, d: Decision, test: TestLock, u: TruthLock) {
    && u.schemaVersion == TRUTH_LOCK_SCHEMA && u.identity == TruthIdentity(w, u)
    && u.experimentId == EXPERIMENT_ID && u.configIdentity == ConfigIdentity(w, config) && u.freezeIdentity == d.recordSha
    && u.testLockIdentity == test.identity && test.completedAt < u.lockedAt
  }

  datatype TestBasis = TestBasis(configPath: Path, config: Config, decision: Decision)

  ghost predicate TestHonest(w: World, files: Files, extra: seq<Artifact>, t: TestLock, b: TestBasis) {
    && LoadConfig(w, files, b.configPath) == Ok(b.config)
    && DecidedIn(w, files, b.config, b.decision)
    && TestLocked(w, files, extra, b.config, b.decision, t)
  }

  datatype TruthBasis = TruthBasis(configPath: Path, config: Config, decision: Decision, testPath: Path, test: TestLock)

  ghost predicate TruthHonest(w: World, files: Files, u: TruthLock, b: TruthBasis) {
    && LoadConfig(w, files, b.configPath) == Ok(b.config)
    && DecidedIn(w, files, b.config, b.decision)
    && LoadTestLock(w, files, b.testPath) == Ok(b.test)
    && TruthLocked(w, b.config, b.decision, b.test, u)
  }

  // Everything finalize read and found to be bound together and in order of time.
  ghost predicate ChainIn(w: World, files: Files, c: Chain) {
    && LoadConfig(w, files, c.configPath) == Ok(c.config)
    && DecidedIn(w, files, c.config, c.decision)
    && LoadTestLock(w, files, c.testPath) == Ok(c.test)
    && LoadTruthLock(w, files, c.truthPath) == Ok(c.truth)
    && ChainError(w, c.config, c.decision, c.test, c.truth) == None
  }

  ghost predicate ContextHonest(w: World, files: Files, x: Context, c: Chain) {
    ChainIn(w, files, c) && x == ContextFor(c.decision, c.test, c.truth)
  }

  ghost predicate FrozenHonest(w: World, files: Files, extra: seq<Artifact>, config: Config, c: Chain) {
    && ChainIn(w, files, c)
    && var context := ContextFor(c.decision, c.test, c.truth);
       config == FrozenConfig(w, c.config, config.contextPath, context)
       && Available(files, extra, config.contextPath, ContextDoc(context))
  }

  // ---- where a config comes from ----

  // A config without its temporal context.
  function Bare(config: Config): Config {
    config.(contextPath := DEFAULT_CONTEXT_PATH, contextSha := UNRESOLVED)
  }

  datatype Authorization = Authorization(approved: Approved, requirementsPath: Path, requirements: Document,
                                         catalogPath: Path, catalog: Document)

  // The config is the one `authorize` writes for an approved candidate, beside the stored
  // requirements and the stored catalog with the approved decision.
  ghost predicate AuthorizedFrom(w: World, files: Files, extra: seq<Artifact>, config: Config, z: Authorization) {
    && z.catalog.CatalogDoc? && |z.catalog.decisions| == 1
    && ApprovedBy(w, files, z.catalog.decisions[0], z.approved)
    && Available(files, extra, z.requirementsPath, z.requirements)
    && Available(files, extra, z.catalogPath, z.catalog)
    && config == AuthorizedConfig(w, files[z.approved.candidatePath].config, z.requirementsPath, z.requirements,
                                  z.catalogPath, z.catalog)
  }

  ghost predicate Authorized(w: World, files: Files, extra: seq<Artifact>, config: Config) {
    exists z: Authorization :: AuthorizedFrom(w, files, extra, config, z)
  }

  ghost predicate Initial(start: Files, config: Config) {
    exists p :: p in start && start[p].ConfigDoc? && Bare(start[p].config) == Bare(config)
  }

  // Its temporal context aside, a config was authorized or was there from the start.
  ghost predicate Rooted(w: World, start: Files, files: Files, extra: seq<Artifact>, config: Config) {
    Authorized(w, files, extra, Bare(config)) || Initial(start, config)
  }

  ghost predicate Honest(w: World, start: Files, files: Files, extra: seq<Artifact>, d: Document) {
    match d
    case CatalogDoc(_, decisions) =>
      |decisions| == 1 && exists a: Approved :: ApprovedBy(w, files, decisions[0], a)
    case TestLockDoc(t) => exists b: TestBasis :: TestHonest(w, files, extra, t, b)
    case TruthLockDoc(u) => exists b: TruthBasis :: TruthHonest(w, files, u, b)
    case ContextDoc(x) => exists c: Chain :: ContextHonest(w, files, x, c)
    case ConfigDoc(config) =>
      && Rooted(w, start, files, extra, config)
      && (config.contextSha == UNRESOLVED || exists c: Chain :: FrozenHonest(w, files, extra, config, c))
    case _ => true
  }

  // ---- the store only grows, and what holds keeps holding ----

  ghost predicate Grows(f: Files, g: Files) {
    forall p :: p in f ==> p in g && g[p] == f[p]
  }

  lemma SameApproval(w: World, f: Files, g: Files, d: Decision, a: Approved)
    requires Grows(f, g) && ApprovedBy(w, f, d, a)
    ensures ApprovedBy(w, g, d, a) && g[a.candidatePath] == f[a.candidatePath]
  {
    hide DecisionFor, EveryGroupApproved;
  }

  lemma ApprovedGrows(w: World, f: Files, g: Files, d: Decision)
    requires Grows(f, g) && exists a: Approved :: ApprovedBy(w, f, d, a)
    ensures exists a: Approved :: ApprovedBy(w, g, d, a)
  {
    hide ApprovedBy;
    var a: Approved :| ApprovedBy(w, f, d, a);
    SameApproval(w, f, g, d, a);
  }

  lemma DecidedGrows(w: World, f: Files, g: Files, config: Config, d: Decision)
    requires Grows(f, g) && DecidedIn(w, f, config, d)
    ensures DecidedIn(w, g, config, d)
  {
    ApprovedGrows(w, f, g, d);
  }

  // Published artifacts may move from the pending list into the store.
  ghost predicate Covers(f: Files, extra: seq<Artifact>, g: Files, rest: seq<Artifact>) {
    && Grows(f, g)
    && forall a :: a in extra ==> Available(g, rest, a.path, a.document)
  }

  lemma AvailableGrows(f: Files, extra: seq<Artifact>, g: Files, rest: seq<Artifact>, path: Path, document: Document)
    requires Covers(f, extra, g, rest) && Available(f, extra, path, document)
    ensures Available(g, rest, path, document)
  {
  }

  lemma KeptGrows(w: World, f: Files, extra: seq<Artifact>, g: Files, rest: seq<Artifact>, path: Path, sha: string)
    requires Covers(f, extra, g, rest) && Kept(w, f, extra, path, sha)
    ensures Kept(w, g, rest, path, sha)
  {
    var document: Document :| Available(f, extra, path, document) && w.hash(document) == sha;
    AvailableGrows(f, extra, g, rest, path, document);
  }

  lemma AuthorizedGrows(w: World, f: Files, extra: seq<Artifact>, g: Files, rest: seq<Artifact>, config: Config)
    requires Covers(f, extra, g, rest) && Authorized(w, f, extra, config)
    ensures Authorized(w, g, rest, config)
  {
    hide ApprovalError, DecisionFor, Available;
    var z: Authorization :| AuthorizedFrom(w, f, extra, config, z);
    SameApproval(w, f, g, z.catalog.decisions[0], z.approved);
    AvailableGrows(f, extra, g, rest, z.requirementsPath, z.requirements);
    AvailableGrows(f, extra, g, rest, z.catalogPath, z.catalog);
    assert AuthorizedFrom(w, g, rest, config, z);
  }

  lemma ChainGrows(w: World, f: Files, g: Files, c: Chain)
    requires Grows(f, g) && ChainIn(w, f, c)
    ensures ChainIn(w, g, c)
  {
    hide ChainError, TestIdentity, TruthIdentity;
    DecidedGrows(w, f, g, c.config, c.decision);
  }

  lemma TestGrows(w: World, f: Files, extra: seq<Artifact>, g: Files, rest: seq<Artifact>, t: TestLock, b: TestBasis)
    requires Covers(f, extra, g, rest) && TestHonest(w, f, extra, t, b)
    ensures TestHonest(w, g, rest, t, b)
  {
    hide Kept, TestIdentity, DecidedIn;
    DecidedGrows(w, f, g, b.config, b.decision);
    KeptGrows(w, f, extra, g, rest, t.stdoutPath, t.stdoutSha);
    KeptGrows(w, f, extra, g, rest, t.stderrPath, t.stderrSha);
  }

  lemma TruthGrows(w: World, f: Files, g: Files, u: TruthLock, b: TruthBasis)
    requires Grows(f, g) && TruthHonest(w, f, u, b)
    ensures TruthHonest(w, g, u, b)
  {
    hide DecidedIn, TestIdentity, TruthLocked;
    DecidedGrows(w, f, g, b.config, b.decision);
  }

  lemma HonestGrows(w: World, start: Files, f: Files, extra: seq<Artifact>, g: Files, rest: seq<Artifact>, d: Document)
    requires Covers(f, extra, g, rest) && Honest(w, start, f, extra, d)
    ensures Honest(w, start, g, rest, d)
  {
    hide ApprovedBy, TestHonest, TruthHonest, ChainIn, Available, Authorized, Initial;
    match d
    case CatalogDoc(_, decisions) =>
      ApprovedGrows(w, f, g, decisions[0]);
    case TestLockDoc(t) =>
      var b: TestBasis :| TestHonest(w, f, extra, t, b);
      TestGrows(w, f, extra, g, rest, t, b);
    case TruthLockDoc(u) =>
      var b: TruthBasis :| TruthHonest(w, f, u, b);
      TruthGrows(w, f, g, u, b);
    case ContextDoc(x) =>
      var c: Chain :| ContextHonest(w, f, x, c);
      ChainGrows(w, f, g, c);
      assert ContextHonest(w, g, x, c);
    case ConfigDoc(config) =>
      if Authorized(w, f, extra, Bare(config)) {
        AuthorizedGrows(w, f, extra, g, rest, Bare(config));
      }
      if config.contextSha != UNRESOLVED {
        var c: Chain :| FrozenHonest(w, f, extra, config, c);
        ChainGrows(w, f, g, c);
        AvailableGrows(f, extra, g, rest, config.contextPath, ContextDoc(ContextFor(c.decision, c.test, c.truth)));
        assert FrozenHonest(w, g, rest, config, c);
      }
    case _ =>
  }

  // ---- what a command plans to publish is honest at the moment it reads ----

  ghost predicate FilesHonest(w: World, start: Files, files: Files) {
    forall p :: p in files ==> Honest(w, start, files, [], files[p])
  }

  ghost predicate PlanHonest(w: World, start: Files, files: Files, pending: seq<Artifact>) {
    forall k :: 0 <= k < |pending| ==> Honest(w, start, files, pending[..k], pending[k].document)
  }

  // A decision read from an honest store has its approval.
  lemma DecisionsAreApproved(w: World, start: Files, files: Files, config: Config, d: Decision)
    requires FilesHonest(w, start, files) && LoadDecision(files, config) == Ok(d)
    ensures DecidedIn(w, files, config, d)
  {
    hide ApprovedBy;
    assert Honest(w, start, files, [], files[config.catalogPath]);
  }

  lemma AuthorizeIsHonest(w: World, start: Files, files: Files, c: Command)
    requires c.Authorize? && FilesHonest(w, start, files)
    ensures PlanHonest(w, start, files, PlanOf(w, files, c).publications)
  {
    hide DecisionFor, EveryGroupApproved, FilesHonest, AuthorizedConfig, ApprovalError;
    var plan := PlanOf(w, files, c);
    if plan.publications != [] {
      var approval := files[c.approvalPath].approval;
      var d := DecisionFor(w, approval, c.freezeTime);
      var approved := Approved(c.approvalPath, c.candidatePath, c.freezeTime);
      var requirements, catalog := RequirementsDoc(c.approvedSlots, false), CatalogDoc(c.catalogContent, [d]);
      var config := AuthorizedConfig(w, files[c.candidatePath].config, c.requirementsPath, requirements, c.catalogPath, catalog);
      assert plan.publications == [Artifact(c.requirementsPath, requirements), Artifact(c.catalogPath, catalog),
                                   Artifact(c.authorizedPath, ConfigDoc(config))];
      assert ApprovedBy(w, files, d, approved);
      assert [d][0] == d && Honest(w, start, files, plan.publications[..1], catalog);
      var extra := plan.publications[..2];
      assert extra[0] == Artifact(c.requirementsPath, requirements) && extra[1] == Artifact(c.catalogPath, catalog);
      assert extra[0] in extra && extra[1] in extra;
      assert AuthorizedFrom(w, files, extra, config, Authorization(approved, c.requirementsPath, requirements, c.catalogPath, catalog));
      AuthorizedIsBare(w, files[c.candidatePath].config, c.requirementsPath, requirements, c.catalogPath, catalog);
    }
  }

  lemma AuthorizedIsBare(w: World, config: Config, requirementsPath: Path, requirements: Document, catalogPath: Path, catalog: Document)
    ensures var authorized := AuthorizedConfig(w, config, requirementsPath, requirements, catalogPath, catalog);
            Bare(authorized) == authorized && authorized.contextSha == UNRESOLVED
  {
  }

  lemma VerifyIsHonest(w: World, start: Files, files: Files, c: Command)
    requires c.Verify? && FilesHonest(w, start, files)
    ensures PlanHonest(w, start, files, PlanOf(w, files, c).publications)
  {
    hide DecidedIn, FilesHonest;
    var plan := PlanOf(w, files, c);
    if plan.publications != [] {
      var config := LoadConfig(w, files, c.authorizedPath).value;
      var d := LoadDecision(files, config).value;
      DecisionsAreApproved(w, start, files, config, d);
      var lock := plan.publications[2].document.test;
      var extra := plan.publications[..2];
      SealedTest(w, config, d, c);
      assert extra[0] in extra && extra[1] in extra;
      assert Available(files, extra, c.stdoutPath, OutputDoc(c.stdout));
      assert Available(files, extra, c.stderrPath, OutputDoc(c.stderr));
      assert TestHonest(w, files, extra, lock, TestBasis(c.authorizedPath, config, d));
    }
  }

  lemma SealedTest(w: World, config: Config, d: Decision, c: Command)
    requires c.Verify?
    ensures var t := TestLockFor(w, config, d, c.startedAt, c.completedAt, c.exitCode, c.stdoutPath, c.stdout, c.stderrPath, c.stderr);
            t.identity == TestIdentity(w, t)
  {
    var t := TestLockFor(w, config, d, c.startedAt, c.completedAt, c.exitCode, c.stdoutPath, c.stdout, c.stderrPath, c.stderr);
    var bare := TestLock(TEST_LOCK_SCHEMA, EXPERIMENT_ID, ConfigIdentity(w, config), d.recordSha, c.startedAt, c.completedAt,
                         c.exitCode, true, c.stdoutPath, w.hash(OutputDoc(c.stdout)), c.stderrPath,
                         w.hash(OutputDoc(c.stderr)), "");
    assert t.(identity := "") == bare;
  }

  lemma LockTruthIsHonest(w: World, start: Files, files: Files, c: Command)
    requires c.LockTruth? && FilesHonest(w, start, files)
    ensures PlanHonest(w, start, files, PlanOf(w, files, c).publications)
  {
    hide DecidedIn, FilesHonest, TestIdentity;
    var plan := PlanOf(w, files, c);
    if plan.publications != [] {
      var config := LoadConfig(w, files, c.authorizedPath).value;
      var d := LoadDecision(files, config).value;
      var test := LoadTestLock(w, files, c.testLockPath).value;
      DecisionsAreApproved(w, start, files, config, d);
      var u := plan.publications[0].document.truth;
      assert u.(identity := "") == TruthLock(TRUTH_LOCK_SCHEMA, EXPERIMENT_ID, ConfigIdentity(w, config), d.recordSha,
                                             test.identity, c.lockedAt, c.snapshots.value, "");
      assert TruthHonest(w, files, u, TruthBasis(c.authorizedPath, config, d, c.testLockPath, test));
    }
  }

  lemma FinalizeIsHonest(w: World, start: Files, files: Files, c: Command)
    requires c.Finalize? && FilesHonest(w, start, files)
    ensures PlanHonest(w, start, files, PlanOf(w, files, c).publications)
  {
    hide DecidedIn, FilesHonest, TestIdentity, TruthIdentity, ChainError, Rooted, TestHonest, TruthHonest;
    var plan := PlanOf(w, files, c);
    if plan.publications != [] {
      var config := LoadConfig(w, files, c.authorizedPath).value;
      var d := LoadDecision(files, config).value;
      DecisionsAreApproved(w, start, files, config, d);
      var chain := Chain(c.authorizedPath, config, d, c.testLockPath, LoadTestLock(w, files, c.testLockPath).value,
                         c.truthLockPath, LoadTruthLock(w, files, c.truthLockPath).value);
      var context := ContextFor(d, chain.test, chain.truth);
      assert ContextHonest(w, files, context, chain);
      if |plan.publications| == 2 {
        FrozenIsRooted(w, start, files, c.authorizedPath, plan.publications[..1], c.contextPath, context);
        assert plan.publications[..1][0] == Artifact(c.contextPath, ContextDoc(context));
        assert FrozenHonest(w, files, plan.publications[..1], plan.publications[1].document.config, chain);
      }
    }
  }

  // Freezing changes nothing but the temporal context.
  lemma FrozenIsRooted(w: World, start: Files, files: Files, path: Path, extra: seq<Artifact>, contextPath: Path, context: Context)
    requires FilesHonest(w, start, files) && path in files && files[path].ConfigDoc?
    ensures Rooted(w, start, files, extra, FrozenConfig(w, files[path].config, contextPath, context))
  {
    hide Authorized, FrozenHonest;
    var config := files[path].config;
    var frozen := FrozenConfig(w, config, contextPath, context);
    assert Honest(w, start, files, [], files[path]);
    assert Bare(frozen) == Bare(config);
    if Authorized(w, files, [], Bare(config)) {
      AuthorizedGrows(w, files, [], files, extra, Bare(config));
    }
  }

  lemma PlansAreHonest(w: World, start: Files, files: Files, c: Command)
    requires FilesHonest(w, start, files)
    ensures PlanHonest(w, start, files, PlanOf(w, files, c).publications)
  {
    hide FilesHonest, PlanHonest, PlanOf;
    match c
    case Authorize(_, _, _, _, _, _, _, _, _) => AuthorizeIsHonest(w, start, files, c);
    case Verify(_, _, _, _, _, _, _, _, _) => VerifyIsHonest(w, start, files, c);
    case LockTruth(_, _, _, _, _) => LockTruthIsHonest(w, start, files, c);
    case Finalize(_, _, _, _, _, _) => FinalizeIsHonest(w, start, files, c);
  }

  // ---- the invariant of every run ----

  ghost predicate Inv(w: World, start: Files, s: State) {
    && FilesHonest(w, start, s.files)
    && forall i :: 0 <= i < |s.jobs| ==> PlanHonest(w, start, s.files, s.jobs[i].pending)
  }

  lemma PlanGrows(w: World, start: Files, f: Files, g: Files, pending: seq<Artifact>)
    requires Grows(f, g) && PlanHonest(w, start, f, pending)
    ensures PlanHonest(w, start, g, pending)
  {
    hide Honest;
    forall k | 0 <= k < |pending| ensures Honest(w, start, g, pending[..k], pending[k].document) {
      HonestGrows(w, start, f, pending[..k], g, pending[..k], pending[k].document);
    }
  }

  // Publishing the first pending artifact keeps the rest of the plan honest.
  lemma PlanAdvances(w: World, start: Files, f: Files, g: Files, pending: seq<Artifact>)
    requires Grows(f, g) && PlanHonest(w, start, f, pending) && pending != []
    requires pending[0].path in g && g[pending[0].path] == pending[0].document
    ensures PlanHonest(w, start, g, pending[1..])
  {
    hide Honest;
    forall k | 0 <= k < |pending| - 1 ensures Honest(w, start, g, pending[1..][..k], pending[1..][k].document) {
      forall a | a in pending[..k + 1] ensures Available(g, pending[1..][..k], a.path, a.document) {
        var i :| 0 <= i < k + 1 && pending[i] == a;
        if i > 0 {
          assert pending[1..][..k][i - 1] == a;
        }
      }
      HonestGrows(w, start, f, pending[..k + 1], g, pending[1..][..k], pending[k + 1].document);
    }
  }

  lemma PublishGrows(files: Files, path: Path, document: Document)
    ensures var (next, outcome) := Publication.Publish(files, path, document);
            Grows(files, next) && (outcome != Publication.Conflict ==> path in next && next[path] == document)
            && (forall p :: p in next && p !in files ==> p == path && next[p] == document)
  {
  }

  lemma FilesStayHonest(w: World, start: Files, f: Files, g: Files, path: Path, document: Document)
    requires FilesHonest(w, start, f) && Grows(f, g) && Honest(w, start, f, [], document)
    requires forall p :: p in g && p !in f ==> p == path && g[p] == document
    ensures FilesHonest(w, start, g)
  {
    hide Honest;
    forall p | p in g ensures Honest(w, start, g, [], g[p]) {
      HonestGrows(w, start, f, [], g, [], g[p]);
    }
  }

  lemma StepInv(w: World, start: Files, s: State, l: Label, s': State)
    requires Inv(w, start, s) && Step(w, s, l, s')
    ensures Inv(w, start, s') && Grows(s.files, s'.files)
  {
    hide Honest, PlanHonest, FilesHonest, PlanOf;
    match l
    case Begin(command) =>
      PlansAreHonest(w, start, s.files, command);
    case Continue(i) =>
      var first := s.jobs[i].pending[0];
      PublishGrows(s.files, first.path, first.document);
      assert Honest(w, start, s.files, [], first.document) by {
        FirstIsHonest(w, start, s.files, s.jobs[i].pending);
      }
      FilesStayHonest(w, start, s.files, s'.files, first.path, first.document);
      forall j | 0 <= j < |s'.jobs| ensures PlanHonest(w, start, s'.files, s'.jobs[j].pending) {
        if j != i {
          PlanGrows(w, start, s.files, s'.files, s.jobs[j].pending);
        } else if s'.jobs[i].pending == [] {
          NothingPending(w, start, s'.files);
        } else {
          PlanAdvances(w, start, s.files, s'.files, s.jobs[i].pending);
        }
      }
  }

  lemma FirstIsHonest(w: World, start: Files, files: Files, pending: seq<Artifact>)
    requires PlanHonest(w, start, files, pending) && pending != []
    ensures Honest(w, start, files, [], pending[0].document)
  {
    hide Honest;
    assert pending[..0] == [];
  }

  lemma NothingPending(w: World, start: Files, files: Files)
    ensures PlanHonest(w, start, files, [])
  {
  }

  lemma {:induction false} PerformKeeps(w: World, start: Files, files: Files, plan: Plan)
    requires FilesHonest(w, start, files) && PlanHonest(w, start, files, plan.publications)
    ensures Grows(files, Perform(files, plan).0) && FilesHonest(w, start, Perform(files, plan).0)
    decreases |plan.publications|
  {
    hide Honest, PlanHonest, FilesHonest;
    if plan.publications != [] {
      var first := plan.publications[0];
      var (next, outcome) := Publication.Publish(files, first.path, first.document);
      PublishGrows(files, first.path, first.document);
      if outcome != Publication.Conflict {
        FirstIsHonest(w, start, files, plan.publications);
        FilesStayHonest(w, start, files, next, first.path, first.document);
        PlanAdvances(w, start, files, next, plan.publications);
        PerformKeeps(w, start, next, plan.(publications := plan.publications[1..]));
      }
    }
  }

  // A command that runs alone, to its end or to its first conflict, keeps the store honest.
  lemma CommandKeepsHonest(w: World, start: Files, files: Files, c: Command)
    requires FilesHonest(w, start, files)
    ensures Grows(files, Perform(files, PlanOf(w, files, c)).0)
    ensures FilesHonest(w, start, Perform(files, PlanOf(w, files, c)).0)
  {
    hide PlanOf, FilesHonest, PlanHonest, Perform;
    PlansAreHonest(w, start, files, c);
    PerformKeeps(w, start, files, PlanOf(w, files, c));
  }

  lemma {:induction false} RunInv(w: World, states: seq<State>, k: nat)
    requires Run(w, states) && k < |states|
    ensures Inv(w, states[0].files, states[k])
  {
    hide Step, Inv, Honest, IsInput;
    if k == 0 {
      InputsAreHonest(w, states[0]);
    } else {
      RunInv(w, states, k - 1);
      assert Next(w, states[k - 1], states[k - 1 + 1]);
      var l: Label :| Step(w, states[k - 1], l, states[k]);
      StepInv(w, states[0].files, states[k - 1], l, states[k]);
    }
  }

  lemma InputsAreHonest(w: World, s: State)
    requires Init(s)
    ensures Inv(w, s.files, s)
  {
    forall p | p in s.files ensures Honest(w, s.files, s.files, [], s.files[p]) {
      assert IsInput(s.files[p]);
    }
  }

  // ---- what a frozen config proves ----

  // Behind a frozen config: an accepted candidate with the owner's approval, the one decision that records it, a
  // successful test lock and a truth lock, sealed, bound to one config and to each other, frozen before tested before
  // truth-locked, the context that records them, and nothing of the config changed but its context.
  ghost predicate ChainBehind(w: World, files: Files, frozen: Config, c: Chain, a: Approved) {
    && a.candidatePath in files && files[a.candidatePath].ConfigDoc? && w.accepts(files[a.candidatePath].config)
    && a.approvalPath in files && files[a.approvalPath].ApprovalDoc?
    && OwnerApproved(w, files, files[a.candidatePath].config, files[a.approvalPath].approval, a.freezeTime)
    && Records(w, c.decision, files[a.approvalPath].approval, a.freezeTime)
    && ConfigAt(w, files, c.configPath, c.config) && OneDecision(files, c.config, c.decision)
    && TestLockAt(w, files, c.testPath, c.test) && TruthLockAt(w, files, c.truthPath, c.truth)
    && Bound(w, c.config, c.decision, c.test, c.truth)
    && frozen.contextPath in files && files[frozen.contextPath].ContextDoc?
    && ContextOf(files[frozen.contextPath].context, c.decision, c.test, c.truth)
    && FrozenAs(w, frozen, c.config, frozen.contextPath, files[frozen.contextPath].context)
  }

  // The same, as the commands compute it.
  ghost predicate ChainFound(w: World, files: Files, frozen: Config, c: Chain, a: Approved) {
    && ChainIn(w, files, c) && ApprovedBy(w, files, c.decision, a)
    && frozen.contextPath in files && files[frozen.contextPath] == ContextDoc(ContextFor(c.decision, c.test, c.truth))
    && frozen == FrozenConfig(w, c.config, frozen.contextPath, ContextFor(c.decision, c.test, c.truth))
  }

  lemma FoundIsBehind(w: World, files: Files, frozen: Config, c: Chain, a: Approved)
    requires ChainFound(w, files, frozen, c, a)
    ensures ChainBehind(w, files, frozen, c, a)
  {
    hide ApprovalError, DecisionFor, ChainError, TestIdentity, TruthIdentity, OwnerApproved, Records, Bound, DecidedIn, FrozenAs,
         ConfigAt, OneDecision, TestLockAt, TruthLockAt, ContextOf;
    var candidate, approval := files[a.candidatePath].config, files[a.approvalPath].approval;
    ApprovalPasses(w, files, candidate, approval, a.freezeTime);
    DecisionRecords(w, c.decision, approval, a.freezeTime);
    WhatIsRead(w, files, c.configPath, c.config);
    WhatIsRead(w, files, c.testPath, c.config);
    WhatIsRead(w, files, c.truthPath, c.config);
    ChainIsBound(w, c.config, c.decision, c.test, c.truth);
    assert LoadDecision(files, c.config) == Ok(c.decision) by {
      DecidedMeans(w, files, c);
    }
    var context := files[frozen.contextPath].context;
    ContextIs(context, c.decision, c.test, c.truth);
    FrozenConfigIs(w, frozen, c.config, frozen.contextPath, context);
  }

  lemma DecidedMeans(w: World, files: Files, c: Chain)
    requires DecidedIn(w, files, c.config, c.decision)
    ensures LoadDecision(files, c.config) == Ok(c.decision)
  {
  }

  lemma HonestHasChain(w: World, start: Files, files: Files, path: Path) returns (c: Chain, a: Approved)
    requires FilesHonest(w, start, files) && path in files && files[path].ConfigDoc?
    requires files[path].config.contextSha != UNRESOLVED
    ensures ChainFound(w, files, files[path].config, c, a) && ChainBehind(w, files, files[path].config, c, a)
  {
    hide TestIdentity, TruthIdentity, ApprovedBy, Rooted, ChainBehind;
    var frozen := files[path].config;
    assert Honest(w, start, files, [], files[path]);
    c :| FrozenHonest(w, files, [], frozen, c);
    a :| ApprovedBy(w, files, c.decision, a);
    FoundIsBehind(w, files, frozen, c, a);
  }

  lemma FrozenFindsChain(w: World, states: seq<State>, k: nat, path: Path) returns (c: Chain, a: Approved)
    requires Run(w, states) && k < |states| && path in states[k].files
    requires states[k].files[path].ConfigDoc? && states[k].files[path].config.contextSha != UNRESOLVED
    ensures ChainFound(w, states[k].files, states[k].files[path].config, c, a)
    ensures ChainBehind(w, states[k].files, states[k].files[path].config, c, a)
  {
    hide Step, Run, FilesHonest, ChainBehind, ChainFound;
    RunInv(w, states, k);
    c, a := HonestHasChain(w, states[0].files, states[k].files, path);
  }

  // Once a config carries a resolved temporal context, the store holds the whole chain behind it.
  lemma FrozenHasChain(w: World, states: seq<State>, k: nat, path: Path) returns (c: Chain, a: Approved)
    requires Run(w, states) && k < |states| && path in states[k].files
    requires states[k].files[path].ConfigDoc? && states[k].files[path].config.contextSha != "UNRESOLVED"
    ensures ChainBehind(w, states[k].files, states[k].files[path].config, c, a)
  {
    hide Run, ChainBehind, ChainFound;
    c, a := FrozenFindsChain(w, states, k, path);
  }

  // Every test lock in the store was published by a successful run later than the freeze,
  // and the output it names is in the store.
  lemma TestLocksAreEarned(w: World, states: seq<State>, k: nat, path: Path) returns (b: TestBasis)
    requires Run(w, states) && k < |states| && path in states[k].files && states[k].files[path].TestLockDoc?
    ensures var files, t := states[k].files, states[k].files[path].test;
            && TestLockAt(w, files, path, t) && t.experimentId == "thesis-evaluation-v2"
            && ConfigAt(w, files, b.configPath, b.config) && OneDecision(files, b.config, b.decision)
            && t.configIdentity == w.hash(ConfigDoc(b.config)) && t.freezeIdentity == b.decision.recordSha
            && t.passed && t.exitCode == 0 && b.decision.freezeTime < t.completedAt
            && t.stdoutPath in files && w.hash(files[t.stdoutPath]) == t.stdoutSha
            && t.stderrPath in files && w.hash(files[t.stderrPath]) == t.stderrSha
  {
    hide Step, Run, TestIdentity, ApprovedBy, OneDecision, TestLockAt, ConfigAt;
    RunInv(w, states, k);
    var files, t := states[k].files, states[k].files[path].test;
    assert Honest(w, states[0].files, files, [], files[path]);
    b :| TestHonest(w, files, [], t, b);
    WhatIsRead(w, files, b.configPath, b.config);
    WhatIsRead(w, files, path, b.config);
    assert LoadTestLock(w, files, path) == Ok(t);
  }

  // ---- identities ----

  ghost predicate Injective(w: World) {
    forall a, b: Document :: w.hash(a) == w.hash(b) ==> a == b
  }

  // The identity field and the sealed body fix a lock.
  lemma SealedTestsAreEqual(w: World, a: TestLock, b: TestLock)
    requires Injective(w)
    ensures a.identity == b.identity && TestIdentity(w, a) == TestIdentity(w, b) ==> a == b
  {
    if a.identity == b.identity && TestIdentity(w, a) == TestIdentity(w, b) {
      assert TestLockDoc(a.(identity := "")) == TestLockDoc(b.(identity := ""));
      assert a == a.(identity := "").(identity := a.identity) && b == b.(identity := "").(identity := b.identity);
    }
  }

  lemma SealedTruthsAreEqual(w: World, a: TruthLock, b: TruthLock)
    requires Injective(w)
    ensures a.identity == b.identity && TruthIdentity(w, a) == TruthIdentity(w, b) ==> a == b
  {
    if a.identity == b.identity && TruthIdentity(w, a) == TruthIdentity(w, b) {
      assert TruthLockDoc(a.(identity := "")) == TruthLockDoc(b.(identity := ""));
      assert a == a.(identity := "").(identity := a.identity) && b == b.(identity := "").(identity := b.identity);
    }
  }

  // A lock that loads cannot be altered and still load under the same identity.
  lemma AlteredTestLockIsRefused(w: World, files: Files, path: Path, altered: TestLock)
    requires Injective(w) && LoadTestLock(w, files, path).Ok?
    requires altered.identity == files[path].test.identity && altered != files[path].test
    ensures LoadTestLock(w, files[path := TestLockDoc(altered)], path).Err?
  {
    hide TestIdentity;
    SealedTestsAreEqual(w, altered, files[path].test);
  }

  lemma AlteredTruthLockIsRefused(w: World, files: Files, path: Path, altered: TruthLock)
    requires Injective(w) && LoadTruthLock(w, files, path).Ok?
    requires altered.identity == files[path].truth.identity && altered != files[path].truth
    ensures LoadTruthLock(w, files[path := TruthLockDoc(altered)], path).Err?
  {
    hide TruthIdentity;
    SealedTruthsAreEqual(w, altered, files[path].truth);
  }

  lemma RecordedDecisionsAreEqual(w: World, f: Files, g: Files, d: Decision, e: Decision, a: Approved, b: Approved)
    requires Injective(w) && ApprovedBy(w, f, d, a) && ApprovedBy(w, g, e, b) && d.recordSha == e.recordSha
    ensures d == e
    ensures f[a.approvalPath] == g[b.approvalPath]
    ensures f[a.candidatePath] == g[b.candidatePath]
  {
    hide EveryGroupApproved;
    var p, q := f[a.approvalPath].approval, g[b.approvalPath].approval;
    assert DecisionDoc(d.(recordSha := "")) == DecisionDoc(e.(recordSha := ""));
    assert d.contentSha == e.contentSha;
    assert BindingDoc(w.hash(ApprovalDoc(p)), p.approvalId, p.candidateConfigIdentity, p.candidateRequirementsSha)
        == BindingDoc(w.hash(ApprovalDoc(q)), q.approvalId, q.candidateConfigIdentity, q.candidateRequirementsSha);
    assert ConfigDoc(f[a.candidatePath].config) == ConfigDoc(g[b.candidatePath].config);
  }

  // The same frozen config, found in two stores whatever their histories, pins the same
  // decision, owner approval, candidate config, test lock, truth lock and authorized config.
  lemma FrozenPinsChain(w: World, states: seq<State>, k: nat, path: Path, others: seq<State>, m: nat, otherPath: Path)
    returns (c: Chain, c': Chain, a: Approved, a': Approved)
    requires Injective(w) && Run(w, states) && Run(w, others) && k < |states| && m < |others|
    requires path in states[k].files && states[k].files[path].ConfigDoc?
    requires states[k].files[path].config.contextSha != UNRESOLVED
    requires otherPath in others[m].files && others[m].files[otherPath] == states[k].files[path]
    ensures ChainBehind(w, states[k].files, states[k].files[path].config, c, a)
    ensures ChainBehind(w, others[m].files, states[k].files[path].config, c', a')
    ensures c.decision == c'.decision && c.test == c'.test && c.truth == c'.truth && c.config == c'.config
    ensures states[k].files[a.approvalPath] == others[m].files[a'.approvalPath]
    ensures states[k].files[a.candidatePath] == others[m].files[a'.candidatePath]
  {
    hide Run, ApprovedBy, TestIdentity, TruthIdentity, ChainBehind;
    c, a := FrozenFindsChain(w, states, k, path);
    c', a' := FrozenFindsChain(w, others, m, otherPath);
    assert ContextDoc(ContextFor(c.decision, c.test, c.truth)) == ContextDoc(ContextFor(c'.decision, c'.test, c'.truth));
    SealedTestsAreEqual(w, c.test, c'.test);
    SealedTruthsAreEqual(w, c.truth, c'.truth);
    RecordedDecisionsAreEqual(w, states[k].files, others[m].files, c.decision, c'.decision, a, a');
    assert ConfigDoc(c.config) == ConfigDoc(c'.config);
  }
}
