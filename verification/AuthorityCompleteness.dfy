// The four commands in order, on inputs that meet their checks, do reach a frozen config.
module AuthorityCompleteness {
  import opened Wrappers
  import opened AuthorityDocuments
  import opened AuthorityStore
  import opened AuthorityVerdicts
  import opened AuthorityChain
  import Publication

  // A command that returns without error, and the store it leaves.
  ghost predicate Completes(w: World, f: Files, c: Command, g: Files) {
    Perform(f, PlanOf(w, f, c)) == (g, None)
  }

  lemma PublishThree(files: Files, a: Artifact, b: Artifact, c: Artifact)
    requires a.path !in files && b.path !in files && c.path !in files
    requires a.path != b.path && a.path != c.path && b.path != c.path
    ensures Perform(files, Plan([a, b, c], None))
         == (files[a.path := a.document][b.path := b.document][c.path := c.document], None)
  {
    var f1 := files[a.path := a.document];
    var f2 := f1[b.path := b.document];
    PerformFirst(files, a, [b, c], None);
    PerformFirst(f1, b, [c], None);
    PerformFirst(f2, c, [], None);
    assert [a] + [b, c] == [a, b, c] && [b] + [c] == [b, c] && [c] + [] == [c];
  }

  lemma PublishTwo(files: Files, a: Artifact, b: Artifact)
    requires a.path !in files && b.path !in files && a.path != b.path
    ensures Perform(files, Plan([a, b], None)) == (files[a.path := a.document][b.path := b.document], None)
  {
    var f1 := files[a.path := a.document];
    PerformFirst(files, a, [b], None);
    PerformFirst(f1, b, [], None);
    assert [a] + [b] == [a, b] && [b] + [] == [b];
  }

  lemma PublishOne(files: Files, a: Artifact)
    requires a.path !in files
    ensures Perform(files, Plan([a], None)) == (files[a.path := a.document], None)
  {
    PerformFirst(files, a, [], None);
    assert [a] + [] == [a];
  }

  // The approval and the candidate that an `authorize` is given pass all its checks.
  ghost predicate Approvable(w: World, files: Files, c: Command) {
    && c.Authorize? && c.bundled
    && c.candidatePath in files && files[c.candidatePath].ConfigDoc? && w.accepts(files[c.candidatePath].config)
    && c.approvalPath in files && files[c.approvalPath].ApprovalDoc?
    && OwnerApproved(w, files, files[c.candidatePath].config, files[c.approvalPath].approval, c.freezeTime)
  }

  function AuthorizedBy(w: World, files: Files, c: Command): Config
    requires c.Authorize? && c.candidatePath in files && files[c.candidatePath].ConfigDoc?
    requires c.approvalPath in files && files[c.approvalPath].ApprovalDoc?
  {
    var catalog := CatalogDoc(c.catalogContent, [DecisionFor(w, files[c.approvalPath].approval, c.freezeTime)]);
    AuthorizedConfig(w, files[c.candidatePath].config, c.requirementsPath, RequirementsDoc(c.approvedSlots, false),
                     c.catalogPath, catalog)
  }

  lemma AuthorizeCompletes(w: World, files: Files, c: Command) returns (g: Files)
    requires Approvable(w, files, c) && w.accepts(AuthorizedBy(w, files, c))
    requires c.requirementsPath !in files && c.catalogPath !in files && c.authorizedPath !in files
    requires c.requirementsPath != c.catalogPath && c.requirementsPath != c.authorizedPath && c.catalogPath != c.authorizedPath
    ensures Completes(w, files, c, g) && Grows(files, g)
    ensures g.Keys == files.Keys + {c.requirementsPath, c.catalogPath, c.authorizedPath}
    ensures var config := AuthorizedBy(w, files, c);
            && LoadConfig(w, g, c.authorizedPath) == Ok(config)
            && LoadDecision(g, config) == Ok(DecisionFor(w, files[c.approvalPath].approval, c.freezeTime))
            && w.hash(g[config.requirementsPath]) == config.requirementsSha
            && w.hash(g[config.catalogPath]) == config.catalogSha
            && config.contextSha == UNRESOLVED
  {
    hide ApprovalError, Perform, OwnerApproved;
    ApprovalPasses(w, files, files[c.candidatePath].config, files[c.approvalPath].approval, c.freezeTime);
    var plan := PlanOf(w, files, c);
    PublishThree(files, plan.publications[0], plan.publications[1], plan.publications[2]);
    assert plan == Plan([plan.publications[0], plan.publications[1], plan.publications[2]], None);
    g := Perform(files, plan).0;
  }

  lemma VerifyCompletes(w: World, files: Files, c: Command, config: Config, d: Decision) returns (g: Files)
    requires c.Verify? && LoadConfig(w, files, c.authorizedPath) == Ok(config) && LoadDecision(files, config) == Ok(d)
    requires c.exitCode == 0 && d.freezeTime < c.completedAt
    requires c.stdoutPath !in files && c.stderrPath !in files && c.testLockPath !in files
    requires c.stdoutPath != c.stderrPath && c.stdoutPath != c.testLockPath && c.stderrPath != c.testLockPath
    ensures Completes(w, files, c, g) && Grows(files, g)
    ensures g.Keys == files.Keys + {c.stdoutPath, c.stderrPath, c.testLockPath}
    ensures var test := TestLockFor(w, config, d, c.startedAt, c.completedAt, 0, c.stdoutPath, c.stdout, c.stderrPath, c.stderr);
            LoadTestLock(w, g, c.testLockPath) == Ok(test)
  {
    hide Perform, TestIdentity;
    var plan := PlanOf(w, files, c);
    PublishThree(files, plan.publications[0], plan.publications[1], plan.publications[2]);
    assert plan == Plan([plan.publications[0], plan.publications[1], plan.publications[2]], None);
    SealedTest(w, config, d, c);
    g := Perform(files, plan).0;
  }

  lemma LockTruthCompletes(w: World, files: Files, c: Command, config: Config, d: Decision, test: TestLock) returns (g: Files)
    requires c.LockTruth? && LoadConfig(w, files, c.authorizedPath) == Ok(config) && LoadDecision(files, config) == Ok(d)
    requires LoadTestLock(w, files, c.testLockPath) == Ok(test) && TestLockBinds(w, config, d, test)
    requires c.snapshots.Some? && test.completedAt < c.lockedAt && c.truthLockPath !in files
    ensures Completes(w, files, c, g) && Grows(files, g)
    ensures g.Keys == files.Keys + {c.truthLockPath}
    ensures LoadTruthLock(w, g, c.truthLockPath) == Ok(TruthLockFor(w, config, d, test, c.lockedAt, c.snapshots.value))
  {
    hide Perform, TruthIdentity, TestIdentity;
    var plan := PlanOf(w, files, c);
    PublishOne(files, plan.publications[0]);
    assert plan == Plan([plan.publications[0]], None);
    SealedTruth(w, config, d, test, c.lockedAt, c.snapshots.value);
    g := Perform(files, plan).0;
  }

  lemma SealedTruth(w: World, config: Config, d: Decision, test: TestLock, lockedAt: Instant, snapshots: string)
    ensures var u := TruthLockFor(w, config, d, test, lockedAt, snapshots);
            u.identity == TruthIdentity(w, u) && u.schemaVersion == TRUTH_LOCK_SCHEMA
  {
    var u := TruthLockFor(w, config, d, test, lockedAt, snapshots);
    assert u.(identity := "") == TruthLock(TRUTH_LOCK_SCHEMA, EXPERIMENT_ID, ConfigIdentity(w, config), d.recordSha,
                                           test.identity, lockedAt, snapshots, "");
  }

  predicate TestLockBinds(w: World, config: Config, d: Decision, test: TestLock) {
    && test.experimentId == EXPERIMENT_ID && test.configIdentity == ConfigIdentity(w, config)
    && test.freezeIdentity == d.recordSha && test.passed && test.exitCode == 0 && d.freezeTime < test.completedAt
  }

  lemma FinalizeCompletes(w: World, files: Files, c: Command, config: Config, d: Decision, test: TestLock, truth: TruthLock)
    returns (g: Files)
    requires c.Finalize? && c.accountable
    requires LoadConfig(w, files, c.authorizedPath) == Ok(config) && LoadDecision(files, config) == Ok(d)
    requires LoadTestLock(w, files, c.testLockPath) == Ok(test) && LoadTruthLock(w, files, c.truthLockPath) == Ok(truth)
    requires ChainError(w, config, d, test, truth) == None
    requires c.contextPath !in files && c.frozenPath !in files && c.contextPath != c.frozenPath
    ensures Completes(w, files, c, g) && Grows(files, g)
    ensures c.frozenPath in g
    ensures g[c.frozenPath] == ConfigDoc(FrozenConfig(w, config, c.contextPath, ContextFor(d, test, truth)))
  {
    hide Perform, TruthIdentity, TestIdentity, ChainError;
    var plan := PlanOf(w, files, c);
    PublishTwo(files, plan.publications[0], plan.publications[1]);
    assert plan == Plan([plan.publications[0], plan.publications[1]], None);
    g := Perform(files, plan).0;
  }

  predicate PathsDistinct(paths: seq<Path>) {
    forall i, j :: 0 <= i < j < |paths| ==> paths[i] != paths[j]
  }

  // The commands of one chain: each is given what its predecessors published.
  predicate Linked(a: Command, v: Command, t: Command, f: Command) {
    && a.Authorize? && v.Verify? && t.LockTruth? && f.Finalize?
    && a.authorizedPath == v.authorizedPath == t.authorizedPath == f.authorizedPath
    && v.testLockPath == t.testLockPath == f.testLockPath && t.truthLockPath == f.truthLockPath
  }

  function NewPaths(a: Command, v: Command, t: Command, f: Command): seq<Path>
    requires Linked(a, v, t, f)
  {
    [a.requirementsPath, a.catalogPath, a.authorizedPath, v.stdoutPath, v.stderrPath, v.testLockPath,
     t.truthLockPath, f.contextPath, f.frozenPath]
  }

  lemma SixPaths(files: Files, a: Path, b: Path, c: Path, d: Path, e: Path, f: Path)
    requires PathsDistinct([a, b, c, d, e, f]) && forall p :: p in [a, b, c, d, e, f] ==> p !in files
    ensures a != b && a != c && b != c && d != e && d != f && e != f
    ensures a !in files && b !in files && c !in files
    ensures forall p :: p in [d, e, f] ==> p !in files.Keys + {a, b, c}
  {
    var paths := [a, b, c, d, e, f];
    assert forall i :: 0 <= i < 6 ==> paths[i] in paths;
    assert paths[0] == a && paths[1] == b && paths[2] == c && paths[3] == d && paths[4] == e && paths[5] == f;
  }

  lemma AuthorizedThenVerified(w: World, files: Files, a: Command, v: Command) returns (s1: Files, s2: Files, config: Config,
                                                                                    d: Decision, test: TestLock)
    requires a.Authorize? && Approvable(w, files, a) && w.accepts(AuthorizedBy(w, files, a))
    requires v.Verify? && v.authorizedPath == a.authorizedPath && v.exitCode == 0 && a.freezeTime < v.completedAt
    requires var paths := [a.requirementsPath, a.catalogPath, a.authorizedPath, v.stdoutPath, v.stderrPath, v.testLockPath];
             PathsDistinct(paths) && forall p :: p in paths ==> p !in files
    ensures Completes(w, files, a, s1) && Completes(w, s1, v, s2)
    ensures s2.Keys == files.Keys + {a.requirementsPath, a.catalogPath, a.authorizedPath, v.stdoutPath, v.stderrPath, v.testLockPath}
    ensures config == AuthorizedBy(w, files, a) && d.freezeTime == a.freezeTime && test.completedAt == v.completedAt
    ensures LoadConfig(w, s2, a.authorizedPath) == Ok(config) && LoadDecision(s2, config) == Ok(d)
    ensures LoadTestLock(w, s2, v.testLockPath) == Ok(test) && TestLockBinds(w, config, d, test)
  {
    hide Approvable, AuthorizedBy, Completes, LoadConfig, LoadDecision, LoadTestLock, TestIdentity, DecisionFor,
         PathsDistinct;
    SixPaths(files, a.requirementsPath, a.catalogPath, a.authorizedPath, v.stdoutPath, v.stderrPath, v.testLockPath);
    InputsAreRead(w, files, a);
    config := AuthorizedBy(w, files, a);
    d := DecisionFor(w, files[a.approvalPath].approval, a.freezeTime);
    s1 := AuthorizeCompletes(w, files, a);
    FreezeIs(w, files[a.approvalPath].approval, a.freezeTime);
    assert forall p :: p in [v.stdoutPath, v.stderrPath, v.testLockPath] ==> p !in s1.Keys;
    s2 := VerifyCompletes(w, s1, v, config, d);
    test := TestLockFor(w, config, d, v.startedAt, v.completedAt, 0, v.stdoutPath, v.stdout, v.stderrPath, v.stderr);
    ReadsStayValid(w, s1, s2, v.authorizedPath, config, d);
  }

  lemma LockedThenFinalized(w: World, s2: Files, t: Command, f: Command, config: Config, d: Decision, test: TestLock)
    returns (s3: Files, s4: Files, context: Context)
    requires t.LockTruth? && f.Finalize? && t.authorizedPath == f.authorizedPath && t.testLockPath == f.testLockPath
    requires t.truthLockPath == f.truthLockPath && t.snapshots.Some? && f.accountable && test.completedAt < t.lockedAt
    requires LoadConfig(w, s2, t.authorizedPath) == Ok(config) && LoadDecision(s2, config) == Ok(d)
    requires LoadTestLock(w, s2, t.testLockPath) == Ok(test) && TestLockBinds(w, config, d, test)
    requires t.truthLockPath !in s2 && f.contextPath !in s2 && f.frozenPath !in s2
    requires t.truthLockPath != f.contextPath && t.truthLockPath != f.frozenPath && f.contextPath != f.frozenPath
    ensures Completes(w, s2, t, s3) && Completes(w, s3, f, s4)
    ensures f.frozenPath in s4 && s4[f.frozenPath] == ConfigDoc(FrozenConfig(w, config, f.contextPath, context))
  {
    hide Completes, LoadConfig, LoadDecision, LoadTestLock, LoadTruthLock, TestIdentity, TruthIdentity;
    s3 := LockTruthCompletes(w, s2, t, config, d, test);
    var truth := TruthLockFor(w, config, d, test, t.lockedAt, t.snapshots.value);
    context := ContextFor(d, test, truth);
    ReadsStayValid(w, s2, s3, t.authorizedPath, config, d);
    LockStaysValid(w, s2, s3, t.testLockPath, test);
    s4 := FinalizeCompletes(w, s3, f, config, d, test, truth);
  }

  // An approvable candidate, a passing suite, a source that can be snapshot and a gate that closes,
  // in this order of time and on fresh paths, end in a frozen config.
  lemma ChainCompletes(w: World, files: Files, a: Command, v: Command, t: Command, f: Command)
    returns (s1: Files, s2: Files, s3: Files, s4: Files)
    requires Linked(a, v, t, f) && Approvable(w, files, a) && w.accepts(AuthorizedBy(w, files, a))
    requires PathsDistinct(NewPaths(a, v, t, f)) && forall p :: p in NewPaths(a, v, t, f) ==> p !in files
    requires v.exitCode == 0 && t.snapshots.Some? && f.accountable
    requires a.freezeTime < v.completedAt < t.lockedAt
    ensures Completes(w, files, a, s1) && Completes(w, s1, v, s2) && Completes(w, s2, t, s3) && Completes(w, s3, f, s4)
    ensures f.frozenPath in s4 && s4[f.frozenPath].ConfigDoc?
    ensures s4[f.frozenPath].config.(contextPath := DEFAULT_CONTEXT_PATH, contextSha := UNRESOLVED) == AuthorizedBy(w, files, a)
  {
    hide Approvable, AuthorizedBy, Completes, LoadConfig, LoadDecision, LoadTestLock, LoadTruthLock, TestLockBinds,
         PathsDistinct, FrozenConfig;
    NineNewPaths(files, a.requirementsPath, a.catalogPath, a.authorizedPath, v.stdoutPath, v.stderrPath, v.testLockPath,
                 t.truthLockPath, f.contextPath, f.frozenPath);
    InputsAreRead(w, files, a);
    var config, d, test;
    s1, s2, config, d, test := AuthorizedThenVerified(w, files, a, v);
    var context;
    s3, s4, context := LockedThenFinalized(w, s2, t, f, config, d, test);
    AuthorizedContext(w, files, a);
    FrozenContext(w, config, f.contextPath, context);
  }

  lemma NineNewPaths(files: Files, a: Path, b: Path, c: Path, d: Path, e: Path, f: Path, x: Path, y: Path, z: Path)
    requires PathsDistinct([a, b, c, d, e, f, x, y, z]) && forall p :: p in [a, b, c, d, e, f, x, y, z] ==> p !in files
    ensures PathsDistinct([a, b, c, d, e, f]) && forall p :: p in [a, b, c, d, e, f] ==> p !in files
    ensures forall p :: p in {x, y, z} ==> p !in files.Keys + {a, b, c, d, e, f}
    ensures x != y && x != z && y != z
  {
    var paths := [a, b, c, d, e, f, x, y, z];
    assert paths[..6] == [a, b, c, d, e, f];
    assert paths[6] == x && paths[7] == y && paths[8] == z;
    forall i, j | 0 <= i < 6 <= j < 9 ensures paths[..6][i] != paths[j] {
    }
    forall p | p in {x, y, z} ensures p !in files.Keys + {a, b, c, d, e, f} {
      assert p in paths && p !in paths[..6];
      assert p in {a, b, c, d, e, f} <==> p in [a, b, c, d, e, f];
    }
  }

  lemma FrozenContext(w: World, config: Config, contextPath: Path, context: Context)
    ensures FrozenConfig(w, config, contextPath, context).(contextPath := config.contextPath, contextSha := config.contextSha)
         == config
  {
  }

  lemma InputsAreRead(w: World, files: Files, c: Command)
    requires Approvable(w, files, c)
    ensures c.approvalPath in files && files[c.approvalPath].ApprovalDoc?
    ensures c.candidatePath in files && files[c.candidatePath].ConfigDoc?
  {
  }

  lemma FreezeIs(w: World, approval: Approval, freezeTime: Instant)
    ensures DecisionFor(w, approval, freezeTime).freezeTime == freezeTime
  {
  }

  lemma AuthorizedContext(w: World, files: Files, c: Command)
    requires Approvable(w, files, c)
    ensures AuthorizedBy(w, files, c).contextPath == DEFAULT_CONTEXT_PATH
    ensures AuthorizedBy(w, files, c).contextSha == UNRESOLVED
  {
  }

  // What a command has read stays true of any later store.
  lemma ReadsStayValid(w: World, f: Files, g: Files, path: Path, config: Config, d: Decision)
    requires Grows(f, g) && LoadConfig(w, f, path) == Ok(config) && LoadDecision(f, config) == Ok(d)
    ensures LoadConfig(w, g, path) == Ok(config) && LoadDecision(g, config) == Ok(d)
  {
  }

  lemma LockStaysValid(w: World, f: Files, g: Files, path: Path, test: TestLock)
    requires Grows(f, g) && LoadTestLock(w, f, path) == Ok(test)
    ensures LoadTestLock(w, g, path) == Ok(test)
  {
  }
}
