// Which configs can be frozen, and when a frozen config is the one that was authorized.
module AuthorityOrigin {
  import opened Wrappers
  import opened AuthorityDocuments
  import opened AuthorityStore
  import opened AuthorityVerdicts
  import opened AuthorityChain
  import opened AuthorityCompleteness
  import Publication

  // No accepted config that stems from the initial store names, by now, a catalog with the decision,
  // unless it equals an authorized one but for its temporal context.
  ghost predicate OnlyAuthorizedNameCatalogs(w: World, start: Files, files: Files) {
    forall p :: p in files && files[p].ConfigDoc? && Initial(start, files[p].config)
                && LoadConfig(w, files, p).Ok? && LoadDecision(files, files[p].config).Ok? ==>
      Authorized(w, files, [], Bare(files[p].config))
  }

  // Then every frozen config is, its temporal context aside, the config that `authorize` wrote for the
  // approved candidate, beside the stored requirements and catalog its hashes name.
  lemma FrozenIsAuthorized(w: World, states: seq<State>, k: nat, path: Path) returns (c: Chain, z: Authorization)
    requires Run(w, states) && k < |states| && path in states[k].files
    requires states[k].files[path].ConfigDoc? && states[k].files[path].config.contextSha != UNRESOLVED
    requires OnlyAuthorizedNameCatalogs(w, states[0].files, states[k].files)
    ensures var files, frozen := states[k].files, states[k].files[path].config;
            && ChainBehind(w, files, frozen, c, z.approved)
            && Authorizes(w, Bare(frozen), files[z.approved.candidatePath].config, z.requirementsPath, z.requirements,
                          z.catalogPath, z.catalog)
            && z.requirementsPath in files && files[z.requirementsPath] == z.requirements
            && z.catalogPath in files && files[z.catalogPath] == z.catalog
            && c.config.requirementsPath in files && w.hash(files[c.config.requirementsPath]) == c.config.requirementsSha
            && c.config.catalogPath in files && w.hash(files[c.config.catalogPath]) == c.config.catalogSha
  {
    hide Run, ApprovedBy, TestIdentity, TruthIdentity, ChainIn, Initial, Authorizes, AuthorizedConfig, OwnerApproved, Bound,
         FrozenAs;
    var files := states[k].files;
    var a;
    c, a := FrozenFindsChain(w, states, k, path);
    ChainReads(w, files, c);
    ConfigIsRooted(w, states, k, c.configPath);
    z :| AuthorizedFrom(w, files, [], Bare(c.config), z);
    AuthorizedNames(w, files, c.config, z);
    assert Bare(files[path].config) == Bare(c.config);
    assert ChainFound(w, files, files[path].config, c, z.approved);
    FoundIsBehind(w, files, files[path].config, c, z.approved);
    AuthorizedConfigIs(w, Bare(c.config), files[z.approved.candidatePath].config, z.requirementsPath, z.requirements,
                       z.catalogPath, z.catalog);
  }

  lemma ChainReads(w: World, files: Files, c: Chain)
    requires ChainIn(w, files, c)
    ensures LoadConfig(w, files, c.configPath) == Ok(c.config) && LoadDecision(files, c.config) == Ok(c.decision)
  {
    hide ChainError;
  }

  // It suffices that no config of the initial store names the path of a catalog, approved or not.
  lemma CatalogsApartSuffice(w: World, start: Files, files: Files)
    requires forall p, q :: p in start && start[p].ConfigDoc? && q in files && files[q].CatalogDoc? ==>
               start[p].config.catalogPath != q
    ensures OnlyAuthorizedNameCatalogs(w, start, files)
  {
    forall p | p in files && files[p].ConfigDoc? && LoadDecision(files, files[p].config).Ok?
      ensures !Initial(start, files[p].config)
    {
      var q := files[p].config.catalogPath;
      assert q in files && files[q].CatalogDoc?;
      forall o | o in start && start[o].ConfigDoc? ensures Bare(start[o].config) != Bare(files[p].config) {
        assert start[o].config.catalogPath != q;
        assert Bare(start[o].config).catalogPath != Bare(files[p].config).catalogPath;
      }
    }
  }

  lemma ConfigIsRooted(w: World, states: seq<State>, k: nat, path: Path)
    requires Run(w, states) && k < |states| && path in states[k].files && states[k].files[path].ConfigDoc?
    ensures Rooted(w, states[0].files, states[k].files, [], states[k].files[path].config)
  {
    hide Run, Step, Rooted, FrozenHonest;
    RunInv(w, states, k);
    assert Honest(w, states[0].files, states[k].files, [], states[k].files[path]);
  }

  lemma AuthorizedNames(w: World, files: Files, config: Config, z: Authorization)
    requires AuthorizedFrom(w, files, [], Bare(config), z)
    ensures config.requirementsPath in files && w.hash(files[config.requirementsPath]) == config.requirementsSha
    ensures config.catalogPath in files && w.hash(files[config.catalogPath]) == config.catalogSha
    ensures files[config.catalogPath] == z.catalog
  {
    hide ApprovedBy;
  }

  // ---- what verify, lock-truth and finalize ask of a config ----

  ghost predicate Freezes(w: World, files: Files, path: Path, v: Command, t: Command, f: Command,
                          s2: Files, s3: Files, s4: Files)
  {
    && v.Verify? && t.LockTruth? && f.Finalize? && path in files && files[path].ConfigDoc?
    && v.authorizedPath == path && t.authorizedPath == path && f.authorizedPath == path
    && v.testLockPath == t.testLockPath == f.testLockPath && t.truthLockPath == f.truthLockPath
    && Completes(w, files, v, s2) && Completes(w, s2, t, s3) && Completes(w, s3, f, s4)
    && f.frozenPath in s4 && s4[f.frozenPath].ConfigDoc?
    && exists context: Context ::
         s4[f.frozenPath].config == FrozenConfig(w, files[path].config, f.contextPath, context)
  }

  ghost predicate CanFreeze(w: World, files: Files, path: Path) {
    exists v: Command, t: Command, f: Command, s2: Files, s3: Files, s4: Files ::
      Freezes(w, files, path, v, t, f, s2, s3, s4)
  }

  lemma {:induction false} LongerThanAll(paths: set<Path>) returns (n: nat)
    ensures forall p :: p in paths ==> |p| < n
  {
    if paths == {} {
      n := 0;
    } else {
      var p :| p in paths;
      n := LongerThanAll(paths - {p});
      n := if n <= |p| then |p| + 1 else n;
      assert paths == paths - {p} + {p};
    }
  }

  // The path of n characters.
  function PathOf(n: nat): (p: Path)
    ensures |p| == n
  {
    seq(n, i => 'p')
  }

  lemma ConfigVerified(w: World, files: Files, v: Command, config: Config, d: Decision) returns (s2: Files, test: TestLock)
    requires v.Verify? && LoadConfig(w, files, v.authorizedPath) == Ok(config) && LoadDecision(files, config) == Ok(d)
    requires v.exitCode == 0 && d.freezeTime < v.completedAt
    requires v.stdoutPath !in files && v.stderrPath !in files && v.testLockPath !in files
    requires v.stdoutPath != v.stderrPath && v.stdoutPath != v.testLockPath && v.stderrPath != v.testLockPath
    ensures Completes(w, files, v, s2) && s2.Keys == files.Keys + {v.stdoutPath, v.stderrPath, v.testLockPath}
    ensures LoadConfig(w, s2, v.authorizedPath) == Ok(config) && LoadDecision(s2, config) == Ok(d)
    ensures LoadTestLock(w, s2, v.testLockPath) == Ok(test) && TestLockBinds(w, config, d, test)
    ensures test.completedAt == v.completedAt
  {
    hide Completes, TestIdentity, LoadConfig, LoadDecision, LoadTestLock;
    s2 := VerifyCompletes(w, files, v, config, d);
    test := TestLockFor(w, config, d, v.startedAt, v.completedAt, 0, v.stdoutPath, v.stdout, v.stderrPath, v.stderr);
    ReadsStayValid(w, files, s2, v.authorizedPath, config, d);
  }

  lemma CommandsFreeze(w: World, files: Files, path: Path, p: seq<Path>) returns (v: Command, t: Command, f: Command,
                                                                               s2: Files, s3: Files, s4: Files)
    requires LoadConfig(w, files, path).Ok? && LoadDecision(files, files[path].config).Ok? && |p| == 6
    requires p[0] !in files && p[1] !in files && p[2] !in files && p[0] != p[1] && p[0] != p[2] && p[1] != p[2]
    requires p[3] !in files.Keys + {p[0], p[1], p[2]} && p[4] !in files.Keys + {p[0], p[1], p[2]}
    requires p[5] !in files.Keys + {p[0], p[1], p[2]} && p[3] != p[4] && p[3] != p[5] && p[4] != p[5]
    ensures Freezes(w, files, path, v, t, f, s2, s3, s4)
  {
    var config := files[path].config;
    var d := LoadDecision(files, config).value;
    hide *;
    v := Verify(path, p[2], p[0], p[1], d.freezeTime, d.freezeTime + 1, 0, "", "");
    t := LockTruth(path, p[2], p[3], Some(""), d.freezeTime + 2);
    f := Finalize(path, p[2], p[3], p[4], p[5], true);
    var test, context;
    s2, test := ConfigVerified(w, files, v, config, d);
    s3, s4, context := LockedThenFinalized(w, s2, t, f, config, d, test);
    FreezesBy(w, files, path, v, t, f, s2, s3, s4, context);
  }

  lemma SixFreshPaths(files: Files) returns (p: seq<Path>)
    ensures |p| == 6
    ensures p[0] !in files && p[1] !in files && p[2] !in files && p[0] != p[1] && p[0] != p[2] && p[1] != p[2]
    ensures p[3] !in files.Keys + {p[0], p[1], p[2]} && p[4] !in files.Keys + {p[0], p[1], p[2]}
    ensures p[5] !in files.Keys + {p[0], p[1], p[2]} && p[3] != p[4] && p[3] != p[5] && p[4] != p[5]
  {
    hide PathOf;
    var n := LongerThanAll(files.Keys);
    p := [PathOf(n), PathOf(n + 1), PathOf(n + 2), PathOf(n + 3), PathOf(n + 4), PathOf(n + 5)];
    assert forall i :: 0 <= i < 6 ==> |p[i]| == n + i;
  }

  lemma FreezesBy(w: World, files: Files, path: Path, v: Command, t: Command, f: Command,
                  s2: Files, s3: Files, s4: Files, context: Context)
    requires v.Verify? && t.LockTruth? && f.Finalize? && LoadConfig(w, files, path).Ok?
    requires v.authorizedPath == path && t.authorizedPath == path && f.authorizedPath == path
    requires v.testLockPath == t.testLockPath == f.testLockPath && t.truthLockPath == f.truthLockPath
    requires Completes(w, files, v, s2) && Completes(w, s2, t, s3) && Completes(w, s3, f, s4)
    requires f.frozenPath in s4
    requires s4[f.frozenPath] == ConfigDoc(FrozenConfig(w, files[path].config, f.contextPath, context))
    ensures Freezes(w, files, path, v, t, f, s2, s3, s4)
  {
    hide Completes, FrozenConfig;
  }

  lemma CompletedVerify(w: World, files: Files, v: Command, s2: Files)
    requires v.Verify? && Completes(w, files, v, s2)
    ensures LoadConfig(w, files, v.authorizedPath).Ok?
    ensures LoadDecision(files, files[v.authorizedPath].config).Ok?
  {
    hide TestLockFor;
  }

  // From any store, the three commands can freeze a config exactly when the loader accepts it and it names a
  // catalog holding the one decision; nothing asks whether it was authorized.
  lemma CanFreezeExactlyWhen(w: World, files: Files, path: Path)
    ensures CanFreeze(w, files, path)
       <==> LoadConfig(w, files, path).Ok? && LoadDecision(files, files[path].config).Ok?
  {
    hide Completes;
    if CanFreeze(w, files, path) {
      var v: Command, t: Command, f: Command, s2: Files, s3: Files, s4: Files :|
        Freezes(w, files, path, v, t, f, s2, s3, s4);
      CompletedVerify(w, files, v, s2);
    }
    if LoadConfig(w, files, path).Ok? && LoadDecision(files, files[path].config).Ok? {
      var unused := SixFreshPaths(files);
      var v, t, f, s2, s3, s4 := CommandsFreeze(w, files, path, unused);
    }
  }

  // So, in any run, whatever can be frozen next was authorized exactly under the condition above.
  lemma OnlyAuthorizedFreezeExactlyWhen(w: World, states: seq<State>, k: nat)
    requires Run(w, states) && k < |states|
    ensures (forall p :: CanFreeze(w, states[k].files, p) ==>
               p in states[k].files && states[k].files[p].ConfigDoc?
               && Authorized(w, states[k].files, [], Bare(states[k].files[p].config)))
       <==> OnlyAuthorizedNameCatalogs(w, states[0].files, states[k].files)
  {
    hide CanFreeze, Run, Authorized, Initial;
    var files := states[k].files;
    forall p
      ensures CanFreeze(w, files, p) <==> LoadConfig(w, files, p).Ok? && LoadDecision(files, files[p].config).Ok?
      ensures p in files && files[p].ConfigDoc? ==> Rooted(w, states[0].files, files, [], files[p].config)
    {
      CanFreezeExactlyWhen(w, files, p);
      if p in files && files[p].ConfigDoc? {
        ConfigIsRooted(w, states, k, p);
      }
    }
  }

  // ---- the catalogs of a run ----

  // The path is the catalog path of an authorize that has begun.
  ghost predicate CatalogPath(s: State, path: Path) {
    exists i :: 0 <= i < |s.jobs| && s.jobs[i].command.Authorize? && s.jobs[i].command.catalogPath == path
  }

  predicate HoldsDecision(d: Document) {
    d.CatalogDoc? && |d.decisions| == 1 && d.decisions[0].decisionId == DECISION_ID
  }

  ghost predicate CatalogsAuthorized(s: State) {
    && (forall p :: p in s.files && s.files[p].CatalogDoc? ==> CatalogPath(s, p) && HoldsDecision(s.files[p]))
    && (forall i, k :: 0 <= i < |s.jobs| && 0 <= k < |s.jobs[i].pending| ==> PendingCatalog(s.jobs[i], k))
  }

  ghost predicate PendingCatalog(job: Job, k: nat)
    requires k < |job.pending|
  {
    job.pending[k].document.CatalogDoc? ==>
      && job.command.Authorize? && job.command.catalogPath == job.pending[k].path
      && HoldsDecision(job.pending[k].document)
  }

  lemma PlansPublishCatalogs(w: World, files: Files, c: Command)
    ensures var job := Job(c, PlanOf(w, files, c).publications);
            forall k :: 0 <= k < |job.pending| ==> PendingCatalog(job, k)
  {
    hide TestLockFor, TruthLockFor, ChainError, ApprovalError, AuthorizedConfig;
  }

  lemma StepCatalogs(w: World, s: State, l: Label, s': State)
    requires CatalogsAuthorized(s) && Step(w, s, l, s')
    ensures CatalogsAuthorized(s') && Grows(s.files, s'.files)
  {
    hide PlanOf, PendingCatalog;
    match l
    case Begin(command) =>
      PlansPublishCatalogs(w, s.files, command);
      forall p | CatalogPath(s, p) ensures CatalogPath(s', p) {
        var i :| 0 <= i < |s.jobs| && s.jobs[i].command.Authorize? && s.jobs[i].command.catalogPath == p;
        assert s'.jobs[i] == s.jobs[i];
      }
    case Continue(i) =>
      ContinueCatalogs(w, s, i, s');
  }

  lemma ContinueCatalogs(w: World, s: State, i: nat, s': State)
    requires CatalogsAuthorized(s) && Step(w, s, Continue(i), s')
    ensures CatalogsAuthorized(s') && Grows(s.files, s'.files)
  {
    var first := s.jobs[i].pending[0];
    PublishGrows(s.files, first.path, first.document);
    assert PendingCatalog(s.jobs[i], 0);
    forall p | CatalogPath(s, p) ensures CatalogPath(s', p) {
      var j :| 0 <= j < |s.jobs| && s.jobs[j].command.Authorize? && s.jobs[j].command.catalogPath == p;
      assert s'.jobs[j].command == s.jobs[j].command;
    }
    forall p | p in s'.files && s'.files[p].CatalogDoc?
      ensures CatalogPath(s', p) && HoldsDecision(s'.files[p])
    {
      if p in s.files {
        assert HoldsDecision(s.files[p]);
      } else {
        assert s.jobs[i].command.Authorize? && s.jobs[i].command.catalogPath == p;
        assert s'.jobs[i].command == s.jobs[i].command;
      }
    }
    forall j, k | 0 <= j < |s'.jobs| && 0 <= k < |s'.jobs[j].pending| ensures PendingCatalog(s'.jobs[j], k) {
      if j == i {
        assert PendingCatalog(s.jobs[i], k + 1);
      } else {
        assert PendingCatalog(s.jobs[j], k);
      }
    }
  }

  lemma {:induction false} RunCatalogs(w: World, states: seq<State>, k: nat)
    requires Run(w, states) && k < |states|
    ensures CatalogsAuthorized(states[k]) && Grows(states[0].files, states[k].files)
  {
    hide Step, CatalogsAuthorized, Grows;
    if k == 0 {
      NoCatalogsYet(states[0]);
    } else {
      RunCatalogs(w, states, k - 1);
      assert Next(w, states[k - 1], states[k - 1 + 1]);
      var l: Label :| Step(w, states[k - 1], l, states[k]);
      StepCatalogs(w, states[k - 1], l, states[k]);
      GrowsOn(states[0].files, states[k - 1].files, states[k].files);
    }
  }

  lemma NoCatalogsYet(s: State)
    requires Init(s)
    ensures CatalogsAuthorized(s) && Grows(s.files, s.files)
  {
    forall p | p in s.files ensures !s.files[p].CatalogDoc? {
      assert IsInput(s.files[p]);
    }
  }

  lemma GrowsOn(f: Files, g: Files, h: Files)
    requires Grows(f, g) && Grows(g, h)
    ensures Grows(f, h)
  {
  }

  // A config that was there from the start can be frozen exactly when the loader accepts it and an authorize
  // of the run has by then published its catalog at the path the config names.
  lemma InitialFreezesExactlyWhen(w: World, states: seq<State>, k: nat, path: Path)
    requires Run(w, states) && k < |states| && path in states[0].files && states[0].files[path].ConfigDoc?
    ensures var config, s := states[0].files[path].config, states[k];
            CanFreeze(w, s.files, path)
            <==> w.accepts(config) && CatalogPath(s, config.catalogPath)
                 && config.catalogPath in s.files && s.files[config.catalogPath].CatalogDoc?
  {
    hide Run, CanFreeze, CatalogPath;
    RunCatalogs(w, states, k);
    CanFreezeExactlyWhen(w, states[k].files, path);
    var catalogPath := states[0].files[path].config.catalogPath;
    if catalogPath in states[k].files && states[k].files[catalogPath].CatalogDoc? {
      assert HoldsDecision(states[k].files[catalogPath]);
    }
  }

  // If no config of the initial store names the catalog path of an authorize of the run, then whatever can be
  // frozen was authorized.
  lemma ApartFromTheStart(w: World, states: seq<State>, k: nat)
    requires Run(w, states) && k < |states|
    requires forall p :: p in states[0].files && states[0].files[p].ConfigDoc? ==>
               !CatalogPath(states[k], states[0].files[p].config.catalogPath)
    ensures forall p :: CanFreeze(w, states[k].files, p) ==>
              p in states[k].files && states[k].files[p].ConfigDoc?
              && Authorized(w, states[k].files, [], Bare(states[k].files[p].config))
  {
    hide Run, CanFreeze, CatalogPath, OnlyAuthorizedNameCatalogs, Authorized;
    RunCatalogs(w, states, k);
    CatalogsApartSuffice(w, states[0].files, states[k].files);
    OnlyAuthorizedFreezeExactlyWhen(w, states, k);
  }

  // ---- commands one after the other are runs of the interleaving machine ----

  ghost predicate Extends(w: World, states: seq<State>, longer: seq<State>) {
    Run(w, states) && Run(w, longer) && states <= longer && longer != []
  }

  function LastFiles(states: seq<State>): Files
    requires states != []
  {
    states[|states| - 1].files
  }

  lemma OneMoreStep(w: World, states: seq<State>, l: Label, s: State)
    requires Run(w, states) && Step(w, states[|states| - 1], l, s)
    ensures Extends(w, states, states + [s])
  {
    hide Step;
    var longer := states + [s];
    forall k | 0 <= k < |longer| - 1 ensures Next(w, longer[k], longer[k + 1]) {
      if k < |states| - 1 {
        assert Next(w, states[k], states[k + 1]);
      }
    }
  }

  lemma {:induction false} Drain(w: World, states: seq<State>, i: nat, plan: Plan) returns (longer: seq<State>)
    requires Run(w, states) && i < |states[|states| - 1].jobs|
    requires states[|states| - 1].jobs[i].pending == plan.publications
    ensures Extends(w, states, longer) && LastFiles(longer) == Perform(LastFiles(states), plan).0
    decreases |plan.publications|
  {
    longer := states;
    var s := states[|states| - 1];
    if plan.publications != [] {
      hide Run, PlanOf;
      var first := plan.publications[0];
      var (files, outcome) := Publication.Publish(s.files, first.path, first.document);
      var rest := if outcome == Publication.Conflict then [] else plan.publications[1..];
      var next := State(files, s.jobs[i := s.jobs[i].(pending := rest)]);
      OneMoreStep(w, states, Continue(i), next);
      longer := states + [next];
      if outcome != Publication.Conflict {
        longer := Drain(w, states + [next], i, plan.(publications := rest));
        assert states <= longer;
      }
    }
  }

  lemma RunCommand(w: World, states: seq<State>, c: Command) returns (longer: seq<State>)
    requires Run(w, states)
    ensures Extends(w, states, longer)
    ensures LastFiles(longer) == Perform(LastFiles(states), PlanOf(w, LastFiles(states), c)).0
  {
    hide PlanOf, Perform;
    var s := states[|states| - 1];
    var plan := PlanOf(w, s.files, c);
    var begun := s.(jobs := s.jobs + [Job(c, plan.publications)]);
    OneMoreStep(w, states, Begin(c), begun);
    longer := Drain(w, states + [begun], |s.jobs|, plan);
  }

  // ---- a config nobody approved, frozen ----

  function Seven(): seq<Group> {
    SevenIds();
    Approvals(GROUP_IDS, GROUP_LABELS)
  }

  function Candidate(): Config {
    Config(EXPERIMENT_ID, "approved", PathOf(0), PathOf(1), "candidate", PathOf(2), "", "", "", PathOf(0), UNRESOLVED)
  }

  // Present from the start, it names the path at which the authorization will publish its catalog.
  function Stowaway(): Config {
    Candidate().(protocol := "other", catalogPath := PathOf(6))
  }

  function FullApproval(w: World): Approval {
    Approval(APPROVAL_SCHEMA, "id", "owner", 0, ConfigIdentity(w, Candidate()), "candidate", Seven(), "none", true)
  }

  function Inputs(w: World): Files {
    map[PathOf(1) := RequirementsDoc("slots", true), PathOf(3) := ConfigDoc(Candidate()),
        PathOf(4) := ConfigDoc(Stowaway()), PathOf(5) := ApprovalDoc(FullApproval(w))]
  }

  function Authorizing(): Command {
    Authorize(PathOf(5), PathOf(3), PathOf(7), PathOf(6), PathOf(8), 1, "slots", "catalog", true)
  }

  // What the loader is asked about in this run.
  predicate AcceptsRun(w: World) {
    && w.accepts(Candidate()) && w.accepts(Stowaway())
    && w.accepts(AuthorizedConfig(w, Candidate(), PathOf(7), RequirementsDoc("slots", false), PathOf(6),
                                  CatalogDoc("catalog", [DecisionFor(w, FullApproval(w), 1)])))
  }

  lemma SevenAreApproved()
    ensures SevenApproved(Seven())
  {
    hide SevenApproved, GROUP_IDS, GROUP_LABELS;
    TableOfSeven();
  }

  lemma InputsHold(w: World)
    ensures var files := Inputs(w);
            && files.Keys == {PathOf(1), PathOf(3), PathOf(4), PathOf(5)}
            && files[PathOf(1)] == RequirementsDoc("slots", true) && files[PathOf(3)] == ConfigDoc(Candidate())
            && files[PathOf(4)] == ConfigDoc(Stowaway()) && files[PathOf(5)] == ApprovalDoc(FullApproval(w))
  {
    hide PathOf, Candidate, Stowaway, FullApproval;
    assert |PathOf(1)| == 1 && |PathOf(3)| == 3 && |PathOf(4)| == 4 && |PathOf(5)| == 5;
  }

  lemma InputsAreApprovable(w: World)
    requires AcceptsRun(w)
    ensures Approvable(w, Inputs(w), Authorizing())
    ensures Init(State(Inputs(w), [])) && forall p :: p in Inputs(w) ==> |p| < 6
  {
    hide PathOf, SevenApproved, Seven, Inputs;
    InputsHold(w);
    SevenAreApproved();
  }

  // The only approval in the store is for the candidate, so no authorized config has the other protocol.
  lemma StowawayIsNotAuthorized(w: World, files: Files, config: Config)
    requires Injective(w) && config.protocol == "other"
    requires forall p :: p in files && files[p].ApprovalDoc? ==> files[p].approval == FullApproval(w)
    ensures !Authorized(w, files, [], config)
  {
    hide EveryGroupApproved, PathOf;
    assert |"other"| != |"approved"|;
    forall z: Authorization ensures !AuthorizedFrom(w, files, [], config, z) {
    }
  }

  // No document but the inputs' own approval is an approval.
  ghost predicate OneApproval(w: World, files: Files) {
    forall p :: p in files && files[p].ApprovalDoc? ==> files[p].approval == FullApproval(w)
  }

  lemma {:induction false} PerformAddsNoApproval(w: World, files: Files, plan: Plan)
    requires OneApproval(w, files)
    requires forall k :: 0 <= k < |plan.publications| ==> !plan.publications[k].document.ApprovalDoc?
    ensures OneApproval(w, Perform(files, plan).0)
    decreases |plan.publications|
  {
    hide FullApproval;
    if plan.publications != [] {
      var first := plan.publications[0];
      var (next, outcome) := Publication.Publish(files, first.path, first.document);
      assert OneApproval(w, next);
      if outcome != Publication.Conflict {
        PerformAddsNoApproval(w, next, plan.(publications := plan.publications[1..]));
      }
    }
  }

  lemma CommandAddsNoApproval(w: World, files: Files, c: Command)
    requires OneApproval(w, files)
    ensures OneApproval(w, Perform(files, PlanOf(w, files, c)).0)
  {
    hide OneApproval, Perform, DecisionFor, AuthorizedConfig, TestLockFor, TruthLockFor, ChainError, ApprovalError;
    PerformAddsNoApproval(w, files, PlanOf(w, files, c));
  }

  lemma RunCompleted(w: World, states: seq<State>, c: Command, files: Files) returns (longer: seq<State>)
    requires Run(w, states) && Completes(w, LastFiles(states), c, files) && OneApproval(w, LastFiles(states))
    ensures Extends(w, states, longer) && LastFiles(longer) == files && OneApproval(w, files)
  {
    var before := LastFiles(states);
    hide PlanOf, Perform, OneApproval, Run;
    longer := RunCommand(w, states, c);
    CommandAddsNoApproval(w, before, c);
  }

  // Freezing the config at a path of the last store is a longer run.
  lemma RunFreezes(w: World, states: seq<State>, path: Path) returns (longer: seq<State>, frozenPath: Path)
    requires Run(w, states) && CanFreeze(w, LastFiles(states), path) && OneApproval(w, LastFiles(states))
    ensures Extends(w, states, longer) && OneApproval(w, LastFiles(longer))
    ensures path in LastFiles(states) && LastFiles(states)[path].ConfigDoc?
    ensures frozenPath in LastFiles(longer)
    ensures exists contextPath: Path, context: Context ::
              LastFiles(longer)[frozenPath] == ConfigDoc(FrozenConfig(w, LastFiles(states)[path].config, contextPath, context))
  {
    var before := LastFiles(states);
    hide Completes, OneApproval, Run, FrozenConfig;
    var v: Command, t: Command, f: Command, s2: Files, s3: Files, s4: Files :|
      Freezes(w, before, path, v, t, f, s2, s3, s4);
    var verified := RunCompleted(w, states, v, s2);
    var locked := RunCompleted(w, verified, t, s3);
    longer := RunCompleted(w, locked, f, s4);
    frozenPath := f.frozenPath;
    assert states <= verified <= locked <= longer;
  }

  lemma StowawayNamesTheCatalog(w: World, files: Files, authorized: Config)
    requires AcceptsRun(w)
    requires Grows(Inputs(w), files) && authorized.catalogPath == PathOf(6) && LoadDecision(files, authorized).Ok?
    ensures LoadConfig(w, files, PathOf(4)) == Ok(Stowaway()) && LoadDecision(files, Stowaway()).Ok?
  {
    hide PathOf, Inputs;
    InputsHold(w);
  }

  lemma AuthorizedStore(w: World) returns (s1: Files, authorized: Config)
    requires AcceptsRun(w)
    ensures Completes(w, Inputs(w), Authorizing(), s1) && Grows(Inputs(w), s1)
    ensures authorized.catalogPath == PathOf(6) && LoadDecision(s1, authorized).Ok?
  {
    hide Completes, Inputs, PathOf, Approvable, AuthorizedBy, LoadConfig, LoadDecision, Grows;
    InputsAreApprovable(w);
    InputsAreRead(w, Inputs(w), Authorizing());
    AuthorizedAccepted(w);
    assert forall n :: 6 <= n <= 8 ==> PathOf(n) !in Inputs(w);
    s1 := AuthorizeCompletes(w, Inputs(w), Authorizing());
    authorized := AuthorizedBy(w, Inputs(w), Authorizing());
    CatalogPathOf(w, Inputs(w), Authorizing());
  }

  lemma AuthorizedAccepted(w: World)
    requires AcceptsRun(w) && Approvable(w, Inputs(w), Authorizing())
    ensures w.accepts(AuthorizedBy(w, Inputs(w), Authorizing()))
  {
    hide PathOf, Inputs, Approvable, FullApproval, Candidate, Stowaway, DecisionFor, AuthorizedConfig;
    InputsHold(w);
    InputsAreRead(w, Inputs(w), Authorizing());
  }

  lemma InputsApproval(w: World)
    ensures OneApproval(w, Inputs(w))
  {
    hide PathOf, Inputs, FullApproval, Stowaway, Candidate;
    InputsHold(w);
  }

  lemma SingleState(w: World, s: State)
    requires Init(s)
    ensures Run(w, [s]) && LastFiles([s]) == s.files
  {
  }

  // The authorization of the candidate, as a run.
  lemma CandidateIsAuthorized(w: World) returns (states: seq<State>)
    requires AcceptsRun(w)
    ensures states != [] && Run(w, states) && OneApproval(w, LastFiles(states))
    ensures LoadConfig(w, LastFiles(states), PathOf(4)) == Ok(Stowaway()) && LoadDecision(LastFiles(states), Stowaway()).Ok?
  {
    InputsAreApprovable(w);
    InputsApproval(w);
    hide *;
    var s1, authorized := AuthorizedStore(w);
    SingleState(w, State(Inputs(w), []));
    states := RunCompleted(w, [State(Inputs(w), [])], Authorizing(), s1);
    RunsAreRuns(w, [State(Inputs(w), [])], states);
    StowawayNamesTheCatalog(w, s1, authorized);
  }

  lemma CatalogPathOf(w: World, files: Files, c: Command)
    requires Approvable(w, files, c)
    ensures AuthorizedBy(w, files, c).catalogPath == c.catalogPath
  {
  }

  lemma RunsAreRuns(w: World, states: seq<State>, longer: seq<State>)
    requires Extends(w, states, longer)
    ensures Run(w, states) && Run(w, longer) && states != [] && longer != []
  {
    hide Step;
  }

  // A run from approvable inputs: the candidate is authorized, then a config that merely names the
  // catalog is verified, truth-locked and frozen, although no approval is for it.
  lemma UnapprovedConfigFreezes(w: World) returns (states: seq<State>, path: Path)
    requires Injective(w) && AcceptsRun(w) && forall d: Document :: w.hash(d) != UNRESOLVED
    ensures Run(w, states) && path in LastFiles(states) && LastFiles(states)[path].ConfigDoc?
    ensures LastFiles(states)[path].config.contextSha != UNRESOLVED
    ensures Bare(LastFiles(states)[path].config) == Bare(Stowaway())
    ensures !Authorized(w, LastFiles(states), [], Bare(LastFiles(states)[path].config))
  {
    hide PathOf, CanFreeze, Extends, FrozenConfig, Authorized, Step, Injective, FullApproval, Stowaway, Run, LoadDecision,
         Inputs, Bare;
    var authorized := CandidateIsAuthorized(w);
    var s1 := LastFiles(authorized);
    CanFreezeExactlyWhen(w, s1, PathOf(4));
    states, path := RunFreezes(w, authorized, PathOf(4));
    RunsAreRuns(w, authorized, states);
    var contextPath, context :|
      LastFiles(states)[path] == ConfigDoc(FrozenConfig(w, s1[PathOf(4)].config, contextPath, context));
    FrozenStowaway(w, contextPath, context);
    StowawayIsNotAuthorized(w, LastFiles(states), Bare(LastFiles(states)[path].config));
  }

  lemma FrozenStowaway(w: World, contextPath: Path, context: Context)
    ensures var frozen := FrozenConfig(w, Stowaway(), contextPath, context);
            Bare(frozen) == Bare(Stowaway()) && Bare(frozen).protocol == "other" && frozen.contextSha == w.hash(ContextDoc(context))
  {
  }
}
