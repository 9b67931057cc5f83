// When each of the four commands publishes, what it then publishes field by field, and what each refusal means.
module AuthorityVerdicts {
  import opened Wrappers
  import opened AuthorityDocuments
  import opened AuthorityStore
  import opened Lists
  import Publication

  // ---- the owner's approval ----

  // The seven groups, each approved once under its own label, in whatever order.
  ghost predicate SevenApproved(groups: seq<Group>) {
    multiset(groups) == multiset{
      Group("1", "compute-governance", "approved"),
      Group("2", "randomness-and-execution-schedule", "approved"),
      Group("3", "statistical-protocol", "approved"),
      Group("4", "validation-role", "approved"),
      Group("5", "dataset-allocation-and-support", "approved"),
      Group("6", "window-and-preprocessing", "approved"),
      Group("7", "model-and-stopping", "approved")}
  }

  // The approval is complete, grants nothing by itself, is given for this candidate and these requirements, approves
  // all seven groups, and is no later than the freeze; and the candidate's requirements are still to be resolved.
  ghost predicate OwnerApproved(w: World, files: Files, config: Config, approval: Approval, freezeTime: Instant) {
    && config.experimentId == "thesis-evaluation-v2"
    && approval.approvedAt <= freezeTime
    && approval.complete
    && approval.schemaVersion == "academic-matrix-v2-owner-approval-v1"
    && approval.authorizationEffect == "none"
    && approval.candidateConfigIdentity == w.hash(ConfigDoc(config))
    && approval.candidateRequirementsSha == config.requirementsSha
    && SevenApproved(approval.groups)
    && config.requirementsPath in files && files[config.requirementsPath].RequirementsDoc?
    && files[config.requirementsPath].unresolved
  }

  // What an approval of every group of a table looks like, in the order of the table.
  function Approvals(ids: seq<string>, labels: map<string, string>): (groups: seq<Group>)
    requires forall id :: id in ids ==> id in labels
    ensures |groups| == |ids| && forall i :: 0 <= i < |ids| ==> groups[i] == Group(ids[i], labels[ids[i]], "approved")
  {
    seq(|ids|, i requires 0 <= i < |ids| => Group(ids[i], labels[ids[i]], "approved"))
  }

  lemma SameElements<T>(s: seq<T>, t: seq<T>)
    requires NoRepeat(t)
    ensures multiset(s) == multiset(t) <==> NoRepeat(s) && forall x :: x in s <==> x in t
  {
    if NoRepeat(s) && forall x :: x in s <==> x in t {
      forall x ensures multiset(s)[x] == multiset(t)[x] {
        CountOfDistinct(s, x);
        CountOfDistinct(t, x);
      }
    }
    if multiset(s) == multiset(t) {
      forall x ensures x in s <==> x in t {
        assert x in multiset(s) <==> x in multiset(t);
      }
      DistinctCount(t);
      DistinctCount(s);
      assert Elements(s) == Elements(t);
      assert |s| == |multiset(s)| == |multiset(t)| == |t|;
    }
  }

  lemma GroupsAreTheTable(groups: seq<Group>, ids: seq<string>, labels: map<string, string>)
    requires NoRepeat(ids) && forall id :: id in ids <==> id in labels
    ensures (&& (forall g :: g in groups ==> g.id in labels && g == Group(g.id, labels[g.id], "approved"))
             && GroupIdsDistinct(groups)
             && (forall id :: id in ids ==> exists i :: 0 <= i < |groups| && groups[i].id == id))
        <==> multiset(groups) == multiset(Approvals(ids, labels))
  {
    var table := Approvals(ids, labels);
    forall i, j | 0 <= i < j < |table| ensures table[i] != table[j] {
      assert ids[i] != ids[j];
    }
    SameElements(groups, table);
    if (forall g :: g in groups ==> g.id in labels && g == Group(g.id, labels[g.id], "approved")) && GroupIdsDistinct(groups)
       && (forall id :: id in ids ==> exists i :: 0 <= i < |groups| && groups[i].id == id) {
      TableFromGroups(groups, ids, labels);
    }
    if multiset(groups) == multiset(table) {
      GroupsFromTable(groups, ids, labels);
    }
  }

  lemma TableFromGroups(groups: seq<Group>, ids: seq<string>, labels: map<string, string>)
    requires NoRepeat(ids) && forall id :: id in ids <==> id in labels
    requires forall g :: g in groups ==> g.id in labels && g == Group(g.id, labels[g.id], "approved")
    requires GroupIdsDistinct(groups)
    requires forall id :: id in ids ==> exists i :: 0 <= i < |groups| && groups[i].id == id
    ensures NoRepeat(groups) && forall g :: g in groups <==> g in Approvals(ids, labels)
  {
    var table := Approvals(ids, labels);
    forall i, j | 0 <= i < j < |groups| ensures groups[i] != groups[j] {
      assert groups[i].id != groups[j].id;
    }
    forall g | g in table ensures g in groups {
      var k :| 0 <= k < |table| && table[k] == g;
      assert ids[k] in ids;
      var i :| 0 <= i < |groups| && groups[i].id == ids[k];
      assert groups[i] in groups && groups[i] == g;
    }
    forall g | g in groups ensures g in table {
      var k :| 0 <= k < |ids| && ids[k] == g.id;
      assert table[k] == g;
    }
  }

  lemma GroupsFromTable(groups: seq<Group>, ids: seq<string>, labels: map<string, string>)
    requires NoRepeat(ids) && forall id :: id in ids <==> id in labels
    requires NoRepeat(groups) && forall g :: g in groups <==> g in Approvals(ids, labels)
    ensures forall g :: g in groups ==> g.id in labels && g == Group(g.id, labels[g.id], "approved")
    ensures GroupIdsDistinct(groups)
    ensures forall id :: id in ids ==> exists i :: 0 <= i < |groups| && groups[i].id == id
  {
    var table := Approvals(ids, labels);
    forall i, j | 0 <= i < j < |groups| ensures groups[i].id != groups[j].id {
      assert groups[i] in table && groups[j] in table && groups[i] != groups[j];
    }
    forall id | id in ids ensures exists i :: 0 <= i < |groups| && groups[i].id == id {
      var k :| 0 <= k < |ids| && ids[k] == id;
      assert table[k] in groups;
    }
  }

  lemma SevenIds()
    ensures NoRepeat(GROUP_IDS) && forall id :: id in GROUP_IDS <==> id in GROUP_LABELS
  {
  }

  lemma LabelsOfSeven()
    ensures GROUP_LABELS["1"] == "compute-governance" && GROUP_LABELS["2"] == "randomness-and-execution-schedule"
    ensures GROUP_LABELS["3"] == "statistical-protocol" && GROUP_LABELS["4"] == "validation-role"
    ensures GROUP_LABELS["5"] == "dataset-allocation-and-support" && GROUP_LABELS["6"] == "window-and-preprocessing"
    ensures GROUP_LABELS["7"] == "model-and-stopping"
  {
  }

  lemma TableOfSeven()
    ensures forall id :: id in GROUP_IDS <==> id in GROUP_LABELS
    ensures forall groups :: SevenApproved(groups) <==> multiset(groups) == multiset(Approvals(GROUP_IDS, GROUP_LABELS))
  {
    SevenIds();
    LabelsOfSeven();
    hide GROUP_LABELS;
    var t := Approvals(GROUP_IDS, GROUP_LABELS);
    assert t == [t[0], t[1], t[2], t[3], t[4], t[5], t[6]];
    assert multiset(t) == multiset{t[0], t[1], t[2], t[3], t[4], t[5], t[6]};
  }

  lemma GroupsAreTheSeven(groups: seq<Group>)
    ensures EveryGroupApproved(groups) <==> SevenApproved(groups)
  {
    SevenIds();
    TableOfSeven();
    hide GROUP_LABELS, GROUP_IDS, SevenApproved;
    GroupsAreTheTable(groups, GROUP_IDS, GROUP_LABELS);
  }

  lemma ApprovalPasses(w: World, files: Files, config: Config, approval: Approval, freezeTime: Instant)
    ensures ApprovalError(w, files, config, approval, freezeTime) == None
        <==> OwnerApproved(w, files, config, approval, freezeTime)
  {
    hide EveryGroupApproved, SevenApproved;
    GroupsAreTheSeven(approval.groups);
  }

  // ---- what the commands read ----

  ghost predicate ConfigAt(w: World, files: Files, path: Path, config: Config) {
    path in files && files[path] == ConfigDoc(config) && w.accepts(config)
  }

  // The catalog of the config holds this decision and no other.
  ghost predicate OneDecision(files: Files, config: Config, d: Decision) {
    && config.catalogPath in files && files[config.catalogPath].CatalogDoc? && files[config.catalogPath].decisions == [d]
    && d.decisionId == "decision:thesis-evaluation-v2:interactive-owner-approval-v2"
  }

  ghost predicate TestLockAt(w: World, files: Files, path: Path, t: TestLock) {
    && path in files && files[path] == TestLockDoc(t) && t.schemaVersion == "academic-matrix-v2-test-lock-v1"
    && t.identity == w.hash(TestLockDoc(t.(identity := "")))
  }

  ghost predicate TruthLockAt(w: World, files: Files, path: Path, u: TruthLock) {
    && path in files && files[path] == TruthLockDoc(u) && u.schemaVersion == "academic-matrix-v2-truth-lock-v1"
    && u.identity == w.hash(TruthLockDoc(u.(identity := "")))
  }

  lemma WhatIsRead(w: World, files: Files, path: Path, config: Config)
    ensures LoadConfig(w, files, path) == Ok(config) <==> ConfigAt(w, files, path, config)
    ensures forall d :: LoadDecision(files, config) == Ok(d) <==> OneDecision(files, config, d)
    ensures forall t :: LoadTestLock(w, files, path) == Ok(t) <==> TestLockAt(w, files, path, t)
    ensures forall u :: LoadTruthLock(w, files, path) == Ok(u) <==> TruthLockAt(w, files, path, u)
  {
    hide TestIdentity, TruthIdentity;
    forall d ensures LoadDecision(files, config) == Ok(d) <==> OneDecision(files, config, d) {
      if LoadDecision(files, config) == Ok(d) {
        assert files[config.catalogPath].decisions == [d];
      }
    }
    SealsAre(w);
  }

  lemma SealsAre(w: World)
    ensures forall t :: TestIdentity(w, t) == w.hash(TestLockDoc(t.(identity := "")))
    ensures forall u :: TruthIdentity(w, u) == w.hash(TruthLockDoc(u.(identity := "")))
  {
  }

  // ---- what they write ----

  // The decision record binds the approval, the candidate and the requirements by their hashes, and itself by its own.
  ghost predicate Records(w: World, d: Decision, approval: Approval, freezeTime: Instant) {
    && d.decisionId == "decision:thesis-evaluation-v2:interactive-owner-approval-v2"
    && d.contentSha == w.hash(BindingDoc(w.hash(ApprovalDoc(approval)), approval.approvalId,
                                         approval.candidateConfigIdentity, approval.candidateRequirementsSha))
    && d.approvedBy == approval.approvedBy && d.approvedAt == approval.approvedAt && d.freezeTime == freezeTime
    && d.recordSha == w.hash(DecisionDoc(d.(recordSha := "")))
  }

  lemma DecisionRecords(w: World, d: Decision, approval: Approval, freezeTime: Instant)
    ensures d == DecisionFor(w, approval, freezeTime) <==> Records(w, d, approval, freezeTime)
  {
    var made := DecisionFor(w, approval, freezeTime);
    if Records(w, d, approval, freezeTime) {
      assert d.(recordSha := "") == Decision(DECISION_ID, d.contentSha, approval.approvedBy, approval.approvedAt, freezeTime, "");
      assert d == made;
    }
    if d == made {
      assert d.(recordSha := "") == Decision(DECISION_ID, d.contentSha, approval.approvedBy, approval.approvedAt, freezeTime, "");
    }
  }

  // The authorized config is the candidate with its numeric authority replaced, and no temporal context yet.
  ghost predicate Authorizes(w: World, authorized: Config, candidate: Config, requirementsPath: Path, requirements: Document,
                             catalogPath: Path, catalog: Document)
  {
    && authorized.experimentId == candidate.experimentId && authorized.protocol == candidate.protocol
    && authorized.sourceCatalogPath == candidate.sourceCatalogPath
    && authorized.requirementsPath == requirementsPath && authorized.requirementsSha == w.hash(requirements)
    && authorized.catalogPath == catalogPath && authorized.catalogSha == w.hash(catalog)
    && authorized.inventoryId == "numeric-consumer-inventory:thesis-evaluation-v2"
    && authorized.requiredSetId == "required-parameter-set:thesis-evaluation-v2"
    && authorized.contextPath == "configs/experiments/thesis-evaluation-v2.temporal-context-v2.json"
    && authorized.contextSha == "UNRESOLVED"
  }

  lemma AuthorizedConfigIs(w: World, authorized: Config, candidate: Config, requirementsPath: Path, requirements: Document,
                           catalogPath: Path, catalog: Document)
    ensures authorized == AuthorizedConfig(w, candidate, requirementsPath, requirements, catalogPath, catalog)
        <==> Authorizes(w, authorized, candidate, requirementsPath, requirements, catalogPath, catalog)
  {
  }

  ghost predicate AuthorizeMay(w: World, files: Files, c: Command, config: Config, approval: Approval)
    requires c.Authorize?
  {
    && ConfigAt(w, files, c.candidatePath, config)
    && c.approvalPath in files && files[c.approvalPath] == ApprovalDoc(approval)
    && OwnerApproved(w, files, config, approval, c.freezeTime)
    && c.bundled
  }

  // `authorize` publishes anything only for a candidate with the owner's approval, and then exactly the approved
  // requirements, a catalog of the one decision that records the approval, and the authorized config.
  lemma AuthorizePublishes(w: World, files: Files, c: Command)
    requires c.Authorize?
    ensures var plan := PlanOf(w, files, c);
            && (plan.publications != [] <==> exists config, approval :: AuthorizeMay(w, files, c, config, approval))
            && (plan.publications == [] <==> plan.ending.Some?)
    ensures forall config, approval :: AuthorizeMay(w, files, c, config, approval) ==>
              var plan, requirements := PlanOf(w, files, c), RequirementsDoc(c.approvedSlots, false);
              && |plan.publications| == 3 && plan.ending == None
              && plan.publications[0] == Artifact(c.requirementsPath, requirements)
              && plan.publications[1].path == c.catalogPath
              && var catalog := plan.publications[1].document;
                 && catalog.CatalogDoc? && catalog.content == c.catalogContent && |catalog.decisions| == 1
                 && Records(w, catalog.decisions[0], approval, c.freezeTime)
                 && plan.publications[2].path == c.authorizedPath && plan.publications[2].document.ConfigDoc?
                 && Authorizes(w, plan.publications[2].document.config, config, c.requirementsPath, requirements,
                               c.catalogPath, catalog)
  {
    var plan := PlanOf(w, files, c);
    if c.candidatePath in files && files[c.candidatePath].ConfigDoc? && c.approvalPath in files && files[c.approvalPath].ApprovalDoc? {
      var config, approval := files[c.candidatePath].config, files[c.approvalPath].approval;
      ApprovalPasses(w, files, config, approval, c.freezeTime);
      hide ApprovalError, OwnerApproved, DecisionFor, AuthorizedConfig, Records, Authorizes;
      WhatIsRead(w, files, c.candidatePath, config);
      assert LoadConfig(w, files, c.candidatePath).Ok? ==> LoadConfig(w, files, c.candidatePath) == Ok(config);
      assert plan.publications != [] <==> AuthorizeMay(w, files, c, config, approval);
      if AuthorizeMay(w, files, c, config, approval) {
        var d := DecisionFor(w, approval, c.freezeTime);
        DecisionRecords(w, d, approval, c.freezeTime);
        var requirements, catalog := RequirementsDoc(c.approvedSlots, false), CatalogDoc(c.catalogContent, [d]);
        AuthorizedConfigIs(w, AuthorizedConfig(w, config, c.requirementsPath, requirements, c.catalogPath, catalog),
                           config, c.requirementsPath, requirements, c.catalogPath, catalog);
      }
    }
  }

  // What each refusal of `authorize` says about what it was given.
  lemma AuthorizeRefuses(w: World, files: Files, c: Command)
    requires c.Authorize? && PlanOf(w, files, c).ending.Some?
    ensures var e := PlanOf(w, files, c).ending.value;
            var readable := c.candidatePath in files && files[c.candidatePath].ConfigDoc?;
            if e == ConfigRefused then readable && !w.accepts(files[c.candidatePath].config)
            else if e == CannotRead then !readable || c.approvalPath !in files || !files[c.approvalPath].ApprovalDoc?
            else
              && readable && c.approvalPath in files && files[c.approvalPath].ApprovalDoc?
              && var config, approval := files[c.candidatePath].config, files[c.approvalPath].approval;
                 match e
                 case UnsupportedExperiment => config.experimentId != "thesis-evaluation-v2"
                 case FreezeBeforeApproval => c.freezeTime < approval.approvedAt
                 case ApprovalRefused =>
                   || !approval.complete || approval.schemaVersion != "academic-matrix-v2-owner-approval-v1"
                   || approval.authorizationEffect != "none" || approval.candidateConfigIdentity != w.hash(ConfigDoc(config))
                   || approval.candidateRequirementsSha != config.requirementsSha || !SevenApproved(approval.groups)
                 case RequirementsRefused =>
                   || config.requirementsPath !in files || !files[config.requirementsPath].RequirementsDoc?
                   || !files[config.requirementsPath].unresolved
                 case BundleRefused => OwnerApproved(w, files, config, approval, c.freezeTime) && !c.bundled
                 case _ => false
  {
    hide EveryGroupApproved, SevenApproved, DecisionFor, AuthorizedConfig;
    if c.candidatePath in files && files[c.candidatePath].ConfigDoc? && c.approvalPath in files && files[c.approvalPath].ApprovalDoc? {
      var config, approval := files[c.candidatePath].config, files[c.approvalPath].approval;
      GroupsAreTheSeven(approval.groups);
      ApprovalPasses(w, files, config, approval, c.freezeTime);
    }
  }

  // ---- the test lock ----

  ghost predicate VerifyMay(w: World, files: Files, c: Command, config: Config, d: Decision)
    requires c.Verify?
  {
    && ConfigAt(w, files, c.authorizedPath, config) && OneDecision(files, config, d)
    && c.exitCode == 0 && d.freezeTime < c.completedAt
  }

  // The lock `verify` writes: of this config and this decision, of this run of the suite and its output, sealed.
  ghost predicate TestsThis(w: World, t: TestLock, c: Command, config: Config, d: Decision)
    requires c.Verify?
  {
    && t.schemaVersion == "academic-matrix-v2-test-lock-v1" && t.experimentId == "thesis-evaluation-v2"
    && t.configIdentity == w.hash(ConfigDoc(config)) && t.freezeIdentity == d.recordSha
    && t.startedAt == c.startedAt && t.completedAt == c.completedAt && t.exitCode == 0 && t.passed
    && t.stdoutPath == c.stdoutPath && t.stdoutSha == w.hash(OutputDoc(c.stdout))
    && t.stderrPath == c.stderrPath && t.stderrSha == w.hash(OutputDoc(c.stderr))
    && t.identity == w.hash(TestLockDoc(t.(identity := "")))
  }

  // `verify` publishes anything only after a suite that succeeded, later than the freeze of the one decision of an
  // accepted config, and then exactly the suite's two outputs and the lock.
  lemma VerifyPublishes(w: World, files: Files, c: Command)
    requires c.Verify?
    ensures var plan := PlanOf(w, files, c);
            && (plan.publications != [] <==> exists config, d :: VerifyMay(w, files, c, config, d))
            && (plan.publications == [] <==> plan.ending.Some?)
    ensures forall config, d :: VerifyMay(w, files, c, config, d) ==>
              var plan := PlanOf(w, files, c);
              && |plan.publications| == 3 && plan.ending == None
              && plan.publications[0] == Artifact(c.stdoutPath, OutputDoc(c.stdout))
              && plan.publications[1] == Artifact(c.stderrPath, OutputDoc(c.stderr))
              && plan.publications[2].path == c.testLockPath && plan.publications[2].document.TestLockDoc?
              && TestsThis(w, plan.publications[2].document.test, c, config, d)
  {
    var plan := PlanOf(w, files, c);
    if c.authorizedPath in files && files[c.authorizedPath].ConfigDoc? {
      var config := files[c.authorizedPath].config;
      WhatIsRead(w, files, c.authorizedPath, config);
      if config.catalogPath in files && files[config.catalogPath].CatalogDoc? && |files[config.catalogPath].decisions| == 1 {
        var d := files[config.catalogPath].decisions[0];
        if c.exitCode == 0 {
          TestLockTests(w, c, config, d);
        }
        hide TestLockFor, TestsThis;
        assert plan.publications != [] <==> VerifyMay(w, files, c, config, d);
      }
    }
  }

  lemma TestLockTests(w: World, c: Command, config: Config, d: Decision)
    requires c.Verify? && c.exitCode == 0
    ensures TestsThis(w, TestLockFor(w, config, d, c.startedAt, c.completedAt, c.exitCode, c.stdoutPath, c.stdout,
                                     c.stderrPath, c.stderr), c, config, d)
  {
    var t := TestLockFor(w, config, d, c.startedAt, c.completedAt, c.exitCode, c.stdoutPath, c.stdout, c.stderrPath, c.stderr);
    var bare := TestLock(TEST_LOCK_SCHEMA, EXPERIMENT_ID, ConfigIdentity(w, config), d.recordSha, c.startedAt, c.completedAt,
                         c.exitCode, true, c.stdoutPath, w.hash(OutputDoc(c.stdout)), c.stderrPath,
                         w.hash(OutputDoc(c.stderr)), "");
    assert t.(identity := "") == bare;
  }

  // What a refusal says about the config and its decision; `CannotRead` may be about either.
  ghost predicate ReadingFails(w: World, files: Files, path: Path, e: Error) {
    if path !in files || !files[path].ConfigDoc? then e == CannotRead
    else
      var config := files[path].config;
      if !w.accepts(config) then e == ConfigRefused
      else if config.catalogPath !in files || !files[config.catalogPath].CatalogDoc? then e == CannotRead
      else
        var decisions := files[config.catalogPath].decisions;
        && e == NotOneDecision
        && (|decisions| == 1 ==> decisions[0].decisionId != "decision:thesis-evaluation-v2:interactive-owner-approval-v2")
  }

  lemma VerifyRefuses(w: World, files: Files, c: Command)
    requires c.Verify? && PlanOf(w, files, c).ending.Some?
    ensures var e := PlanOf(w, files, c).ending.value;
            || ReadingFails(w, files, c.authorizedPath, e)
            || exists config, d ::
                 && ConfigAt(w, files, c.authorizedPath, config) && OneDecision(files, config, d)
                 && (if c.exitCode != 0 then e == SuiteFailed else e == TestNotAfterFreeze && c.completedAt <= d.freezeTime)
  {
    if c.authorizedPath in files && files[c.authorizedPath].ConfigDoc? {
      var config := files[c.authorizedPath].config;
      if config.catalogPath in files && files[config.catalogPath].CatalogDoc? && |files[config.catalogPath].decisions| == 1 {
        var d := files[config.catalogPath].decisions[0];
        assert files[config.catalogPath].decisions == [d];
        if w.accepts(config) && d.decisionId == DECISION_ID {
          assert ConfigAt(w, files, c.authorizedPath, config) && OneDecision(files, config, d);
        }
      }
    }
  }

  // ---- the truth lock ----

  ghost predicate LockTruthMay(w: World, files: Files, c: Command, config: Config, d: Decision, t: TestLock)
    requires c.LockTruth?
  {
    && ConfigAt(w, files, c.authorizedPath, config) && OneDecision(files, config, d) && TestLockAt(w, files, c.testLockPath, t)
    && t.experimentId == "thesis-evaluation-v2" && t.configIdentity == w.hash(ConfigDoc(config))
    && t.freezeIdentity == d.recordSha && t.passed
    && d.freezeTime < t.completedAt < c.lockedAt && c.snapshots.Some?
  }

  ghost predicate LocksThis(w: World, u: TruthLock, c: Command, config: Config, d: Decision, t: TestLock)
    requires c.LockTruth? && c.snapshots.Some?
  {
    && u.schemaVersion == "academic-matrix-v2-truth-lock-v1" && u.experimentId == "thesis-evaluation-v2"
    && u.configIdentity == w.hash(ConfigDoc(config)) && u.freezeIdentity == d.recordSha
    && u.testLockIdentity == t.identity && u.lockedAt == c.lockedAt && u.sourceSnapshots == c.snapshots.value
    && u.identity == w.hash(TruthLockDoc(u.(identity := "")))
  }

  // `lock-truth` publishes anything only beside a test lock that passed, of this config and this decision, later than
  // the freeze and earlier than the lock, and then exactly the truth lock that binds the three.
  lemma LockTruthPublishes(w: World, files: Files, c: Command)
    requires c.LockTruth?
    ensures var plan := PlanOf(w, files, c);
            && (plan.publications != [] <==> exists config, d, t :: LockTruthMay(w, files, c, config, d, t))
            && (plan.publications == [] <==> plan.ending.Some?)
    ensures forall config, d, t :: LockTruthMay(w, files, c, config, d, t) ==>
              var plan := PlanOf(w, files, c);
              && |plan.publications| == 1 && plan.ending == None
              && plan.publications[0].path == c.truthLockPath && plan.publications[0].document.TruthLockDoc?
              && LocksThis(w, plan.publications[0].document.truth, c, config, d, t)
  {
    if c.authorizedPath in files && files[c.authorizedPath].ConfigDoc? {
      var config := files[c.authorizedPath].config;
      if config.catalogPath in files && files[config.catalogPath].CatalogDoc? && |files[config.catalogPath].decisions| == 1 {
        var d := files[config.catalogPath].decisions[0];
        if c.testLockPath in files && files[c.testLockPath].TestLockDoc? {
          LockTruthDecides(w, files, c, config, d, files[c.testLockPath].test);
        }
      }
    }
  }

  lemma LockTruthDecides(w: World, files: Files, c: Command, config: Config, d: Decision, t: TestLock)
    requires c.LockTruth?
    requires c.authorizedPath in files && files[c.authorizedPath] == ConfigDoc(config)
    requires config.catalogPath in files && files[config.catalogPath].CatalogDoc? && files[config.catalogPath].decisions == [d]
    requires c.testLockPath in files && files[c.testLockPath] == TestLockDoc(t)
    ensures var plan := PlanOf(w, files, c);
            && (plan.publications != [] <==> LockTruthMay(w, files, c, config, d, t))
            && (plan.publications == [] <==> plan.ending.Some?)
            && (LockTruthMay(w, files, c, config, d, t) ==>
                  && |plan.publications| == 1 && plan.ending == None
                  && plan.publications[0].path == c.truthLockPath && plan.publications[0].document.TruthLockDoc?
                  && LocksThis(w, plan.publications[0].document.truth, c, config, d, t))
  {
    WhatIsRead(w, files, c.authorizedPath, config);
    SealsAre(w);
    hide TestIdentity, TruthIdentity, TruthLockFor, LocksThis;
    if LockTruthMay(w, files, c, config, d, t) {
      TruthLockLocks(w, c, config, d, t);
    }
  }

  lemma TruthLockLocks(w: World, c: Command, config: Config, d: Decision, t: TestLock)
    requires c.LockTruth? && c.snapshots.Some?
    ensures LocksThis(w, TruthLockFor(w, config, d, t, c.lockedAt, c.snapshots.value), c, config, d, t)
  {
    var u := TruthLockFor(w, config, d, t, c.lockedAt, c.snapshots.value);
    assert u.(identity := "") == TruthLock(TRUTH_LOCK_SCHEMA, EXPERIMENT_ID, ConfigIdentity(w, config), d.recordSha,
                                           t.identity, c.lockedAt, c.snapshots.value, "");
  }

  ghost predicate TestLockFails(w: World, files: Files, path: Path, e: Error) {
    match e
    case CannotRead => path !in files
    case UnsupportedSchema =>
      path in files && (files[path].TestLockDoc? ==> files[path].test.schemaVersion != "academic-matrix-v2-test-lock-v1")
    case IdentityMismatch =>
      && path in files && files[path].TestLockDoc?
      && files[path].test.identity != w.hash(TestLockDoc(files[path].test.(identity := "")))
    case _ => false
  }

  ghost predicate TruthLockFails(w: World, files: Files, path: Path, e: Error) {
    match e
    case CannotRead => path !in files
    case UnsupportedSchema =>
      path in files && (files[path].TruthLockDoc? ==> files[path].truth.schemaVersion != "academic-matrix-v2-truth-lock-v1")
    case IdentityMismatch =>
      && path in files && files[path].TruthLockDoc?
      && files[path].truth.identity != w.hash(TruthLockDoc(files[path].truth.(identity := "")))
    case _ => false
  }

  lemma LocksFail(w: World, files: Files, path: Path)
    ensures var r := LoadTestLock(w, files, path);
            if r.Ok? then TestLockAt(w, files, path, r.value) else TestLockFails(w, files, path, r.error)
    ensures var r := LoadTruthLock(w, files, path);
            if r.Ok? then TruthLockAt(w, files, path, r.value) else TruthLockFails(w, files, path, r.error)
  {
    SealsAre(w);
    hide TestIdentity, TruthIdentity;
  }

  lemma ConfigAndDecisionFail(w: World, files: Files, path: Path)
    ensures var loaded := LoadConfig(w, files, path);
            if loaded.Err? then ReadingFails(w, files, path, loaded.error)
            else
              && ConfigAt(w, files, path, loaded.value)
              && var decided := LoadDecision(files, loaded.value);
                 if decided.Err? then ReadingFails(w, files, path, decided.error)
                 else OneDecision(files, loaded.value, decided.value)
  {
    if path in files && files[path].ConfigDoc? {
      var config := files[path].config;
      if config.catalogPath in files && files[config.catalogPath].CatalogDoc? && |files[config.catalogPath].decisions| == 1 {
        assert files[config.catalogPath].decisions == [files[config.catalogPath].decisions[0]];
      }
    }
  }

  // Which check of `lock-truth` fails on locks and a decision it has read.
  ghost predicate LockTruthFails(w: World, c: Command, config: Config, d: Decision, t: TestLock, e: Error)
    requires c.LockTruth?
  {
    match e
    case NotBoundToConfig => t.experimentId != "thesis-evaluation-v2" || t.configIdentity != w.hash(ConfigDoc(config))
    case NotASuccessfulLock => t.freezeIdentity != d.recordSha || !t.passed
    case TestNotAfterFreeze => t.completedAt <= d.freezeTime
    case SourceRefused => c.snapshots.None?
    case TruthNotAfterTest => c.lockedAt <= t.completedAt
    case _ => false
  }

  lemma LockTruthRefuses(w: World, files: Files, c: Command)
    requires c.LockTruth? && PlanOf(w, files, c).ending.Some?
    ensures var e := PlanOf(w, files, c).ending.value;
            || ReadingFails(w, files, c.authorizedPath, e)
            || exists config, d ::
                 && ConfigAt(w, files, c.authorizedPath, config) && OneDecision(files, config, d)
                 && (|| TestLockFails(w, files, c.testLockPath, e)
                     || exists t :: TestLockAt(w, files, c.testLockPath, t) && LockTruthFails(w, c, config, d, t, e))
  {
    ConfigAndDecisionFail(w, files, c.authorizedPath);
    LocksFail(w, files, c.testLockPath);
    hide LoadConfig, LoadDecision, LoadTestLock, ConfigAt, OneDecision, TestLockAt, TestLockFails, ReadingFails;
  }

  // ---- the frozen config ----

  // What `finalize` read is bound together and in order of time.
  ghost predicate Bound(w: World, config: Config, d: Decision, t: TestLock, u: TruthLock) {
    && t.experimentId == "thesis-evaluation-v2" && u.experimentId == "thesis-evaluation-v2"
    && t.configIdentity == w.hash(ConfigDoc(config)) && u.configIdentity == w.hash(ConfigDoc(config))
    && t.freezeIdentity == d.recordSha && u.freezeIdentity == d.recordSha
    && u.testLockIdentity == t.identity
    && t.passed && t.exitCode == 0
    && d.freezeTime < t.completedAt && t.completedAt < u.lockedAt
  }

  lemma ChainIsBound(w: World, config: Config, d: Decision, t: TestLock, u: TruthLock)
    ensures ChainError(w, config, d, t, u) == None <==> Bound(w, config, d, t, u)
  {
  }

  ghost predicate FinalizeMay(w: World, files: Files, c: Command, config: Config, d: Decision, t: TestLock, u: TruthLock)
    requires c.Finalize?
  {
    && ConfigAt(w, files, c.authorizedPath, config) && OneDecision(files, config, d)
    && TestLockAt(w, files, c.testLockPath, t) && TruthLockAt(w, files, c.truthLockPath, u)
    && Bound(w, config, d, t, u)
  }

  // The context records the three identities and the three times.
  ghost predicate ContextOf(x: Context, d: Decision, t: TestLock, u: TruthLock) {
    && x.freezeIdentity == d.recordSha && x.testIdentity == t.identity && x.truthIdentity == u.identity
    && x.freezeTime == d.freezeTime && x.testTime == t.completedAt && x.truthTime == u.lockedAt
  }

  // The frozen config is the authorized one with this context in it.
  ghost predicate FrozenAs(w: World, frozen: Config, config: Config, contextPath: Path, context: Context) {
    && frozen.contextPath == contextPath && frozen.contextSha == w.hash(ContextDoc(context))
    && frozen.experimentId == config.experimentId && frozen.protocol == config.protocol
    && frozen.sourceCatalogPath == config.sourceCatalogPath
    && frozen.requirementsPath == config.requirementsPath && frozen.requirementsSha == config.requirementsSha
    && frozen.catalogPath == config.catalogPath && frozen.catalogSha == config.catalogSha
    && frozen.inventoryId == config.inventoryId && frozen.requiredSetId == config.requiredSetId
  }

  lemma ContextIs(x: Context, d: Decision, t: TestLock, u: TruthLock)
    ensures x == ContextFor(d, t, u) <==> ContextOf(x, d, t, u)
  {
  }

  lemma FrozenConfigIs(w: World, frozen: Config, config: Config, contextPath: Path, context: Context)
    ensures frozen == FrozenConfig(w, config, contextPath, context) <==> FrozenAs(w, frozen, config, contextPath, context)
  {
  }

  // `finalize` publishes the context only of a bound chain, and the frozen config beside it only if the gate closes.
  lemma FinalizePublishes(w: World, files: Files, c: Command)
    requires c.Finalize?
    ensures PlanOf(w, files, c).publications != [] <==> exists config, d, t, u :: FinalizeMay(w, files, c, config, d, t, u)
    ensures forall config, d, t, u :: FinalizeMay(w, files, c, config, d, t, u) ==> Finalizes(w, files, c, config, d, t, u)
  {
    if c.authorizedPath in files && files[c.authorizedPath].ConfigDoc? {
      var config := files[c.authorizedPath].config;
      if config.catalogPath in files && files[config.catalogPath].CatalogDoc? && |files[config.catalogPath].decisions| == 1 {
        var d := files[config.catalogPath].decisions[0];
        if c.testLockPath in files && files[c.testLockPath].TestLockDoc?
           && c.truthLockPath in files && files[c.truthLockPath].TruthLockDoc? {
          FinalizeDecides(w, files, c, config, d, files[c.testLockPath].test, files[c.truthLockPath].truth);
        }
      }
    }
  }

  ghost predicate Finalizes(w: World, files: Files, c: Command, config: Config, d: Decision, t: TestLock, u: TruthLock)
    requires c.Finalize?
  {
    var plan := PlanOf(w, files, c);
    && |plan.publications| == (if c.accountable then 2 else 1)
    && plan.ending == (if c.accountable then None else Some(GateNotClosed))
    && plan.publications[0].path == c.contextPath && plan.publications[0].document.ContextDoc?
    && ContextOf(plan.publications[0].document.context, d, t, u)
    && (c.accountable ==>
          && plan.publications[1].path == c.frozenPath && plan.publications[1].document.ConfigDoc?
          && FrozenAs(w, plan.publications[1].document.config, config, c.contextPath, plan.publications[0].document.context))
  }

  lemma FinalizeDecides(w: World, files: Files, c: Command, config: Config, d: Decision, t: TestLock, u: TruthLock)
    requires c.Finalize?
    requires c.authorizedPath in files && files[c.authorizedPath] == ConfigDoc(config)
    requires config.catalogPath in files && files[config.catalogPath].CatalogDoc? && files[config.catalogPath].decisions == [d]
    requires c.testLockPath in files && files[c.testLockPath] == TestLockDoc(t)
    requires c.truthLockPath in files && files[c.truthLockPath] == TruthLockDoc(u)
    ensures PlanOf(w, files, c).publications != [] <==> FinalizeMay(w, files, c, config, d, t, u)
    ensures FinalizeMay(w, files, c, config, d, t, u) ==> Finalizes(w, files, c, config, d, t, u)
  {
    WhatIsRead(w, files, c.authorizedPath, config);
    ChainIsBound(w, config, d, t, u);
    hide TestIdentity, TruthIdentity, ChainError, Bound;
    SealsAre(w);
  }

  ghost predicate BindingFails(w: World, config: Config, d: Decision, t: TestLock, u: TruthLock, e: Error) {
    match e
    case NotBoundToConfig =>
      || t.experimentId != "thesis-evaluation-v2" || t.configIdentity != w.hash(ConfigDoc(config))
      || u.experimentId != "thesis-evaluation-v2" || u.configIdentity != w.hash(ConfigDoc(config))
    case FreezeNotBound => t.freezeIdentity != d.recordSha || u.freezeIdentity != d.recordSha
    case TestLockNotBound => u.testLockIdentity != t.identity
    case NotASuccessfulLock => !t.passed || t.exitCode != 0
    case WrongTemporalOrder => t.completedAt <= d.freezeTime || u.lockedAt <= t.completedAt
    case _ => false
  }

  lemma FinalizeRefuses(w: World, files: Files, c: Command)
    requires c.Finalize? && PlanOf(w, files, c).ending.Some?
    ensures var e := PlanOf(w, files, c).ending.value;
            || ReadingFails(w, files, c.authorizedPath, e)
            || exists config, d ::
                 && ConfigAt(w, files, c.authorizedPath, config) && OneDecision(files, config, d)
                 && (|| TestLockFails(w, files, c.testLockPath, e) || TruthLockFails(w, files, c.truthLockPath, e)
                     || exists t, u ::
                          && TestLockAt(w, files, c.testLockPath, t) && TruthLockAt(w, files, c.truthLockPath, u)
                          && (if e == GateNotClosed then Bound(w, config, d, t, u) && !c.accountable
                              else BindingFails(w, config, d, t, u, e)))
  {
    ConfigAndDecisionFail(w, files, c.authorizedPath);
    LocksFail(w, files, c.testLockPath);
    LocksFail(w, files, c.truthLockPath);
    var loaded := LoadConfig(w, files, c.authorizedPath);
    if loaded.Ok? && LoadDecision(files, loaded.value).Ok? && LoadTestLock(w, files, c.testLockPath).Ok?
       && LoadTruthLock(w, files, c.truthLockPath).Ok? {
      ChainFails(w, loaded.value, LoadDecision(files, loaded.value).value, LoadTestLock(w, files, c.testLockPath).value,
                 LoadTruthLock(w, files, c.truthLockPath).value);
    }
    hide LoadConfig, LoadDecision, LoadTestLock, LoadTruthLock, ConfigAt, OneDecision, TestLockAt, TestLockFails, TruthLockAt,
         TruthLockFails, ReadingFails, ChainError, Bound, BindingFails;
  }

  lemma ChainFails(w: World, config: Config, d: Decision, t: TestLock, u: TruthLock)
    ensures var e := ChainError(w, config, d, t, u);
            if e == None then Bound(w, config, d, t, u) else BindingFails(w, config, d, t, u, e.value) && e.value != GateNotClosed
  {
  }

  // ---- what reaches the store ----

  // Some first artifacts of the plan are in the store, in order, and nothing else is new or changed; the command ends as
  // planned if these are all of them, and otherwise because the next path holds another document.
  ghost predicate Published(files: Files, plan: Plan, g: Files, r: Option<Error>, n: nat) {
    && n <= |plan.publications|
    && (forall k :: 0 <= k < n ==> plan.publications[k].path in g && g[plan.publications[k].path] == plan.publications[k].document)
    && (forall p :: p in files ==> p in g && g[p] == files[p])
    && (forall p :: p in g && p !in files ==> exists k :: 0 <= k < n && plan.publications[k].path == p)
    && (if n == |plan.publications| then r == plan.ending
        else
          && r == Some(ImmutableConflict) && plan.publications[n].path in g
          && g[plan.publications[n].path] != plan.publications[n].document)
  }

  lemma {:induction false} PerformPublishes(files: Files, plan: Plan) returns (n: nat)
    ensures var (g, r) := Perform(files, plan); Published(files, plan, g, r, n)
    decreases |plan.publications|
  {
    hide Published;
    if plan.publications == [] {
      n := 0;
      NothingPublished(files, plan, plan.ending);
    } else {
      var first, rest := plan.publications[0], plan.(publications := plan.publications[1..]);
      var (next, outcome) := Publication.Publish(files, first.path, first.document);
      if outcome == Publication.Conflict {
        n := 0;
        NothingPublished(files, plan, Some(ImmutableConflict));
      } else {
        var m := PerformPublishes(next, rest);
        n := m + 1;
        var (g, r) := Perform(next, rest);
        OneMorePublished(files, first, rest, next, g, r, m);
        assert plan == Plan([first] + rest.publications, rest.ending);
      }
    }
  }

  lemma NothingPublished(files: Files, plan: Plan, r: Option<Error>)
    requires if plan.publications == [] then r == plan.ending
             else
               && r == Some(ImmutableConflict) && plan.publications[0].path in files
               && files[plan.publications[0].path] != plan.publications[0].document
    ensures Published(files, plan, files, r, 0)
  {
  }

  lemma OneMorePublished(files: Files, first: Artifact, rest: Plan, next: Files, g: Files, r: Option<Error>, m: nat)
    requires first.path in next && next[first.path] == first.document
    requires forall p :: p in files ==> p in next && next[p] == files[p]
    requires forall p :: p in next && p !in files ==> p == first.path
    requires Published(next, rest, g, r, m)
    ensures Published(files, Plan([first] + rest.publications, rest.ending), g, r, m + 1)
  {
    var all := [first] + rest.publications;
    assert all[0] == first && forall k :: 1 <= k < |all| ==> all[k] == rest.publications[k - 1];
    forall p | p in g && p !in files ensures exists k :: 0 <= k < m + 1 && all[k].path == p {
      if p !in next {
        var k :| 0 <= k < m && rest.publications[k].path == p;
        assert all[k + 1].path == p;
      } else {
        assert all[0].path == p;
      }
    }
  }
}
