// The four commands as they run alone: each reads, checks and publishes step by step.
module AuthorityStore {
  import opened Wrappers
  import opened AuthorityDocuments
  import Publication

  // Publishing in order until something refuses to be replaced.
  function Perform(files: Files, plan: Plan): (Files, Option<Error>)
    decreases |plan.publications|
  {
    if plan.publications == [] then (files, plan.ending)
    else
      var first := plan.publications[0];
      var (next, outcome) := Publication.Publish(files, first.path, first.document);
      if outcome == Publication.Conflict then (files, Some(ImmutableConflict))
      else Perform(next, plan.(publications := plan.publications[1..]))
  }

  // The owner's approval, checked in the order of the source.
  method CheckApproval(w: World, files: Files, config: Config, approval: Approval, freezeTime: Instant)
    returns (complaint: Option<Error>)
    ensures complaint == ApprovalError(w, files, config, approval, freezeTime)
  {
    hide EveryGroupApproved;
    if config.experimentId != EXPERIMENT_ID {
      return Some(UnsupportedExperiment);
    }
    if freezeTime < approval.approvedAt {
      return Some(FreezeBeforeApproval);
    }
    if !approval.complete || approval.schemaVersion != APPROVAL_SCHEMA || approval.authorizationEffect != "none" {
      return Some(ApprovalRefused);
    }
    if approval.candidateConfigIdentity != ConfigIdentity(w, config) || approval.candidateRequirementsSha != config.requirementsSha {
      return Some(ApprovalRefused);
    }
    var approved := CheckApprovalGroups(approval.groups);
    if !approved {
      return Some(ApprovalRefused);
    }
    if config.requirementsPath !in files || !files[config.requirementsPath].RequirementsDoc? {
      return Some(RequirementsRefused);
    }
    return if files[config.requirementsPath].unresolved then None else Some(RequirementsRefused);
  }

  class Operator {
    const w: World
    var files: Files

    constructor (w: World, files: Files)
      ensures this.w == w && this.files == files
    {
      this.w, this.files := w, files;
    }

    method PublishImmutable(path: Path, document: Document) returns (ok: bool)
      modifies this
      ensures (files, if ok then Publication.Returned else Publication.Conflict)
           == Publication.Publish(old(files), path, document)
    {
      if path in files {
        return files[path] == document;
      }
      files := files[path := document];
      return true;
    }

    method Authorize(c: Command) returns (r: Option<Error>)
      requires c.Authorize?
      modifies this
      ensures (files, r) == Perform(old(files), PlanOf(w, old(files), c))
    {
      hide ApprovalError, DecisionFor, AuthorizedConfig;
      var loaded := LoadConfig(w, files, c.candidatePath);
      if loaded.Err? {
        return Some(loaded.error);
      }
      if c.approvalPath !in files || !files[c.approvalPath].ApprovalDoc? {
        return Some(CannotRead);
      }
      var config, approval := loaded.value, files[c.approvalPath].approval;
      var complaint := CheckApproval(w, files, config, approval, c.freezeTime);
      if complaint.Some? {
        return complaint;
      }
      if !c.bundled {
        return Some(BundleRefused);
      }
      var requirements := RequirementsDoc(c.approvedSlots, false);
      var catalog := CatalogDoc(c.catalogContent, [DecisionFor(w, approval, c.freezeTime)]);
      ghost var authorized := AuthorizedConfig(w, config, c.requirementsPath, requirements, c.catalogPath, catalog);
      ghost var rest := [Artifact(c.catalogPath, catalog), Artifact(c.authorizedPath, ConfigDoc(authorized))];
      PerformFirst(files, Artifact(c.requirementsPath, requirements), rest, None);
      var ok := PublishImmutable(c.requirementsPath, requirements);
      if !ok {
        return Some(ImmutableConflict);
      }
      PerformFirst(files, rest[0], rest[1..], None);
      ok := PublishImmutable(c.catalogPath, catalog);
      if !ok {
        return Some(ImmutableConflict);
      }
      var candidate := config.(requirementsPath := c.requirementsPath, requirementsSha := w.hash(requirements));
      candidate := candidate.(catalogPath := c.catalogPath, catalogSha := w.hash(catalog));
      candidate := candidate.(inventoryId := INVENTORY_ID, requiredSetId := REQUIRED_SET_ID);
      candidate := candidate.(contextPath := DEFAULT_CONTEXT_PATH, contextSha := UNRESOLVED);
      assert candidate == authorized by {
        AuthorizedIs(w, config, c.requirementsPath, requirements, c.catalogPath, catalog);
      }
      PerformFirst(files, rest[1], [], None);
      ok := PublishImmutable(c.authorizedPath, ConfigDoc(candidate));
      return if ok then None else Some(ImmutableConflict);
    }

    method Verify(c: Command) returns (r: Option<Error>)
      requires c.Verify?
      modifies this
      ensures (files, r) == Perform(old(files), PlanOf(w, old(files), c))
    {
      hide TestLockFor;
      var loaded := LoadConfig(w, files, c.authorizedPath);
      if loaded.Err? {
        return Some(loaded.error);
      }
      var config := loaded.value;
      var decided := LoadDecision(files, config);
      if decided.Err? {
        return Some(decided.error);
      }
      if c.exitCode != 0 {
        return Some(SuiteFailed);
      }
      if c.completedAt <= decided.value.freezeTime {
        return Some(TestNotAfterFreeze);
      }
      ghost var sealed := TestLockFor(w, config, decided.value, c.startedAt, c.completedAt, c.exitCode,
                                      c.stdoutPath, c.stdout, c.stderrPath, c.stderr);
      ghost var rest := [Artifact(c.stderrPath, OutputDoc(c.stderr)), Artifact(c.testLockPath, TestLockDoc(sealed))];
      PerformFirst(files, Artifact(c.stdoutPath, OutputDoc(c.stdout)), rest, None);
      var ok := PublishImmutable(c.stdoutPath, OutputDoc(c.stdout));
      if !ok {
        return Some(ImmutableConflict);
      }
      PerformFirst(files, rest[0], rest[1..], None);
      ok := PublishImmutable(c.stderrPath, OutputDoc(c.stderr));
      if !ok {
        return Some(ImmutableConflict);
      }
      var lock := TestLock(TEST_LOCK_SCHEMA, EXPERIMENT_ID, ConfigIdentity(w, config), decided.value.recordSha,
                           c.startedAt, c.completedAt, c.exitCode, true,
                           c.stdoutPath, w.hash(OutputDoc(c.stdout)), c.stderrPath, w.hash(OutputDoc(c.stderr)), "");
      lock := lock.(identity := TestIdentity(w, lock));
      assert lock == sealed by {
        TestLockIs(w, config, decided.value, c);
      }
      PerformFirst(files, rest[1], [], None);
      ok := PublishImmutable(c.testLockPath, TestLockDoc(lock));
      return if ok then None else Some(ImmutableConflict);
    }

    method LockTruth(c: Command) returns (r: Option<Error>)
      requires c.LockTruth?
      modifies this
      ensures (files, r) == Perform(old(files), PlanOf(w, old(files), c))
    {
      hide TruthIdentity, TestIdentity;
      var loaded := LoadConfig(w, files, c.authorizedPath);
      if loaded.Err? {
        return Some(loaded.error);
      }
      var config := loaded.value;
      var decided := LoadDecision(files, config);
      if decided.Err? {
        return Some(decided.error);
      }
      var tested := LoadTestLock(w, files, c.testLockPath);
      if tested.Err? {
        return Some(tested.error);
      }
      var d, test := decided.value, tested.value;
      if test.experimentId != EXPERIMENT_ID || test.configIdentity != ConfigIdentity(w, config) {
        return Some(NotBoundToConfig);
      }
      if test.freezeIdentity != d.recordSha || !test.passed {
        return Some(NotASuccessfulLock);
      }
      if test.completedAt <= d.freezeTime {
        return Some(TestNotAfterFreeze);
      }
      if c.snapshots.None? {
        return Some(SourceRefused);
      }
      if c.lockedAt <= test.completedAt {
        return Some(TruthNotAfterTest);
      }
      var lock := TruthLock(TRUTH_LOCK_SCHEMA, EXPERIMENT_ID, ConfigIdentity(w, config), d.recordSha, test.identity,
                            c.lockedAt, c.snapshots.value, "");
      lock := lock.(identity := TruthIdentity(w, lock));
      PerformFirst(files, Artifact(c.truthLockPath, TruthLockDoc(lock)), [], None);
      var ok := PublishImmutable(c.truthLockPath, TruthLockDoc(lock));
      return if ok then None else Some(ImmutableConflict);
    }

    method Finalize(c: Command) returns (r: Option<Error>)
      requires c.Finalize?
      modifies this
      ensures (files, r) == Perform(old(files), PlanOf(w, old(files), c))
    {
      hide ChainError;
      var loaded := LoadConfig(w, files, c.authorizedPath);
      if loaded.Err? {
        return Some(loaded.error);
      }
      var config := loaded.value;
      var decided := LoadDecision(files, config);
      if decided.Err? {
        return Some(decided.error);
      }
      var tested := LoadTestLock(w, files, c.testLockPath);
      if tested.Err? {
        return Some(tested.error);
      }
      var locked := LoadTruthLock(w, files, c.truthLockPath);
      if locked.Err? {
        return Some(locked.error);
      }
      var d, test, truth := decided.value, tested.value, locked.value;
      var complaint := ChainError(w, config, d, test, truth);
      if complaint.Some? {
        return complaint;
      }
      var context := Context(d.recordSha, test.identity, truth.identity, d.freezeTime, test.completedAt, truth.lockedAt);
      ghost var frozenConfig := Artifact(c.frozenPath, ConfigDoc(FrozenConfig(w, config, c.contextPath, context)));
      PerformFirst(files, Artifact(c.contextPath, ContextDoc(context)), if c.accountable then [frozenConfig] else [],
                   if c.accountable then None else Some(GateNotClosed));
      var ok := PublishImmutable(c.contextPath, ContextDoc(context));
      if !ok {
        return Some(ImmutableConflict);
      }
      if !c.accountable {
        return Some(GateNotClosed);
      }
      PerformFirst(files, frozenConfig, [], None);
      var frozen := config.(contextPath := c.contextPath, contextSha := w.hash(ContextDoc(context)));
      ok := PublishImmutable(c.frozenPath, ConfigDoc(frozen));
      return if ok then None else Some(ImmutableConflict);
    }
  }

  lemma PerformFirst(files: Files, first: Artifact, rest: seq<Artifact>, ending: Option<Error>)
    ensures Perform(files, Plan([first] + rest, ending))
         == (var (next, outcome) := Publication.Publish(files, first.path, first.document);
             if outcome == Publication.Conflict then (files, Some(ImmutableConflict))
             else Perform(next, Plan(rest, ending)))
    ensures Perform(files, Plan([], ending)) == (files, ending)
  {
    assert ([first] + rest)[1..] == rest;
  }

  lemma AuthorizedIs(w: World, config: Config, requirementsPath: Path, requirements: Document, catalogPath: Path, catalog: Document)
    ensures AuthorizedConfig(w, config, requirementsPath, requirements, catalogPath, catalog)
         == config.(requirementsPath := requirementsPath, requirementsSha := w.hash(requirements),
                    catalogPath := catalogPath, catalogSha := w.hash(catalog),
                    inventoryId := INVENTORY_ID, requiredSetId := REQUIRED_SET_ID,
                    contextPath := DEFAULT_CONTEXT_PATH, contextSha := UNRESOLVED)
  {
  }

  lemma TestLockIs(w: World, config: Config, d: Decision, c: Command)
    requires c.Verify?
    ensures var bare := TestLock(TEST_LOCK_SCHEMA, EXPERIMENT_ID, ConfigIdentity(w, config), d.recordSha,
                                 c.startedAt, c.completedAt, c.exitCode, true,
                                 c.stdoutPath, w.hash(OutputDoc(c.stdout)), c.stderrPath, w.hash(OutputDoc(c.stderr)), "");
            TestLockFor(w, config, d, c.startedAt, c.completedAt, c.exitCode, c.stdoutPath, c.stdout, c.stderrPath, c.stderr)
            == bare.(identity := TestIdentity(w, bare))
  {
  }
}
