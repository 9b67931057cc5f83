// Write-once publication by any number of concurrent publishers: exists check, temporary file,
// hard link, comparison on conflict, removal of the temporary file; any publisher may fail or
// crash between two steps.
module Publication {
  type Bytes = seq<int>
  type Inode = nat

  // Artifacts are published under targets. Publisher i writes its temporary file under Temp(i).
  datatype Name = Target(path: string) | Temp(publisher: nat)

  datatype Outcome = Returned | Conflict | Failed

  datatype Pc =
    | Checking
    | Reading
    | Opening
    | Writing(inode: Inode, written: nat)
    | Linking(inode: Inode)
    | Comparing
    | Unlinking(outcome: Outcome)
    | Finished(outcome: Outcome)
    | Crashed

  datatype Publisher = Publisher(path: string, payload: Bytes, pc: Pc)

  // A directory of names over inodes, so that a hard link shares its bytes with the temporary file.
  datatype System = System(dir: map<Name, Inode>, data: map<Inode, Bytes>, publishers: seq<Publisher>)

  datatype Label =
    | RefuseSymlink
    | CheckExists
    | ReadExisting
    | FailToRead
    | FailToOpen
    | OpenTemp(inode: Inode)
    | WriteChunk(upTo: nat)
    | FailBeforeLink
    | CloseTemp
    | Link
    | CompareConflict
    | Unlink
    | Crash

  predicate Stored(s: System, path: string) {
    Target(path) in s.dir && s.dir[Target(path)] in s.data
  }

  function Contents(s: System, path: string): Bytes
    requires Stored(s, path)
  {
    s.data[s.dir[Target(path)]]
  }

  function At(s: System, i: nat, pc: Pc): System
    requires i < |s.publishers|
  {
    s.(publishers := s.publishers[i := s.publishers[i].(pc := pc)])
  }

  // One step of publisher i.
  ghost predicate Step(s: System, i: nat, l: Label, s': System) {
    && i < |s.publishers|
    && var p := s.publishers[i];
       match l
       case RefuseSymlink => p.pc.Checking? && s' == At(s, i, Finished(Failed))
       case CheckExists => p.pc.Checking? && s' == At(s, i, if Target(p.path) in s.dir then Reading else Opening)
       case ReadExisting =>
         p.pc.Reading? && Stored(s, p.path)
         && s' == At(s, i, Finished(if Contents(s, p.path) == p.payload then Returned else Conflict))
       case FailToRead =>
         || (p.pc.Reading? && s' == At(s, i, Finished(Failed)))
         || (p.pc.Comparing? && s' == At(s, i, Unlinking(Failed)))
       case FailToOpen => p.pc.Opening? && s' == At(s, i, Finished(Failed))
       case OpenTemp(inode) =>
         p.pc.Opening? && inode !in s.data && Temp(i) !in s.dir
         && s' == At(s, i, Writing(inode, 0)).(dir := s.dir[Temp(i) := inode], data := s.data[inode := []])
       case WriteChunk(upTo) =>
         p.pc.Writing? && p.pc.written < upTo <= |p.payload|
         && s' == At(s, i, Writing(p.pc.inode, upTo)).(data := s.data[p.pc.inode := p.payload[..upTo]])
       case FailBeforeLink => (p.pc.Writing? || p.pc.Linking?) && s' == At(s, i, Unlinking(Failed))
       case CloseTemp => p.pc.Writing? && p.pc.written == |p.payload| && s' == At(s, i, Linking(p.pc.inode))
       case Link =>
         p.pc.Linking?
         && s' == (if Target(p.path) in s.dir then At(s, i, Comparing)
                   else At(s, i, Unlinking(Returned)).(dir := s.dir[Target(p.path) := p.pc.inode]))
       case CompareConflict =>
         p.pc.Comparing? && Stored(s, p.path)
         && s' == At(s, i, Unlinking(if Contents(s, p.path) == p.payload then Returned else Conflict))
       case Unlink => p.pc.Unlinking? && s' == At(s, i, Finished(p.pc.outcome)).(dir := s.dir - {Temp(i)})
       case Crash => !p.pc.Finished? && s' == At(s, i, Crashed)
  }

  // A store of earlier artifacts, and publishers that have not begun.
  ghost predicate Init(s: System) {
    && (forall n :: n in s.dir ==> n.Target? && s.dir[n] in s.data)
    && (forall i :: 0 <= i < |s.publishers| ==> s.publishers[i].pc == Checking)
  }

  ghost predicate Next(s: System, s': System) {
    exists i: nat, l: Label :: Step(s, i, l, s')
  }

  ghost predicate Run(states: seq<System>) {
    && states != [] && Init(states[0])
    && forall k :: 0 <= k < |states| - 1 ==> Next(states[k], states[k + 1])
  }

  // ---- invariant ----

  // The publisher still holds its temporary file, and no other name reaches its inode.
  ghost predicate OwnsTemp(s: System, i: nat, inode: Inode) {
    && Temp(i) in s.dir && s.dir[Temp(i)] == inode && inode in s.data
    && forall n :: n in s.dir && s.dir[n] == inode ==> n == Temp(i)
  }

  ghost predicate OutcomeHolds(s: System, p: Publisher, outcome: Outcome) {
    && (outcome == Returned ==> Stored(s, p.path) && Contents(s, p.path) == p.payload)
    && (outcome == Conflict ==> Stored(s, p.path) && Contents(s, p.path) != p.payload)
  }

  ghost predicate PublisherInv(s: System, i: nat)
    requires i < |s.publishers|
  {
    var p := s.publishers[i];
    match p.pc
    case Checking => Temp(i) !in s.dir
    case Reading => Temp(i) !in s.dir && Stored(s, p.path)
    case Opening => Temp(i) !in s.dir
    case Writing(inode, written) =>
      OwnsTemp(s, i, inode) && written <= |p.payload| && s.data[inode] == p.payload[..written]
    case Linking(inode) => OwnsTemp(s, i, inode) && s.data[inode] == p.payload
    case Comparing => Stored(s, p.path)
    case Unlinking(outcome) => OutcomeHolds(s, p, outcome)
    case Finished(outcome) => Temp(i) !in s.dir && OutcomeHolds(s, p, outcome)
    case Crashed => true
  }

  // What a target may hold: what it held at the start, or one publisher's complete payload.
  ghost predicate Legitimate(start: System, s: System, path: string)
    requires Stored(s, path)
  {
    (Stored(start, path) && Contents(s, path) == Contents(start, path))
    || exists i :: 0 <= i < |s.publishers| && s.publishers[i].path == path && s.publishers[i].payload == Contents(s, path)
  }

  ghost predicate DirectoryInv(start: System, s: System) {
    && (forall n :: n in s.dir ==> s.dir[n] in s.data)
    && (forall n :: n in s.dir && n.Temp? ==> n.publisher < |s.publishers|)
    && (forall path :: Stored(s, path) ==> Legitimate(start, s, path))
    && (forall path :: Stored(start, path) ==> Stored(s, path))
  }

  ghost predicate Inv(start: System, s: System) {
    DirectoryInv(start, s) && forall i :: 0 <= i < |s.publishers| ==> PublisherInv(s, i)
  }

  // ---- one step ----

  // Seen from outside, a step leaves every stored artifact alone and may add one.
  ghost predicate Grows(s: System, s': System) {
    forall path :: Stored(s, path) ==> Stored(s', path) && Contents(s', path) == Contents(s, path)
  }

  lemma StepGrows(start: System, s: System, i: nat, l: Label, s': System)
    requires Inv(start, s) && Step(s, i, l, s')
    ensures Grows(s, s')
  {
    assert PublisherInv(s, i);
    forall path | Stored(s, path) ensures Stored(s', path) && Contents(s', path) == Contents(s, path) {
      assert Target(path) in s'.dir;
    }
  }

  lemma StepDirectory(start: System, s: System, i: nat, l: Label, s': System)
    requires Inv(start, s) && Step(s, i, l, s')
    ensures DirectoryInv(start, s')
  {
    assert PublisherInv(s, i);
    StepGrows(start, s, i, l, s');
    forall path | Stored(s', path) ensures Legitimate(start, s', path) {
      if Stored(s, path) {
        assert Legitimate(start, s, path);
        if !(Stored(start, path) && Contents(s, path) == Contents(start, path)) {
          var j :| 0 <= j < |s.publishers| && s.publishers[j].path == path && s.publishers[j].payload == Contents(s, path);
          assert s'.publishers[j].path == path && s'.publishers[j].payload == Contents(s', path);
        }
      } else {
        assert l.Link? && s.publishers[i].path == path;
        assert s'.publishers[i].payload == s.publishers[i].payload == Contents(s', path);
      }
    }
  }

  lemma StepOwn(start: System, s: System, i: nat, l: Label, s': System)
    requires Inv(start, s) && Step(s, i, l, s')
    ensures PublisherInv(s', i)
  {
    assert PublisherInv(s, i);
  }

  // A step leaves the other publishers, and what they hold, alone.
  lemma StepSpares(start: System, s: System, i: nat, l: Label, s': System, j: nat)
    requires Inv(start, s) && Step(s, i, l, s') && j < |s.publishers| && j != i
    ensures |s'.publishers| == |s.publishers| && s'.publishers[j] == s.publishers[j]
    ensures Temp(j) !in s.dir ==> Temp(j) !in s'.dir
  {
    hide DirectoryInv, PublisherInv;
  }

  lemma StepSparesTemp(start: System, s: System, i: nat, l: Label, s': System, j: nat, inode: Inode)
    requires Inv(start, s) && Step(s, i, l, s') && j < |s.publishers| && j != i && OwnsTemp(s, j, inode)
    ensures OwnsTemp(s', j, inode) && s'.data[inode] == s.data[inode]
  {
    assert PublisherInv(s, i);
  }

  lemma StepOther(start: System, s: System, i: nat, l: Label, s': System, j: nat)
    requires Inv(start, s) && Step(s, i, l, s') && j < |s.publishers| && j != i
    ensures j < |s'.publishers| && PublisherInv(s', j)
  {
    hide Step, OwnsTemp, DirectoryInv;
    StepSpares(start, s, i, l, s', j);
    StepGrows(start, s, i, l, s');
    assert PublisherInv(s, j);
    match s.publishers[j].pc
    case Writing(inode, _) => StepSparesTemp(start, s, i, l, s', j, inode);
    case Linking(inode) => StepSparesTemp(start, s, i, l, s', j, inode);
    case _ =>
  }

  lemma StepInv(start: System, s: System, i: nat, l: Label, s': System)
    requires Inv(start, s) && Step(s, i, l, s')
    ensures Inv(start, s') && Grows(s, s') && |s'.publishers| == |s.publishers|
  {
    hide Inv, DirectoryInv, PublisherInv, Grows;
    StepDirectory(start, s, i, l, s');
    StepGrows(start, s, i, l, s');
    assert |s'.publishers| == |s.publishers|;
    forall j | 0 <= j < |s'.publishers| ensures PublisherInv(s', j) {
      if j == i {
        StepOwn(start, s, i, l, s');
      } else {
        StepOther(start, s, i, l, s', j);
      }
    }
    InvIs(start, s');
  }

  lemma InvIs(start: System, s: System)
    ensures Inv(start, s) <==> DirectoryInv(start, s) && forall i :: 0 <= i < |s.publishers| ==> PublisherInv(s, i)
  {
  }

  // ---- every run ----

  lemma InitInv(s: System)
    requires Init(s)
    ensures Inv(s, s)
  {
  }

  lemma {:induction false} RunInv(states: seq<System>, k: nat)
    requires Run(states) && k < |states|
    ensures Inv(states[0], states[k])
  {
    hide Inv, Step, Init, Grows;
    if k == 0 {
      InitInv(states[0]);
    } else {
      RunInv(states, k - 1);
      assert Next(states[k - 1], states[k - 1 + 1]);
      var i: nat, l: Label :| Step(states[k - 1], i, l, states[k]);
      StepInv(states[0], states[k - 1], i, l, states[k]);
    }
  }

  // An artifact, once stored, keeps its bytes for the rest of the run.
  lemma {:induction false} StoredForGood(states: seq<System>, j: nat, k: nat, path: string)
    requires Run(states) && j <= k < |states| && Stored(states[j], path)
    ensures Stored(states[k], path) && Contents(states[k], path) == Contents(states[j], path)
    decreases k
  {
    hide Inv, Step, Init, Stored, Contents;
    if j < k {
      StoredForGood(states, j, k - 1, path);
      RunInv(states, k - 1);
      assert Next(states[k - 1], states[k - 1 + 1]);
      var i: nat, l: Label :| Step(states[k - 1], i, l, states[k]);
      StepInv(states[0], states[k - 1], i, l, states[k]);
    }
  }

  // A target is absent, or holds its earlier artifact, or one publisher's complete payload.
  lemma NeverPartial(states: seq<System>, k: nat, path: string)
    requires Run(states) && k < |states| && Target(path) in states[k].dir
    ensures Stored(states[k], path)
    ensures if Stored(states[0], path) then Contents(states[k], path) == Contents(states[0], path)
            else exists i :: 0 <= i < |states[k].publishers| && states[k].publishers[i].path == path
                             && states[k].publishers[i].payload == Contents(states[k], path)
  {
    hide Step, Init, PublisherInv;
    RunInv(states, k);
    assert Legitimate(states[0], states[k], path);
    if Stored(states[0], path) {
      StoredForGood(states, 0, k, path);
    }
  }

  // A publisher that returned finds its own bytes stored, then and at any later time;
  // one that reported a conflict finds different bytes.
  lemma OutcomeIsTrue(states: seq<System>, j: nat, k: nat, i: nat)
    requires Run(states) && j <= k < |states| && i < |states[j].publishers|
    ensures var p := states[j].publishers[i];
            && (p.pc == Finished(Returned) ==> Stored(states[k], p.path) && Contents(states[k], p.path) == p.payload)
            && (p.pc == Finished(Conflict) ==> Stored(states[k], p.path) && Contents(states[k], p.path) != p.payload)
  {
    hide Step, Init, DirectoryInv, Stored, Contents;
    RunInv(states, j);
    assert PublisherInv(states[j], i);
    var p := states[j].publishers[i];
    if p.pc == Finished(Returned) || p.pc == Finished(Conflict) {
      StoredForGood(states, j, k, p.path);
    }
  }

  // Two publishers of one target never both return with different payloads.
  lemma ReturnsAgree(states: seq<System>, k: nat, a: nat, b: nat)
    requires Run(states) && k < |states| && a < |states[k].publishers| && b < |states[k].publishers|
    requires states[k].publishers[a].path == states[k].publishers[b].path
    requires states[k].publishers[a].pc == Finished(Returned) && states[k].publishers[b].pc == Finished(Returned)
    ensures states[k].publishers[a].payload == states[k].publishers[b].payload
  {
    hide Run, Stored, Contents;
    OutcomeIsTrue(states, k, k, a);
    OutcomeIsTrue(states, k, k, b);
  }

  // Only a crash leaves a temporary file behind.
  lemma TemporariesAreRemoved(states: seq<System>, k: nat, n: Name)
    requires Run(states) && k < |states| && n in states[k].dir
    requires forall i :: 0 <= i < |states[k].publishers| ==> states[k].publishers[i].pc.Finished?
    ensures n.Target?
  {
    hide Step, Init, Legitimate;
    RunInv(states, k);
    forall i | 0 <= i < |states[k].publishers| ensures Temp(i) !in states[k].dir {
      assert PublisherInv(states[k], i);
    }
  }

  lemma {:induction false} FreshInode(used: set<Inode>) returns (unused: Inode)
    ensures forall n :: n in used ==> n < unused
  {
    if used == {} {
      unused := 0;
    } else {
      var n :| n in used;
      var rest := FreshInode(used - {n});
      unused := if n < rest then rest else n + 1;
      assert used == used - {n} + {n};
    }
  }

  // Whatever the others have done, a publisher that has not ended can go on without failing.
  lemma NeverStuck(start: System, s: System, i: nat) returns (l: Label, s': System)
    requires Inv(start, s) && i < |s.publishers|
    requires !s.publishers[i].pc.Finished? && !s.publishers[i].pc.Crashed?
    ensures Step(s, i, l, s') && l !in {RefuseSymlink, FailToRead, FailToOpen, FailBeforeLink, Crash}
  {
    hide Legitimate;
    var p := s.publishers[i];
    assert PublisherInv(s, i);
    match p.pc
    case Checking =>
      l, s' := CheckExists, At(s, i, if Target(p.path) in s.dir then Reading else Opening);
    case Reading =>
      l, s' := ReadExisting, At(s, i, Finished(if Contents(s, p.path) == p.payload then Returned else Conflict));
    case Opening =>
      var inode := FreshInode(s.data.Keys);
      l, s' := OpenTemp(inode), At(s, i, Writing(inode, 0)).(dir := s.dir[Temp(i) := inode], data := s.data[inode := []]);
    case Writing(inode, written) =>
      if written == |p.payload| {
        l, s' := CloseTemp, At(s, i, Linking(inode));
      } else {
        l, s' := WriteChunk(|p.payload|),
                 At(s, i, Writing(inode, |p.payload|)).(data := s.data[inode := p.payload[..|p.payload|]]);
      }
    case Linking(inode) =>
      l, s' := Link, if Target(p.path) in s.dir then At(s, i, Comparing)
                     else At(s, i, Unlinking(Returned)).(dir := s.dir[Target(p.path) := inode]);
    case Comparing =>
      l, s' := CompareConflict, At(s, i, Unlinking(if Contents(s, p.path) == p.payload then Returned else Conflict));
    case Unlinking(outcome) =>
      l, s' := Unlink, At(s, i, Finished(outcome)).(dir := s.dir - {Temp(i)});
  }

  // ---- why a publisher ends as it does ----

  predicate Fails(l: Label) {
    l.RefuseSymlink? || l.FailToRead? || l.FailToOpen? || l.FailBeforeLink?
  }

  predicate HasFailed(pc: Pc) {
    pc == Unlinking(Failed) || pc == Finished(Failed)
  }

  // A publisher has failed only if one of its own steps did: an artifact that is there is a verdict, not a failure.
  lemma {:induction false} FailuresAreCaused(states: seq<System>, k: nat, i: nat)
    requires Run(states) && k < |states| && i < |states[k].publishers| && HasFailed(states[k].publishers[i].pc)
    ensures exists j, l :: 0 <= j < k && Fails(l) && Step(states[j], i, l, states[j + 1])
  {
    hide Init, HasFailed, Step;
    if k == 0 {
      NothingFailedAtFirst(states[0], i);
    } else {
      assert Next(states[k - 1], states[k - 1 + 1]);
      var a: nat, l: Label :| Step(states[k - 1], a, l, states[k]);
      StepPath(states[k - 1], a, l, states[k], i);
      if HasFailed(states[k - 1].publishers[i].pc) {
        FailuresAreCaused(states, k - 1, i);
      } else {
        StepFails(states[k - 1], a, l, states[k], i);
        assert Step(states[k - 1], i, l, states[k - 1 + 1]);
      }
    }
  }

  lemma NothingFailedAtFirst(s: System, i: nat)
    requires Init(s) && i < |s.publishers|
    ensures !HasFailed(s.publishers[i].pc)
  {
  }

  lemma StepFails(s: System, a: nat, l: Label, s': System, i: nat)
    requires Step(s, a, l, s') && i < |s.publishers|
    ensures |s'.publishers| == |s.publishers|
    ensures HasFailed(s'.publishers[i].pc) && !HasFailed(s.publishers[i].pc) ==> a == i && Fails(l)
  {
  }

  // How many more steps a publisher can take.
  function Left(p: Publisher): nat {
    match p.pc
    case Checking => |p.payload| + 7
    case Opening => |p.payload| + 6
    case Writing(_, written) => if written <= |p.payload| then |p.payload| - written + 5 else 5
    case Linking(_) => 4
    case Comparing => 3
    case Reading => 2
    case Unlinking(_) => 2
    case Finished(_) => 0
    case Crashed => 0
  }

  // Every step of a publisher brings it nearer to its end, and no step of another takes it back.
  lemma StepsRunDown(s: System, i: nat, l: Label, s': System, j: nat)
    requires Step(s, i, l, s') && j < |s.publishers|
    ensures |s'.publishers| == |s.publishers|
    ensures s.publishers[i].pc != Crashed ==> Left(s'.publishers[i]) < Left(s.publishers[i])
    ensures j != i ==> s'.publishers[j] == s.publishers[j]
  {
  }

  predicate OnlyReads(pc: Pc) {
    pc.Checking? || pc.Reading? || pc.Crashed? || pc.Finished?
  }

  // What is stored from the start is only ever read: no publisher of it writes a temporary file.
  lemma {:induction false} StoredIsOnlyRead(states: seq<System>, k: nat, i: nat)
    requires Run(states) && k < |states| && i < |states[k].publishers|
    requires Stored(states[0], states[k].publishers[i].path)
    ensures OnlyReads(states[k].publishers[i].pc)
  {
    hide Step, Stored;
    if k > 0 {
      assert Next(states[k - 1], states[k - 1 + 1]);
      var a: nat, l: Label :| Step(states[k - 1], a, l, states[k]);
      StepPath(states[k - 1], a, l, states[k], i);
      StoredIsOnlyRead(states, k - 1, i);
      StoredForGood(states, 0, k - 1, states[k].publishers[i].path);
      StepReads(states[k - 1], a, l, states[k], i);
    }
  }

  lemma StepReads(s: System, a: nat, l: Label, s': System, i: nat)
    requires Step(s, a, l, s') && i < |s.publishers| && OnlyReads(s.publishers[i].pc) && Stored(s, s.publishers[i].path)
    ensures i < |s'.publishers| && OnlyReads(s'.publishers[i].pc)
  {
  }

  lemma StepPath(s: System, a: nat, l: Label, s': System, i: nat)
    requires Step(s, a, l, s') && i < |s'.publishers|
    ensures |s'.publishers| == |s.publishers| && s'.publishers[i].path == s.publishers[i].path
  {
  }

  // ---- refinement of an atomic write-once store ----

  function Artifacts(s: System): map<string, Bytes> {
    map n | n in s.dir && n.Target? && s.dir[n] in s.data :: n.path := s.data[s.dir[n]]
  }

  // The sequential meaning of one publication.
  function Publish<T(==)>(files: map<string, T>, path: string, payload: T): (map<string, T>, Outcome) {
    if path !in files then (files[path := payload], Returned)
    else (files, if files[path] == payload then Returned else Conflict)
  }

  lemma ArtifactsAre(s: System, path: string)
    ensures path in Artifacts(s) <==> Stored(s, path)
    ensures Stored(s, path) ==> Artifacts(s)[path] == Contents(s, path)
  {
    if Stored(s, path) {
      assert Target(path) in s.dir;
    }
  }

  lemma StepStores(start: System, s: System, i: nat, l: Label, s': System, path: string)
    requires Inv(start, s) && Step(s, i, l, s')
    ensures Stored(s', path) <==> Stored(s, path) || (l.Link? && path == s.publishers[i].path)
    ensures Stored(s, path) ==> Contents(s', path) == Contents(s, path)
    ensures Stored(s', path) && !Stored(s, path) ==> Contents(s', path) == s.publishers[i].payload
  {
    hide Legitimate;
    assert PublisherInv(s, i);
    StepGrows(start, s, i, l, s');
  }

  // Each step is invisible, or is the whole sequential publication of one publisher.
  lemma StepRefinesPublish(start: System, s: System, i: nat, l: Label, s': System)
    requires Inv(start, s) && Step(s, i, l, s')
    ensures i < |s.publishers|
    ensures Artifacts(s') == if l.Link? then Publish(Artifacts(s), s.publishers[i].path, s.publishers[i].payload).0
                             else Artifacts(s)
  {
    hide Step, Inv, Stored, Contents, Artifacts;
    assert i < |s.publishers| by {
      StepActor(s, i, l, s');
    }
    forall path
      ensures path in Artifacts(s') <==> path in Artifacts(s) || (l.Link? && path == s.publishers[i].path)
      ensures path in Artifacts(s) ==> path in Artifacts(s') && Artifacts(s')[path] == Artifacts(s)[path]
      ensures path in Artifacts(s') && path !in Artifacts(s) ==> Artifacts(s')[path] == s.publishers[i].payload
    {
      StepStores(start, s, i, l, s', path);
      ArtifactsAre(s, path);
      ArtifactsAre(s', path);
    }
  }

  lemma StepActor(s: System, i: nat, l: Label, s': System)
    requires Step(s, i, l, s')
    ensures i < |s.publishers|
  {
  }

  // A finished publisher's verdict is the sequential one: publishing the same bytes again
  // would report the same and change nothing.
  lemma VerdictIsSequential(states: seq<System>, k: nat, i: nat)
    requires Run(states) && k < |states| && i < |states[k].publishers|
    requires states[k].publishers[i].pc == Finished(Returned) || states[k].publishers[i].pc == Finished(Conflict)
    ensures var p := states[k].publishers[i];
            Publish(Artifacts(states[k]), p.path, p.payload) == (Artifacts(states[k]), p.pc.outcome)
  {
    hide Run, Artifacts;
    OutcomeIsTrue(states, k, k, i);
    ArtifactsAre(states[k], states[k].publishers[i].path);
  }
}
