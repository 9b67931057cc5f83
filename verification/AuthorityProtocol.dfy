// The four commands over the publication protocol itself: each artifact is published by a publisher that
// takes its steps among those of all others, and may fail or crash between any two of them.
module AuthorityProtocol {
  import opened Wrappers
  import opened AuthorityDocuments
  import opened AuthorityChain
  import Publication

  // How documents are written as bytes and read back.
  datatype Codec = Codec(encode: Document -> Publication.Bytes, decode: Publication.Bytes -> Document)

  ghost predicate Faithful(codec: Codec) {
    forall d: Document :: codec.decode(codec.encode(d)) == d
  }

  // A command in progress: what it has still to publish, and the publisher at work on the first of these.
  datatype Task = Task(command: Command, pending: seq<Artifact>, publisher: Option<nat>)

  datatype Protocol = Protocol(store: Publication.System, tasks: seq<Task>)

  datatype Move =
    | Read(command: Command)
    | Open(task: nat)
    | Work(task: nat, l: Publication.Label)
    | Return(task: nat)
    | Abandon(task: nat)

  // The documents that a reader finds under the targets.
  function Documents(codec: Codec, store: Publication.System): Files {
    var artifacts := Publication.Artifacts(store);
    map path | path in artifacts :: codec.decode(artifacts[path])
  }

  function PublisherOf(codec: Codec, a: Artifact): Publication.Publisher {
    Publication.Publisher(a.path, codec.encode(a.document), Publication.Checking)
  }

  predicate Working(s: Protocol, i: nat) {
    && i < |s.tasks| && s.tasks[i].publisher.Some? && s.tasks[i].publisher.value < |s.store.publishers|
    && s.tasks[i].pending != []
  }

  ghost predicate Takes(w: World, codec: Codec, s: Protocol, move: Move, s': Protocol) {
    match move
    case Read(command) =>
      s' == s.(tasks := s.tasks + [Task(command, PlanOf(w, Documents(codec, s.store), command).publications, None)])
    case Open(i) =>
      && i < |s.tasks| && s.tasks[i].pending != [] && s.tasks[i].publisher.None?
      && s' == Protocol(s.store.(publishers := s.store.publishers + [PublisherOf(codec, s.tasks[i].pending[0])]),
                        s.tasks[i := s.tasks[i].(publisher := Some(|s.store.publishers|))])
    case Work(i, l) =>
      Working(s, i) && s'.tasks == s.tasks && Publication.Step(s.store, s.tasks[i].publisher.value, l, s'.store)
    case Return(i) =>
      && Working(s, i) && s.store.publishers[s.tasks[i].publisher.value].pc == Publication.Finished(Publication.Returned)
      && s' == s.(tasks := s.tasks[i := s.tasks[i].(pending := s.tasks[i].pending[1..], publisher := None)])
    case Abandon(i) =>
      && Working(s, i)
      && s.store.publishers[s.tasks[i].publisher.value].pc
         in {Publication.Finished(Publication.Conflict), Publication.Finished(Publication.Failed), Publication.Crashed}
      && s' == s.(tasks := s.tasks[i := s.tasks[i].(pending := [], publisher := None)])
  }

  ghost predicate Begins(codec: Codec, s: Protocol) {
    && Publication.Init(s.store) && s.store.publishers == [] && s.tasks == []
    && forall p :: p in Documents(codec, s.store) ==> IsInput(Documents(codec, s.store)[p])
  }

  ghost predicate Follows(w: World, codec: Codec, s: Protocol, s': Protocol) {
    exists move: Move :: Takes(w, codec, s, move, s')
  }

  ghost predicate Execution(w: World, codec: Codec, states: seq<Protocol>) {
    && states != [] && Begins(codec, states[0])
    && forall k :: 0 <= k < |states| - 1 ==> Follows(w, codec, states[k], states[k + 1])
  }

  // ---- the invariant ----

  // Seen from the commands: the documents, and what each has still to publish.
  function Abstract(codec: Codec, s: Protocol): State {
    State(Documents(codec, s.store),
          seq(|s.tasks|, i requires 0 <= i < |s.tasks| => Job(s.tasks[i].command, s.tasks[i].pending)))
  }

  // The documents back each other, what commands still have to publish, and what a publisher may yet link.
  ghost predicate Backed(w: World, codec: Codec, init: Files, files: Files, tasks: seq<Task>,
                         publishers: seq<Publication.Publisher>) {
    && FilesHonest(w, init, files)
    && (forall i :: 0 <= i < |tasks| ==> PlanHonest(w, init, files, tasks[i].pending))
    && (forall p :: 0 <= p < |publishers| ==> Honest(w, init, files, [], codec.decode(publishers[p].payload)))
  }

  // A publisher at work for a command works on the first document that it still has to publish.
  ghost predicate Matching(codec: Codec, tasks: seq<Task>, publishers: seq<Publication.Publisher>) {
    forall i :: 0 <= i < |tasks| && tasks[i].publisher.Some? ==>
      && tasks[i].publisher.value < |publishers| && tasks[i].pending != []
      && publishers[tasks[i].publisher.value].path == tasks[i].pending[0].path
      && publishers[tasks[i].publisher.value].payload == codec.encode(tasks[i].pending[0].document)
  }

  ghost predicate ProtocolInv(w: World, codec: Codec, start: Protocol, s: Protocol) {
    && Publication.Inv(start.store, s.store)
    && Backed(w, codec, Documents(codec, start.store), Documents(codec, s.store), s.tasks, s.store.publishers)
    && Matching(codec, s.tasks, s.store.publishers)
  }

  lemma BackedIsInv(w: World, codec: Codec, start: Protocol, s: Protocol)
    requires ProtocolInv(w, codec, start, s)
    ensures Inv(w, Documents(codec, start.store), Abstract(codec, s))
  {
    hide Honest, PlanHonest, FilesHonest, Documents, Publication.Inv;
  }

  lemma InputsBacked(w: World, codec: Codec, files: Files)
    requires forall p :: p in files ==> IsInput(files[p])
    ensures Backed(w, codec, files, files, [], [])
  {
    hide Honest, IsInput;
    InputsAreHonest(w, State(files, []));
  }

  lemma BeginsInv(w: World, codec: Codec, s: Protocol)
    requires Begins(codec, s)
    ensures ProtocolInv(w, codec, s, s)
  {
    hide Documents, IsInput, Backed, Publication.Inv, Publication.Init;
    Publication.InitInv(s.store);
    InputsBacked(w, codec, Documents(codec, s.store));
  }

  // ---- one move ----

  lemma ReadInv(w: World, codec: Codec, start: Protocol, s: Protocol, move: Move, s': Protocol)
    requires ProtocolInv(w, codec, start, s) && Takes(w, codec, s, move, s') && move.Read?
    ensures ProtocolInv(w, codec, start, s')
  {
    hide Honest, PlanHonest, FilesHonest, PlanOf, Documents, Publication.Inv;
    PlansAreHonest(w, Documents(codec, start.store), Documents(codec, s.store), move.command);
  }

  // A publisher that has not begun changes nothing.
  lemma OpenedStore(start: Publication.System, s: Publication.System, p: Publication.Publisher)
    requires Publication.Inv(start, s) && p.pc == Publication.Checking
    ensures Publication.Inv(start, s.(publishers := s.publishers + [p]))
    ensures Publication.Artifacts(s.(publishers := s.publishers + [p])) == Publication.Artifacts(s)
  {
    var s' := s.(publishers := s.publishers + [p]);
    forall path | Publication.Stored(s', path) ensures Publication.Legitimate(start, s', path) {
      assert Publication.Stored(s, path) && Publication.Legitimate(start, s, path);
      if i :| 0 <= i < |s.publishers| && s.publishers[i].path == path && s.publishers[i].payload == Publication.Contents(s, path) {
        assert s'.publishers[i] == s.publishers[i];
      }
    }
    forall i | 0 <= i < |s'.publishers| ensures Publication.PublisherInv(s', i) {
      if i < |s.publishers| {
        assert Publication.PublisherInv(s, i);
      }
    }
  }

  lemma OpenInv(w: World, codec: Codec, start: Protocol, s: Protocol, move: Move, s': Protocol)
    requires Faithful(codec) && ProtocolInv(w, codec, start, s) && Takes(w, codec, s, move, s') && move.Open?
    ensures ProtocolInv(w, codec, start, s')
  {
    hide Honest, PlanHonest, FilesHonest, Publication.Inv, Publication.Artifacts;
    var first := s.tasks[move.task].pending[0];
    OpenedStore(start.store, s.store, PublisherOf(codec, first));
    FirstIsHonest(w, Documents(codec, start.store), Documents(codec, s.store), s.tasks[move.task].pending);
    assert codec.decode(codec.encode(first.document)) == first.document;
    assert Documents(codec, s'.store) == Documents(codec, s.store);
  }

  // A step of a publisher links at most one document, its own.
  lemma WorkGrows(codec: Codec, start: Publication.System, s: Publication.System, p: nat, l: Publication.Label,
                  s': Publication.System)
    requires Publication.Inv(start, s) && Publication.Step(s, p, l, s')
    ensures p < |s.publishers| && Grows(Documents(codec, s), Documents(codec, s'))
    ensures forall path :: path in Documents(codec, s') && path !in Documents(codec, s) ==>
              path == s.publishers[p].path && Documents(codec, s')[path] == codec.decode(s.publishers[p].payload)
  {
    hide Publication.Inv, Publication.Artifacts, Publication.Step;
    Publication.StepRefinesPublish(start, s, p, l, s');
  }

  lemma PublishersStay(s: Publication.System, i: nat, l: Publication.Label, s': Publication.System)
    requires Publication.Step(s, i, l, s')
    ensures |s'.publishers| == |s.publishers|
    ensures forall j :: 0 <= j < |s.publishers| ==>
              s'.publishers[j].path == s.publishers[j].path && s'.publishers[j].payload == s.publishers[j].payload
  {
  }

  lemma BackedGrows(w: World, codec: Codec, init: Files, before: Files, after: Files, tasks: seq<Task>,
                    publishers: seq<Publication.Publisher>, later: seq<Publication.Publisher>, p: nat)
    requires Backed(w, codec, init, before, tasks, publishers) && Grows(before, after) && p < |publishers|
    requires forall path :: path in after && path !in before ==>
               path == publishers[p].path && after[path] == codec.decode(publishers[p].payload)
    requires |later| == |publishers| && forall j :: 0 <= j < |later| ==> later[j].payload == publishers[j].payload
    ensures Backed(w, codec, init, after, tasks, later)
  {
    hide Honest, PlanHonest, FilesHonest, Grows;
    FilesStayHonest(w, init, before, after, publishers[p].path, codec.decode(publishers[p].payload));
    forall j | 0 <= j < |tasks| ensures PlanHonest(w, init, after, tasks[j].pending) {
      PlanGrows(w, init, before, after, tasks[j].pending);
    }
    forall j | 0 <= j < |later| ensures Honest(w, init, after, [], codec.decode(later[j].payload)) {
      HonestStays(w, init, before, after, codec.decode(publishers[j].payload));
    }
  }

  lemma HonestStays(w: World, init: Files, before: Files, after: Files, d: Document)
    requires Grows(before, after) && Honest(w, init, before, [], d)
    ensures Honest(w, init, after, [], d)
  {
    hide Honest;
    HonestGrows(w, init, before, [], after, [], d);
  }

  lemma WorkInv(w: World, codec: Codec, start: Protocol, s: Protocol, move: Move, s': Protocol)
    requires ProtocolInv(w, codec, start, s) && Takes(w, codec, s, move, s') && move.Work?
    ensures ProtocolInv(w, codec, start, s')
  {
    hide Backed, Publication.Inv, Publication.Step, Documents;
    var p := s.tasks[move.task].publisher.value;
    Publication.StepInv(start.store, s.store, p, move.l, s'.store);
    PublishersStay(s.store, p, move.l, s'.store);
    WorkGrows(codec, start.store, s.store, p, move.l, s'.store);
    BackedGrows(w, codec, Documents(codec, start.store), Documents(codec, s.store), Documents(codec, s'.store),
                s.tasks, s.store.publishers, s'.store.publishers, p);
  }

  // What a publisher that returned was to publish is in the store.
  lemma ReturnedIsStored(codec: Codec, start: Publication.System, s: Publication.System, p: nat, a: Artifact)
    requires Faithful(codec) && Publication.Inv(start, s) && p < |s.publishers|
    requires s.publishers[p].pc == Publication.Finished(Publication.Returned)
    requires s.publishers[p].path == a.path && s.publishers[p].payload == codec.encode(a.document)
    ensures a.path in Documents(codec, s) && Documents(codec, s)[a.path] == a.document
  {
    assert Publication.PublisherInv(s, p);
    Publication.ArtifactsAre(s, a.path);
    assert codec.decode(codec.encode(a.document)) == a.document;
  }

  lemma EndInv(w: World, codec: Codec, start: Protocol, s: Protocol, move: Move, s': Protocol)
    requires Faithful(codec) && ProtocolInv(w, codec, start, s) && Takes(w, codec, s, move, s')
    requires move.Return? || move.Abandon?
    ensures ProtocolInv(w, codec, start, s')
  {
    hide Honest, PlanHonest, FilesHonest, Publication.Inv, Documents;
    var init, files, pending := Documents(codec, start.store), Documents(codec, s.store), s.tasks[move.task].pending;
    if move.Return? {
      ReturnedIsStored(codec, start.store, s.store, s.tasks[move.task].publisher.value, pending[0]);
      PlanAdvances(w, init, files, files, pending);
    } else {
      NothingPending(w, init, files);
    }
  }

  lemma MoveInv(w: World, codec: Codec, start: Protocol, s: Protocol, move: Move, s': Protocol)
    requires Faithful(codec) && ProtocolInv(w, codec, start, s) && Takes(w, codec, s, move, s')
    ensures ProtocolInv(w, codec, start, s')
  {
    hide ProtocolInv, Takes, Faithful;
    match move
    case Read(_) => ReadInv(w, codec, start, s, move, s');
    case Open(_) => OpenInv(w, codec, start, s, move, s');
    case Work(_, _) => WorkInv(w, codec, start, s, move, s');
    case Return(_) => EndInv(w, codec, start, s, move, s');
    case Abandon(_) => EndInv(w, codec, start, s, move, s');
  }

  // Every execution of the commands over the publication protocol, crashes included, keeps every stored
  // document backed by the others, and every document that is still to be published.
  lemma {:induction false} ExecutionInv(w: World, codec: Codec, states: seq<Protocol>, k: nat)
    requires Faithful(codec) && Execution(w, codec, states) && k < |states|
    ensures ProtocolInv(w, codec, states[0], states[k])
    ensures Inv(w, Documents(codec, states[0].store), Abstract(codec, states[k]))
  {
    hide Faithful, Takes, Begins, Inv, Documents, Abstract, ProtocolInv;
    if k == 0 {
      BeginsInv(w, codec, states[0]);
    } else {
      ExecutionInv(w, codec, states, k - 1);
      assert Follows(w, codec, states[k - 1], states[k - 1 + 1]);
      var move: Move :| Takes(w, codec, states[k - 1], move, states[k]);
      MoveInv(w, codec, states[0], states[k - 1], move, states[k]);
    }
    BackedIsInv(w, codec, states[0], states[k]);
  }

  // So a frozen config found at any moment, while commands are half-way or after they crashed, has its chain.
  lemma FrozenHasChainAtAnyMoment(w: World, codec: Codec, states: seq<Protocol>, k: nat, path: Path)
    returns (c: Chain, a: Approved)
    requires Faithful(codec) && Execution(w, codec, states) && k < |states|
    requires var files := Documents(codec, states[k].store);
             path in files && files[path].ConfigDoc? && files[path].config.contextSha != UNRESOLVED
    ensures var files := Documents(codec, states[k].store); ChainBehind(w, files, files[path].config, c, a)
  {
    hide Faithful, Execution, FilesHonest, ChainBehind, Documents, ProtocolInv;
    ExecutionInv(w, codec, states, k);
    c, a := HonestHasChain(w, Documents(codec, states[0].store), Documents(codec, states[k].store), path);
  }
}
