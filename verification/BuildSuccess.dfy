/** When a build succeeds, told on the input files. */
module BuildSuccess {
  import opened Wrappers
  import opened Graphs
  import opened WorkflowDag
  import opened Manifests
  import opened Releases
  import opened ReleaseBuilder
  import opened BuildSources

  // ----- when a build succeeds

  ghost predicate RootOk(f: Files, root: Root) {
    match root
    case AgentRoot(source) => true
    case WorkflowRoot(raw, dir) => WorkflowOk(raw) && AllNamed(f, dir, StepRefs(raw.steps))
  }

  ghost predicate FilesOk(f: Files, root: Root) {
    forall s {:trigger Reached(f, root, s)} :: Reached(f, root, s) ==>
      && SourceOk(f, s)
      && AllNamed(f, s.dir, AgentRefs(s.raw.value))
  }

  ghost predicate OneDigest(f: Files, root: Root) {
    forall s, t, id {:trigger ReachedAs(f, root, s, id), ReachedAs(f, root, t, id)} ::
      ReachedAs(f, root, s, id) && ReachedAs(f, root, t, id) ==>
        f.checks.hash(AgentArtifact(s.raw.value)) == f.checks.hash(AgentArtifact(t.raw.value))
  }

  ghost predicate NoneTwice(f: Files, root: Root) {
    forall cs {:trigger IsChain(f, root, cs)} :: IsChain(f, root, cs) ==> DistinctIdentities(cs)
  }

  ghost predicate DistinctIdentities(cs: seq<Source>) {
    forall i, j :: 0 <= i < j < |cs| && cs[i].raw.Some? && cs[j].raw.Some? ==>
                     cs[i].raw.value.identity.id != cs[j].raw.value.identity.id
  }

  ghost predicate FewIdentities(f: Files, root: Root) {
    forall ids: set<Id> :: (forall id :: id in ids ==> exists s :: ReachedAs(f, root, s, id)) ==> |ids| <= 256
  }

  ghost predicate Good(f: Files, root: Root) {
    RootOk(f, root) && FilesOk(f, root) && OneDigest(f, root) && NoneTwice(f, root) && FewIdentities(f, root)
  }

  /** At most 64 references in a row. */
  ghost predicate WithinDepth(f: Files, root: Root) {
    forall cs :: IsChain(f, root, cs) ==> Depth(root, cs) <= 64
  }

  /** The number of references followed to the end of the chain. */
  function Depth(root: Root, cs: seq<Source>): int {
    if root.AgentRoot? then |cs| - 1 else |cs|
  }

  // ----- every refusal has its reason in the files

  /** The recorded digests are those of files reached under these identities. */
  ghost predicate Known(f: Files, root: Root, sources: map<Id, Digest>) {
    forall id {:trigger sources[id]} :: id in sources ==> Recorded(f, root, id, sources[id])
  }

  ghost predicate Recorded(f: Files, root: Root, id: Id, digest: Digest) {
    exists s :: ReachedAs(f, root, s, id) && f.checks.hash(AgentArtifact(s.raw.value)) == digest
  }

  /** A reference of the workflow, or of a file reached, with the directory it is looked up in. */
  ghost predicate Met(f: Files, root: Root, dir: Dir, ref: Ref) {
    || (root.WorkflowRoot? && dir == root.dir && ref in StepRefs(root.raw.steps))
    || exists s :: Reached(f, root, s) && s.raw.Some? && dir == s.dir && ref in AgentRefs(s.raw.value)
  }

  ghost predicate MetFinding(f: Files, root: Root, dir: Dir, ref: Ref, s: Source) {
    Met(f, root, dir, ref) && Finds(f, dir, ref.agentId, s) && s.raw.Some?
  }

  ghost predicate Repeats(f: Files, root: Root, cs: seq<Source>, id: Id) {
    && IsChain(f, root, cs) && cs[|cs| - 1].raw.Some? && cs[|cs| - 1].raw.value.identity.id == id
    && id in Identities(cs[..|cs| - 1])
  }

  /** What each error says of the input. */
  ghost predicate Justified(f: Files, root: Root, e: BuildError) {
    match e
    case DepthExceeded => exists cs :: IsChain(f, root, cs) && Depth(root, cs) > 64
    case Unreadable => exists s :: Reached(f, root, s) && s.raw.None?
    case BadManifest => exists s :: Reached(f, root, s) && s.raw.Some? && !ManifestOk(f.checks, s.raw.value)
    case Unsupported => exists s :: Reached(f, root, s) && s.raw.Some? && !ProductionOk(f.checks, s.raw.value)
    case InvalidIdentifier(id) => !IsIdentifier(id) && exists dir, ref :: Met(f, root, dir, ref) && ref.agentId == id
    case WrongIdentity(id, other) =>
      && id != other
      && exists dir, ref, s :: MetFinding(f, root, dir, ref, s) && ref.agentId == id && s.raw.value.identity.id == other
    case SourceCycle(id) => exists cs :: Repeats(f, root, cs, id)
    case ConflictingSources(id) =>
      exists s, t :: ReachedAs(f, root, s, id) && ReachedAs(f, root, t, id)
                     && Digests(f, s.raw.value) != Digests(f, t.raw.value)
    case TooManyAgents =>
      exists ids: set<Id> :: |ids| > 256 && forall id :: id in ids ==> exists s :: ReachedAs(f, root, s, id)
    case NotFound(id) =>
      exists dir, ref :: Met(f, root, dir, ref) && ref.agentId == id && forall s :: !Finds(f, dir, id, s)
    case SourcePinMismatch(id) =>
      exists dir, ref, s :: MetFinding(f, root, dir, ref, s) && ref.agentId == id
                            && ref.pin.Some? && ref.pin.value != Digests(f, s.raw.value)
    case InvalidWorkflow => root.WorkflowRoot? && !WorkflowOk(root.raw)
    case Rejected(_) => false
  }

  /** The identities of the files of a chain. */
  ghost function Identities(cs: seq<Source>): set<Id> {
    set s | s in cs && s.raw.Some? :: s.raw.value.identity.id
  }

  lemma OneMore(cs: seq<Source>)
    requires |cs| > 0 && cs[|cs| - 1].raw.Some?
    ensures Identities(cs) == Identities(cs[..|cs| - 1]) + {cs[|cs| - 1].raw.value.identity.id}
  {
    var last, front := cs[|cs| - 1], cs[..|cs| - 1];
    assert cs == front + [last];
    assert forall s :: s in cs <==> s == last || s in front;
  }

  lemma MarkKnown(f: Files, root: Root, st: Build, s: Source)
    requires Known(f, root, st.sources) && Reached(f, root, s) && s.raw.Some?
    ensures Known(f, root, Mark(f, st, s.raw.value).sources)
  {
    hide Reached;
    var raw, sources := s.raw.value, Mark(f, st, s.raw.value).sources;
    assert ReachedAs(f, root, s, raw.identity.id);
    forall id | id in sources ensures Recorded(f, root, id, sources[id]) {
      if id != raw.identity.id {
        assert st.sources[id] == sources[id];
      }
    }
  }

  lemma ConflictIsReal(f: Files, root: Root, st: Build, s: Source)
    requires Known(f, root, st.sources) && Reached(f, root, s) && s.raw.Some?
    requires var id := s.raw.value.identity.id; id in st.sources && st.sources[id] != Digests(f, s.raw.value)
    ensures Justified(f, root, ConflictingSources(s.raw.value.identity.id))
  {
    hide Reached;
    var id := s.raw.value.identity.id;
    assert Recorded(f, root, id, st.sources[id]);
    var t :| ReachedAs(f, root, t, id) && f.checks.hash(AgentArtifact(t.raw.value)) == st.sources[id];
    assert ReachedAs(f, root, s, id);
  }

  lemma ManyAreReal(f: Files, root: Root, sources: map<Id, Digest>)
    requires Known(f, root, sources) && |sources| > MAX_AGENTS
    ensures Justified(f, root, TooManyAgents)
  {
    hide ReachedAs;
    forall id | id in sources.Keys ensures exists s :: ReachedAs(f, root, s, id) {
      assert Recorded(f, root, id, sources[id]);
    }
    assert |sources.Keys| > 256;
  }

  /** The reference, if any, that led to the file. */
  ghost predicate ExpectedBy(f: Files, root: Root, expected: Option<Id>, s: Source) {
    expected.Some? ==> exists dir, ref :: Met(f, root, dir, ref) && ref.agentId == expected.value
                                          && Finds(f, dir, ref.agentId, s)
  }

  lemma EnterJustified(f: Files, root: Root, cs: seq<Source>, expected: Option<Id>, depth: nat, st: Build)
    requires |cs| > 0 && IsChain(f, root, cs) && Depth(root, cs) == depth && Known(f, root, st.sources)
    requires ExpectedBy(f, root, expected, cs[|cs| - 1])
    ensures var error := Enter(f, cs[|cs| - 1], expected, depth, Identities(cs[..|cs| - 1]), st);
            error.Some? ==> Justified(f, root, error.value)
  {
    hide IsChain, Identities, Known, Met, Finds, ManifestOk, ProductionOk;
    var s := cs[|cs| - 1];
    assert Reached(f, root, s);
    var error := Enter(f, s, expected, depth, Identities(cs[..|cs| - 1]), st);
    if error.Some? {
      match error.value
      case WrongIdentity(id, other) =>
        var dir, ref :| Met(f, root, dir, ref) && ref.agentId == expected.value && Finds(f, dir, ref.agentId, s);
        assert MetFinding(f, root, dir, ref, s);
      case SourceCycle(id) => assert Repeats(f, root, cs, id);
      case ConflictingSources(id) => ConflictIsReal(f, root, st, s);
      case TooManyAgents =>
        MarkKnown(f, root, st, s);
        ManyAreReal(f, root, Mark(f, st, s.raw.value).sources);
      case InvalidIdentifier(id) => ValidIsNamed(f, s.raw.value);
      case _ =>
    }
  }

  lemma ValidIsNamed(f: Files, m: AgentManifest)
    requires ManifestOk(f.checks, m)
    ensures IsIdentifier(m.identity.id)
  {
  }

  /** What a visit that ends leaves on record, or that its error is justified. */
  ghost predicate Accounted(f: Files, root: Root, before: map<Id, Digest>, sources: map<Id, Digest>) {
    Known(f, root, sources) && SubSources(before, sources)
  }

  lemma {:induction false} VisitJustified(f: Files, root: Root, cs: seq<Source>, expected: Option<Id>, depth: nat,
                                          st: Build)
    requires |cs| > 0 && IsChain(f, root, cs) && Depth(root, cs) == depth <= 65 && Known(f, root, st.sources)
    requires ExpectedBy(f, root, expected, cs[|cs| - 1])
    ensures var s, out := cs[|cs| - 1], Visit(f, cs[|cs| - 1], expected, depth, Identities(cs[..|cs| - 1]), st);
            && (out.Ok? ==> Accounted(f, root, st.sources, out.value.1.sources) && s.raw.Some?
                            && s.raw.value.identity.id in out.value.1.sources
                            && out.value.1.sources[s.raw.value.identity.id] == Digests(f, s.raw.value))
            && (out.Err? ==> Justified(f, root, out.error))
    decreases MAX_DEPTH + 1 - depth, 1, 0
  {
    hide Identities, Known, IsChain, PinRefs, Enter, Justified, ExpectedBy, ManifestOk, ProductionOk, Reached;
    var s, active := cs[|cs| - 1], Identities(cs[..|cs| - 1]);
    EnterJustified(f, root, cs, expected, depth, st);
    if Enter(f, s, expected, depth, active, st).None? {
      var raw := s.raw.value;
      EndReached(f, root, cs);
      MarkKnown(f, root, st, s);
      MarkKeeps(f, st, raw);
      if raw.identity.id !in st.agents {
        OneMore(cs);
        EndLeadsOn(f, root, cs);
        RefsJustified(f, root, cs, AgentRefs(raw), s.dir, depth, Mark(f, st, raw));
      }
    }
  }

  lemma EndReached(f: Files, root: Root, cs: seq<Source>)
    requires |cs| > 0 && IsChain(f, root, cs)
    ensures Reached(f, root, cs[|cs| - 1])
  {
  }

  /** Every file the references find continues the chain. */
  ghost predicate LeadsOn(f: Files, root: Root, cs: seq<Source>, refs: seq<Ref>, dir: Dir) {
    && (forall ref :: ref in refs ==> Met(f, root, dir, ref))
    && forall ref, t :: ref in refs && Finds(f, dir, ref.agentId, t) ==> IsChain(f, root, cs + [t])
  }

  lemma EndLeadsOn(f: Files, root: Root, cs: seq<Source>)
    requires |cs| > 0 && IsChain(f, root, cs) && cs[|cs| - 1].raw.Some?
    ensures LeadsOn(f, root, cs, AgentRefs(cs[|cs| - 1].raw.value), cs[|cs| - 1].dir)
  {
    hide Finds, IsChain, AgentRefs;
    var s := cs[|cs| - 1];
    assert Reached(f, root, s);
    forall ref, t | ref in AgentRefs(s.raw.value) && Finds(f, s.dir, ref.agentId, t)
      ensures IsChain(f, root, cs + [t])
    {
      assert LinksTo(f, s, t);
      ChainGrows(f, root, cs, t);
    }
  }

  lemma {:induction false} RefsJustified(f: Files, root: Root, cs: seq<Source>, refs: seq<Ref>, dir: Dir, depth: nat,
                                         st: Build)
    requires Known(f, root, st.sources) && depth <= 64 && LeadsOn(f, root, cs, refs, dir)
    requires if root.AgentRoot? then |cs| == depth + 1 else |cs| == depth
    ensures var out := PinRefs(f, refs, dir, depth, Identities(cs), st);
            && (out.Ok? ==> Accounted(f, root, st.sources, out.value.1.sources))
            && (out.Err? ==> Justified(f, root, out.error))
    decreases MAX_DEPTH + 1 - depth, 0, |refs|
  {
    hide Identities, Known, IsChain, Visit, Justified, Met, ExpectedBy, LeadsOn, Finds;
    if refs != [] {
      FirstRef(f, root, cs, refs, dir);
      var id := refs[0].agentId;
      if !IsIdentifier(id) {
        assert PinRefs(f, refs, dir, depth, Identities(cs), st) == Err(InvalidIdentifier(id));
      } else if Resolve(f, dir, id).Some? {
        var s := Resolve(f, dir, id).value;
        assert (cs + [s])[|cs + [s]| - 1] == s && (cs + [s])[..|cs|] == cs;
        VisitJustified(f, root, cs + [s], Some(id), depth + 1, st);
        var out := Visit(f, s, Some(id), depth + 1, Identities(cs), st);
        if out.Ok? {
          RefsJustified(f, root, cs, refs[1..], dir, depth, out.value.1);
          PinIsWrong(f, root, refs[0], dir, s);
          SubSourcesTrans3(f, root, st, out.value.1, PinRefs(f, refs[1..], dir, depth, Identities(cs), out.value.1));
        }
      }
    }
  }

  lemma SubSourcesTrans3(f: Files, root: Root, st: Build, st1: Build, r: Result<(seq<Digest>, Build), BuildError>)
    requires SubSources(st.sources, st1.sources)
    ensures r.Ok? && Accounted(f, root, st1.sources, r.value.1.sources) ==>
              Accounted(f, root, st.sources, r.value.1.sources)
  {
  }

  lemma FirstRef(f: Files, root: Root, cs: seq<Source>, refs: seq<Ref>, dir: Dir)
    requires refs != [] && LeadsOn(f, root, cs, refs, dir)
    ensures Met(f, root, dir, refs[0]) && LeadsOn(f, root, cs, refs[1..], dir)
    ensures var id := refs[0].agentId;
            && (!IsIdentifier(id) ==> Justified(f, root, InvalidIdentifier(id)))
            && (Resolve(f, dir, id).None? ==> Justified(f, root, NotFound(id)))
            && (Resolve(f, dir, id).Some? ==>
                  && IsChain(f, root, cs + [Resolve(f, dir, id).value])
                  && ExpectedBy(f, root, Some(id), Resolve(f, dir, id).value)
                  && MetIfReadable(f, root, dir, refs[0], Resolve(f, dir, id).value))
  {
    hide IsChain, Met, IsIdentifier;
    var id := refs[0].agentId;
    assert refs[0] in refs;
    assert forall ref :: ref in refs[1..] ==> ref in refs;
    forall s ensures Finds(f, dir, id, s) <==> Resolve(f, dir, id) == Some(s) {
      FindsIff(f, dir, id, s);
    }
    hide Finds, Resolve;
    if Resolve(f, dir, id).Some? {
      assert Finds(f, dir, id, Resolve(f, dir, id).value);
    }
  }

  ghost predicate MetIfReadable(f: Files, root: Root, dir: Dir, ref: Ref, s: Source) {
    s.raw.Some? ==> MetFinding(f, root, dir, ref, s)
  }

  lemma PinIsWrong(f: Files, root: Root, ref: Ref, dir: Dir, s: Source)
    requires MetIfReadable(f, root, dir, ref, s) && s.raw.Some?
    ensures ref.pin.Some? && ref.pin.value != Digests(f, s.raw.value) ==>
              Justified(f, root, SourcePinMismatch(ref.agentId))
  {
  }

  /** Every error of a build has its reason in the input: a file or a reference reached from
      the root, or too many or too long chains of them. */
  lemma FailureMeans(f: Files, root: Root)
    requires Assemble(f, root).Err?
    ensures Justified(f, root, Assemble(f, root).error)
  {
    hide Visit, PinRefs, IsChain, Justified, Known;
    NothingKnown(f, root);
    match root
    case AgentRoot(source) =>
      FirstReached(f, root, source);
      assert Identities([source][..0]) == {};
      VisitJustified(f, root, [source], None, 0, NOTHING);
    case WorkflowRoot(raw, dir) =>
      if WorkflowOk(raw) {
        assert Identities([]) == {};
        StepsLeadOn(f, root);
        RefsJustified(f, root, [], StepRefs(raw.steps), dir, 0, NOTHING);
      } else {
        BadWorkflow(f, root);
      }
  }

  lemma BadWorkflow(f: Files, root: Root)
    requires root.WorkflowRoot? && !WorkflowOk(root.raw)
    ensures Justified(f, root, InvalidWorkflow)
  {
  }

  lemma NothingKnown(f: Files, root: Root)
    ensures Known(f, root, NOTHING.sources)
  {
  }

  lemma StepsLeadOn(f: Files, root: Root)
    requires root.WorkflowRoot?
    ensures LeadsOn(f, root, [], StepRefs(root.raw.steps), root.dir)
  {
    hide Finds;
    forall ref, t | ref in StepRefs(root.raw.steps) && Finds(f, root.dir, ref.agentId, t)
      ensures IsChain(f, root, [] + [t])
    {
      FirstReached(f, root, t);
      assert [] + [t] == [t];
    }
  }

  // ----- a good input builds

  lemma MetIsNamed(f: Files, root: Root, dir: Dir, ref: Ref)
    requires Good(f, root) && Met(f, root, dir, ref)
    ensures exists s :: Names(f, dir, ref, s)
  {
    hide Names, OneDigest, NoneTwice, FewIdentities, Reached, AgentRefs;
    if root.WorkflowRoot? && dir == root.dir && ref in StepRefs(root.raw.steps) {
    } else {
      var s :| Reached(f, root, s) && s.raw.Some? && dir == s.dir && ref in AgentRefs(s.raw.value);
    }
  }

  lemma NoRepeat(f: Files, root: Root, cs: seq<Source>, id: Id)
    requires NoneTwice(f, root)
    ensures !Repeats(f, root, cs, id)
  {
    if IsChain(f, root, cs) {
      assert DistinctIdentities(cs);
    }
  }

  lemma NamedIsRight(f: Files, dir: Dir, ref: Ref, s: Source, t: Source)
    requires Names(f, dir, ref, s)
    ensures IsIdentifier(ref.agentId) && Finds(f, dir, ref.agentId, s)
    ensures Finds(f, dir, ref.agentId, t) ==>
              && t.raw.Some? && t.raw.value.identity.id == ref.agentId
              && (ref.pin.Some? ==> ref.pin.value == Digests(f, t.raw.value))
  {
  }

  /** A reference that is met has nothing wrong with it. */
  lemma MetIsRight(f: Files, root: Root, dir: Dir, ref: Ref, t: Source)
    requires Good(f, root) && Met(f, root, dir, ref)
    ensures IsIdentifier(ref.agentId) && exists s :: Finds(f, dir, ref.agentId, s)
    ensures Finds(f, dir, ref.agentId, t) ==>
              && t.raw.Some? && t.raw.value.identity.id == ref.agentId
              && (ref.pin.Some? ==> ref.pin.value == Digests(f, t.raw.value))
  {
    hide Good, Met, Names, Finds, IsIdentifier;
    MetIsNamed(f, root, dir, ref);
    var s :| Names(f, dir, ref, s);
    NamedIsRight(f, dir, ref, s, t);
  }

  lemma NoneJustified(f: Files, root: Root, e: BuildError)
    requires Good(f, root) && WithinDepth(f, root)
    ensures !Justified(f, root, e)
  {
    hide Reached, IsChain, AllNamed, Met, ManifestOk, ProductionOk, Repeats, WorkflowOk, NoneTwice, Finds, IsIdentifier;
    forall dir, ref | Met(f, root, dir, ref)
      ensures IsIdentifier(ref.agentId) && exists s :: Finds(f, dir, ref.agentId, s)
    {
      MetIsRight(f, root, dir, ref, Source(None, dir));
    }
    forall dir, ref, t | MetFinding(f, root, dir, ref, t)
      ensures t.raw.value.identity.id == ref.agentId
      ensures ref.pin.Some? ==> ref.pin.value == Digests(f, t.raw.value)
    {
      MetIsRight(f, root, dir, ref, t);
    }
    forall cs, id ensures !Repeats(f, root, cs, id) {
      NoRepeat(f, root, cs, id);
    }
  }

  /** Every input that is in order and nowhere deeper than the limit builds. */
  lemma GoodInputsBuild(f: Files, root: Root)
    requires Good(f, root) && WithinDepth(f, root)
    ensures Assemble(f, root).Ok?
  {
    hide *;
    if Assemble(f, root).Err? {
      FailureMeans(f, root);
      NoneJustified(f, root, Assemble(f, root).error);
    }
  }

  // ----- what builds is a good input

  /** One reading per content: files of one identity and one digest are the same manifest,
      and their references find the same files. */
  ghost predicate CopiesAgree(f: Files, root: Root) {
    forall s, t, id {:trigger ReachedAs(f, root, s, id), ReachedAs(f, root, t, id)} ::
      ReachedAs(f, root, s, id) && ReachedAs(f, root, t, id) ==> Copies(f, s, t)
  }

  ghost predicate Copies(f: Files, s: Source, t: Source)
    requires s.raw.Some? && t.raw.Some?
  {
    f.checks.hash(AgentArtifact(s.raw.value)) == f.checks.hash(AgentArtifact(t.raw.value)) ==>
      && s.raw == t.raw
      && forall ref, u :: ref in AgentRefs(s.raw.value) ==>
           (Finds(f, s.dir, ref.agentId, u) <==> Finds(f, t.dir, ref.agentId, u))
  }

  /** In order, and of the digest recorded for its identity. */
  ghost predicate Seen(f: Files, st: Build, s: Source) {
    && SourceOk(f, s)
    && s.raw.value.identity.id in st.sources
    && st.sources[s.raw.value.identity.id] == f.checks.hash(AgentArtifact(s.raw.value))
  }

  ghost predicate Built(f: Files, root: Root, st: Build) {
    && CopiesAgree(f, root)
    && Books(st, {})
    && AllGrounded(f, root, st)
    && forall s :: StartsWith(f, root, s) ==> Seen(f, st, s)
  }

  lemma NamedIsSeen(f: Files, st: Build, dir: Dir, refs: seq<Ref>, ref: Ref, t: Source)
    requires RefsGrounded(f, st.sources, dir, refs) && ref in refs && Finds(f, dir, ref.agentId, t)
    ensures Seen(f, st, t) && Names(f, dir, ref, t)
  {
    var i :| 0 <= i < |refs| && refs[i] == ref;
    assert RefGrounded(f, st.sources, dir, refs[i]);
  }

  /** The copy of a seen file that the build has read. */
  lemma ReadCopy(f: Files, root: Root, st: Build, s: Source) returns (copy: Source, pins: seq<Digest>)
    requires Built(f, root, st) && Reached(f, root, s) && Seen(f, st, s)
    ensures GroundedIn(f, root, st, s.raw.value.identity.id, copy, pins) && copy.raw == s.raw
    ensures forall ref, t :: ref in AgentRefs(s.raw.value) ==>
              (Finds(f, s.dir, ref.agentId, t) <==> Finds(f, copy.dir, ref.agentId, t))
  {
    hide Reached, ManifestOk, ProductionOk, RefsGrounded, Finds, PinsOf, AgentRefs, Names;
    var id := s.raw.value.identity.id;
    assert Grounded(f, root, st, id);
    copy, pins :| GroundedIn(f, root, st, id, copy, pins);
    assert ReachedAs(f, root, s, id) && ReachedAs(f, root, copy, id);
    assert Copies(f, s, copy);
  }

  lemma LinkSeen(f: Files, root: Root, st: Build, s: Source, ref: Ref, t: Source)
    requires Built(f, root, st) && Reached(f, root, s) && Seen(f, st, s)
    requires ref in AgentRefs(s.raw.value) && Finds(f, s.dir, ref.agentId, t)
    ensures Seen(f, st, t) && Names(f, s.dir, ref, t)
    ensures Edge(RefGraph(st.agents), s.raw.value.identity.id, t.raw.value.identity.id)
  {
    hide Reached, AllGrounded, CopiesAgree, Finds, RefsGrounded;
    var copy, pins := ReadCopy(f, root, st, s);
    var refs := AgentRefs(s.raw.value);
    NamedIsSeen(f, st, copy.dir, refs, ref, t);
    LockRefs(f, s.raw.value, pins);
    var i :| 0 <= i < |refs| && refs[i] == ref;
    WithPinsAt(refs, pins);
    assert Targets(WithPins(refs, pins))[i] == ref.agentId;
  }

  /** Along a chain every file is seen, and consecutive identities are edges of the release. */
  lemma {:induction false} ChainSeen(f: Files, root: Root, st: Build, cs: seq<Source>, i: nat)
    requires Built(f, root, st) && IsChain(f, root, cs) && i < |cs|
    ensures Reached(f, root, cs[i]) && Seen(f, st, cs[i])
    ensures i > 0 ==> cs[i - 1].raw.Some? && Edge(RefGraph(st.agents), cs[i - 1].raw.value.identity.id,
                                                  cs[i].raw.value.identity.id)
  {
    hide Reached, AllGrounded, CopiesAgree, Finds, ManifestOk, ProductionOk, AgentRefs, RefGraph;
    if i == 0 {
      FirstReached(f, root, cs[0]);
    } else {
      ChainSeen(f, root, st, cs, i - 1);
      assert LinksTo(f, cs[i - 1], cs[i]);
      ReachedStep(f, root, cs[i - 1], cs[i]);
      var ref :| ref in AgentRefs(cs[i - 1].raw.value) && Finds(f, cs[i - 1].dir, ref.agentId, cs[i]);
      LinkSeen(f, root, st, cs[i - 1], ref, cs[i]);
    }
  }

  lemma ReachedSeen(f: Files, root: Root, st: Build, s: Source)
    requires Built(f, root, st) && Reached(f, root, s)
    ensures Seen(f, st, s) && AllNamed(f, s.dir, AgentRefs(s.raw.value))
  {
    hide AllGrounded, CopiesAgree, Finds, ManifestOk, ProductionOk, AgentRefs, RefsGrounded, PinsOf;
    var cs :| IsChain(f, root, cs) && cs[|cs| - 1] == s;
    ChainSeen(f, root, st, cs, |cs| - 1);
    var copy, pins := ReadCopy(f, root, st, s);
    forall ref | ref in AgentRefs(s.raw.value) ensures exists t :: Names(f, s.dir, ref, t) {
      var t := GroundedFile(f, st, copy.dir, AgentRefs(s.raw.value), ref);
      LinkSeen(f, root, st, s, ref, t);
    }
  }

  lemma GroundedFile(f: Files, st: Build, dir: Dir, refs: seq<Ref>, ref: Ref) returns (t: Source)
    requires RefsGrounded(f, st.sources, dir, refs) && ref in refs
    ensures Names(f, dir, ref, t) && Finds(f, dir, ref.agentId, t)
  {
    var i :| 0 <= i < |refs| && refs[i] == ref;
    assert RefGrounded(f, st.sources, dir, refs[i]);
    t :| Names(f, dir, refs[i], t);
  }

  lemma AcyclicIsOnce(f: Files, root: Root, st: Build, cs: seq<Source>)
    requires Built(f, root, st) && Acyclic(RefGraph(st.agents)) && IsChain(f, root, cs)
    ensures DistinctIdentities(cs)
  {
    hide Built, IsChain, RefGraph, Reached, ManifestOk, ProductionOk, Edge;
    forall i | 0 <= i < |cs| ensures cs[i].raw.Some? {
      ChainSeen(f, root, st, cs, i);
    }
    var ids := seq(|cs|, i requires 0 <= i < |cs| => cs[i].raw.value.identity.id);
    forall i | 0 <= i < |ids| - 1 ensures Edge(RefGraph(st.agents), ids[i], ids[i + 1]) {
      ChainSeen(f, root, st, cs, i + 1);
    }
    forall i, j | 0 <= i < j < |cs| ensures cs[i].raw.value.identity.id != cs[j].raw.value.identity.id {
      if ids[i] == ids[j] {
        RepeatIsCycle(RefGraph(st.agents), ids, i, j);
      }
    }
  }

  lemma RootBuilt(f: Files, root: Root) returns (st: Build)
    requires Assemble(f, root).Ok? && CopiesAgree(f, root)
    ensures Built(f, root, st) && RootOk(f, root) && Acyclic(RefGraph(st.agents))
  {
    hide CopiesAgree, AllGrounded, RefGraph, Finds, ManifestOk, ProductionOk, WorkflowOk;
    st := BuildIsGrounded(f, root);
    BuildIsValid(f, root);
    var order := AcceptedIsSealed(f.checks, Assemble(f, root).value);
    match root
    case AgentRoot(source) =>
    case WorkflowRoot(raw, dir) =>
      var refs := StepRefs(raw.steps);
      forall s | StartsWith(f, root, s) ensures Seen(f, st, s) {
        var ref :| ref in refs && Finds(f, dir, ref.agentId, s);
        NamedIsSeen(f, st, dir, refs, ref, s);
      }
      forall ref | ref in refs ensures exists s :: Names(f, dir, ref, s) {
        var s := GroundedFile(f, st, dir, refs, ref);
      }
  }

  /** Conversely everything asked of the files, but for the depth, is needed, when copies of
      a manifest lie where their references find the same files. */
  lemma BuiltInputsAreGood(f: Files, root: Root)
    requires Assemble(f, root).Ok? && CopiesAgree(f, root)
    ensures Good(f, root)
  {
    hide Assemble, CopiesAgree, AllGrounded, RefGraph, Finds, ManifestOk, ProductionOk, RootOk, AllNamed, Reached,
         IsChain, DistinctIdentities, AgentRefs;
    var st := RootBuilt(f, root);
    forall s | Reached(f, root, s) ensures Seen(f, st, s) && AllNamed(f, s.dir, AgentRefs(s.raw.value)) {
      ReachedSeen(f, root, st, s);
    }
    forall cs | IsChain(f, root, cs) ensures DistinctIdentities(cs) {
      AcyclicIsOnce(f, root, st, cs);
    }
    forall ids: set<Id> | forall id :: id in ids ==> exists s :: ReachedAs(f, root, s, id) ensures |ids| <= 256 {
      assert ids <= st.sources.Keys;
      SubsetSize(ids, st.sources.Keys);
    }
  }

  /** The two together: below the depth limit, and when copies agree, a build succeeds
      exactly for inputs in order. */
  lemma BuildsIff(f: Files, root: Root)
    requires CopiesAgree(f, root) && WithinDepth(f, root)
    ensures Assemble(f, root).Ok? <==> Good(f, root)
  {
    hide *;
    if Assemble(f, root).Ok? {
      BuiltInputsAreGood(f, root);
    }
    if Good(f, root) {
      GoodInputsBuild(f, root);
    }
  }

  // ----- a second copy is not followed

  predicate Passes(w: Checks, m: AgentManifest) {
    ManifestOk(w, m) && ProductionOk(w, m)
  }

  /** Two files of one manifest: next to the root, and next to the registered agent `a`. */
  function TwoCopies(w: Checks, a: AgentManifest, x: AgentManifest, y: AgentManifest): Files {
    Files(w, map[("home", x.identity.id) := Source(Some(x), "home"), ("home", y.identity.id) := Source(Some(y), "home"),
                 ("away", x.identity.id) := Source(Some(x), "away")],
          map[a.identity.id := Source(Some(a), "away")])
  }

  lemma VisitLeaf(f: Files, source: Source, expected: Option<Id>, depth: nat, active: set<Id>, st: Build)
    requires depth <= MAX_DEPTH && Enter(f, source, expected, depth, active, st).None?
    requires AgentRefs(source.raw.value) == [] && source.raw.value.identity.id !in st.agents
    ensures var raw := source.raw.value;
            Visit(f, source, expected, depth, active, st) ==
            Ok((Lock(f, raw, []), AddAgent(f, Mark(f, st, raw), raw, [])))
  {
    hide Enter;
  }

  lemma VisitAgainFound(f: Files, source: Source, expected: Option<Id>, depth: nat, active: set<Id>, st: Build)
    requires depth <= MAX_DEPTH && Enter(f, source, expected, depth, active, st).None?
    requires source.raw.value.identity.id in st.agents
    ensures var raw := source.raw.value;
            Visit(f, source, expected, depth, active, st) == Ok((st.agents[raw.identity.id], Mark(f, st, raw)))
  {
    hide Enter;
  }

  lemma VisitOpens(f: Files, source: Source, expected: Option<Id>, depth: nat, active: set<Id>, st: Build,
                   pins: seq<Digest>, below: Build)
    requires depth <= MAX_DEPTH && Enter(f, source, expected, depth, active, st).None?
    requires source.raw.value.identity.id !in st.agents && |pins| == |AgentRefs(source.raw.value)|
    requires PinRefs(f, AgentRefs(source.raw.value), source.dir, depth, active + {source.raw.value.identity.id},
                     Mark(f, st, source.raw.value)) == Ok((pins, below))
    ensures var raw := source.raw.value;
            Visit(f, source, expected, depth, active, st) == Ok((Lock(f, raw, pins), AddAgent(f, below, raw, pins)))
  {
    hide Enter;
  }

  lemma PinFound(f: Files, id: Id, rest: seq<Ref>, dir: Dir, depth: nat, active: set<Id>, st: Build, source: Source,
                 record: AgentRecord, st1: Build, pins: seq<Digest>, st2: Build)
    requires depth <= MAX_DEPTH && IsIdentifier(id) && Resolve(f, dir, id) == Some(source)
    requires Visit(f, source, Some(id), depth + 1, active, st) == Ok((record, st1))
    requires PinRefs(f, rest, dir, depth, active, st1) == Ok((pins, st2))
    ensures PinRefs(f, [Ref(id, None)] + rest, dir, depth, active, st) == Ok(([record.sha256] + pins, st2))
  {
    hide Visit;
    var refs := [Ref(id, None)] + rest;
    assert refs[0] == Ref(id, None) && refs[1..] == rest;
  }

  lemma EnterOk(f: Files, s: Source, expected: Option<Id>, depth: nat, active: set<Id>, st: Build)
    requires s.raw.Some? && Passes(f.checks, s.raw.value) && depth <= MAX_DEPTH
    requires expected.Some? ==> expected.value == s.raw.value.identity.id
    requires var id := s.raw.value.identity.id;
             id !in active && (id in st.sources ==> st.sources[id] == Digests(f, s.raw.value))
    requires |st.sources.Keys| < MAX_AGENTS
    ensures Enter(f, s, expected, depth, active, st).None?
  {
    var sources := Mark(f, st, s.raw.value).sources;
    assert sources.Keys == st.sources.Keys + {s.raw.value.identity.id};
    assert |sources| == |sources.Keys|;
  }

  ghost predicate TwoPaths(r: AgentManifest, a: AgentManifest, x: AgentManifest, y: AgentManifest) {
    && Distinct([r.identity.id, a.identity.id, x.identity.id, y.identity.id])
    && AgentRefs(r) == [Ref(x.identity.id, None), Ref(a.identity.id, None)]
    && AgentRefs(a) == [Ref(x.identity.id, None)]
    && AgentRefs(x) == [Ref(y.identity.id, None)]
    && AgentRefs(y) == []
  }
  /** The build reads one copy of `x` and leaves the other, whose reference finds no file. */
  lemma SecondCopyUnread(w: Checks, r: AgentManifest, a: AgentManifest, x: AgentManifest, y: AgentManifest)
    requires Passes(w, r) && Passes(w, a) && Passes(w, x) && Passes(w, y) && TwoPaths(r, a, x, y)
    ensures var f, root := TwoCopies(w, a, x, y), AgentRoot(Source(Some(r), "home"));
            Assemble(f, root).Ok? && !Good(f, root)
  {
    hide Visit, PinRefs, Enter, ManifestOk, ProductionOk, Good, AgentRefs, IsIdentifier;
    var f, source := TwoCopies(w, a, x, y), Source(Some(r), "home");
    var record, pin, st, st' := BothReferences(w, r, a, x, y);
    EnterOk(f, source, None, 0, {}, NOTHING);
    VisitOpens(f, source, None, 0, {}, NOTHING, [record.sha256, pin], st');
    CopyLost(w, r, a, x, y);
  }

  lemma BothReferences(w: Checks, r: AgentManifest, a: AgentManifest, x: AgentManifest, y: AgentManifest)
    returns (record: AgentRecord, pin: Digest, st: Build, st': Build)
    requires Passes(w, r) && Passes(w, a) && Passes(w, x) && Passes(w, y) && TwoPaths(r, a, x, y)
    ensures var f := TwoCopies(w, a, x, y);
            PinRefs(f, AgentRefs(r), "home", 0, {} + {r.identity.id}, Mark(f, NOTHING, r)) ==
            Ok(([record.sha256, pin], st'))
  {
    hide Visit, PinRefs, Enter, ManifestOk, ProductionOk, AgentRefs, IsIdentifier;
    var f, ri, ai, xi := TwoCopies(w, a, x, y), r.identity.id, a.identity.id, x.identity.id;
    var ids := [r.identity.id, a.identity.id, x.identity.id, y.identity.id];
    assert ids[1] != ids[2] && ids[1] != ids[3] && ids[2] != ids[3];
    record, st := FirstCopyRead(w, r, a, x, y);
    var record';
    record', st' := SecondCopyKnown(w, r, a, x, y, st, record);
    pin := record'.sha256;
    Named(w, a);
    Named(w, x);
    PinNothing(f, "home", 0, {} + {ri}, st');
    PinFound(f, ai, [], "home", 0, {} + {ri}, st, Source(Some(a), "away"), record', st', [], st');
    assert [Ref(ai, None)] + [] == [Ref(ai, None)] && [pin] + [] == [pin];
    PinFound(f, xi, [Ref(ai, None)], "home", 0, {} + {ri}, Mark(f, NOTHING, r), Source(Some(x), "home"), record, st,
             [pin], st');
    assert [Ref(xi, None)] + [Ref(ai, None)] == AgentRefs(r) && [record.sha256] + [pin] == [record.sha256, pin];
  }

  lemma Named(w: Checks, m: AgentManifest)
    requires Passes(w, m)
    ensures IsIdentifier(m.identity.id)
  {
  }

  lemma LeafRead(w: Checks, r: AgentManifest, a: AgentManifest, x: AgentManifest, y: AgentManifest, st: Build)
    returns (pin: Digest, st': Build)
    requires Passes(w, y) && TwoPaths(r, a, x, y)
    requires st.agents == map[] && st.sources.Keys == {r.identity.id, x.identity.id}
    ensures var f := TwoCopies(w, a, x, y);
            && PinRefs(f, AgentRefs(x), "home", 1, {} + {r.identity.id} + {x.identity.id}, st) == Ok(([pin], st'))
            && st' == AddAgent(f, Mark(f, st, y), y, [])
  {
    hide Visit, PinRefs, Enter, ManifestOk, ProductionOk, AgentRefs, IsIdentifier;
    var f, yi, active := TwoCopies(w, a, x, y), y.identity.id, {} + {r.identity.id} + {x.identity.id};
    var ids := [r.identity.id, a.identity.id, x.identity.id, y.identity.id];
    assert ids[0] != ids[3] && ids[2] != ids[3];
    var leaf := Source(Some(y), "home");
    EnterOk(f, leaf, Some(yi), 2, active, st);
    VisitLeaf(f, leaf, Some(yi), 2, active, st);
    st' := AddAgent(f, Mark(f, st, y), y, []);
    PinNothing(f, "home", 1, active, st');
    Named(w, y);
    PinFound(f, yi, [], "home", 1, active, st, leaf, Lock(f, y, []), st', [], st');
    pin := Lock(f, y, []).sha256;
    assert [Ref(yi, None)] + [] == AgentRefs(x) && [pin] + [] == [pin];
  }

  lemma FirstCopyRead(w: Checks, r: AgentManifest, a: AgentManifest, x: AgentManifest, y: AgentManifest)
    returns (record: AgentRecord, st: Build)
    requires Passes(w, r) && Passes(w, a) && Passes(w, x) && Passes(w, y) && TwoPaths(r, a, x, y)
    ensures var f := TwoCopies(w, a, x, y);
            && Visit(f, Source(Some(x), "home"), Some(x.identity.id), 1, {} + {r.identity.id}, Mark(f, NOTHING, r))
               == Ok((record, st))
            && st.agents.Keys == {x.identity.id, y.identity.id} && st.agents[x.identity.id] == record
            && st.sources.Keys == {r.identity.id, x.identity.id, y.identity.id}
            && st.sources[x.identity.id] == Digests(f, x)
  {
    hide Visit, PinRefs, Enter, ManifestOk, ProductionOk, AgentRefs, IsIdentifier;
    var f, ri, xi, yi := TwoCopies(w, a, x, y), r.identity.id, x.identity.id, y.identity.id;
    var ids := [r.identity.id, a.identity.id, x.identity.id, y.identity.id];
    assert ids[0] != ids[2] && ids[0] != ids[3] && ids[2] != ids[3];
    var st1 := Mark(f, NOTHING, r);
    var st2 := Mark(f, st1, x);
    assert st2.sources.Keys == {ri, xi} && st1.sources.Keys == {ri};
    var pin, st3 := LeafRead(w, r, a, x, y, st2);
    EnterOk(f, Source(Some(x), "home"), Some(xi), 1, {} + {ri}, st1);
    VisitOpens(f, Source(Some(x), "home"), Some(xi), 1, {} + {ri}, st1, [pin], st3);
    record, st := Lock(f, x, [pin]), AddAgent(f, st3, x, [pin]);
  }

  lemma FewKeys(sources: map<Id, Digest>, ids: seq<Id>)
    requires |ids| < MAX_AGENTS && forall id :: id in sources ==> id in ids
    ensures |sources.Keys| < MAX_AGENTS
  {
    SubsetSize(sources.Keys, Elems(ids));
    DistinctSize(ids);
  }

  lemma SecondCopyKnown(w: Checks, r: AgentManifest, a: AgentManifest, x: AgentManifest, y: AgentManifest, st: Build,
                        known: AgentRecord)
    returns (record: AgentRecord, st': Build)
    requires Passes(w, r) && Passes(w, a) && Passes(w, x) && Passes(w, y) && TwoPaths(r, a, x, y)
    requires st.agents.Keys == {x.identity.id, y.identity.id} && st.agents[x.identity.id] == known
    requires st.sources.Keys == {r.identity.id, x.identity.id, y.identity.id}
    requires st.sources[x.identity.id] == Digests(TwoCopies(w, a, x, y), x)
    ensures Visit(TwoCopies(w, a, x, y), Source(Some(a), "away"), Some(a.identity.id), 1, {} + {r.identity.id}, st)
            == Ok((record, st'))
  {
    hide Visit, PinRefs, Enter, ManifestOk, ProductionOk, AgentRefs, IsIdentifier;
    var f, ri, ai, xi := TwoCopies(w, a, x, y), r.identity.id, a.identity.id, x.identity.id;
    var ids := [r.identity.id, a.identity.id, x.identity.id, y.identity.id];
    assert ids[0] != ids[1] && ids[0] != ids[2] && ids[1] != ids[2] && ids[1] != ids[3];
    var st1 := Mark(f, st, a);
    var copy := Source(Some(x), "away");
    FewKeys(st.sources, [ri, xi, y.identity.id]);
    FewKeys(st1.sources, [ri, xi, y.identity.id, ai]);
    EnterOk(f, copy, Some(xi), 2, {} + {ri} + {ai}, st1);
    VisitAgainFound(f, copy, Some(xi), 2, {} + {ri} + {ai}, st1);
    var st2 := Mark(f, st1, x);
    PinNothing(f, "away", 1, {} + {ri} + {ai}, st2);
    Named(w, x);
    PinFound(f, xi, [], "away", 1, {} + {ri} + {ai}, st1, copy, known, st2, [], st2);
    assert [Ref(xi, None)] + [] == AgentRefs(a) && [known.sha256] + [] == [known.sha256];
    EnterOk(f, Source(Some(a), "away"), Some(ai), 1, {} + {ri}, st);
    VisitOpens(f, Source(Some(a), "away"), Some(ai), 1, {} + {ri}, st, [known.sha256], st2);
    record, st' := Lock(f, a, [known.sha256]), AddAgent(f, st2, a, [known.sha256]);
  }

  /** From the second copy no file of the next identity is found. */
  lemma CopyLost(w: Checks, r: AgentManifest, a: AgentManifest, x: AgentManifest, y: AgentManifest)
    requires TwoPaths(r, a, x, y)
    ensures !Good(TwoCopies(w, a, x, y), AgentRoot(Source(Some(r), "home")))
  {
    hide AgentRefs, SourceOk, OneDigest, NoneTwice, FewIdentities, Reached;
    var f, root := TwoCopies(w, a, x, y), AgentRoot(Source(Some(r), "home"));
    var ids := [r.identity.id, a.identity.id, x.identity.id, y.identity.id];
    assert ids[1] != ids[3] && ids[2] != ids[3];
    var s0, s1, s2 := Source(Some(r), "home"), Source(Some(a), "away"), Source(Some(x), "away");
    FirstReached(f, root, s0);
    assert AgentRefs(r)[1] in AgentRefs(r) && Finds(f, "home", a.identity.id, s1);
    ReachedStep(f, root, s0, s1);
    assert AgentRefs(a)[0] in AgentRefs(a) && Finds(f, "away", x.identity.id, s2);
    ReachedStep(f, root, s1, s2);
    assert AgentRefs(x)[0] in AgentRefs(x);
    assert forall s :: !Finds(f, "away", y.identity.id, s);
  }
}
