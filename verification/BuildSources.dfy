/** What a build reads: the files that references lead to from the root, and what is locked
    of them. */
module BuildSources {
  import opened Wrappers
  import opened Graphs
  import opened WorkflowDag
  import opened Manifests
  import opened Releases
  import opened ReleaseBuilder

  // ----- the files that references lead to

  /** The file found from a directory: the sibling, or else the registered one. */
  ghost predicate Finds(f: Files, dir: Dir, id: Id, s: Source) {
    || ((dir, id) in f.siblings && f.siblings[(dir, id)] == s)
    || ((dir, id) !in f.siblings && id in f.registry && f.registry[id] == s)
  }

  /** A readable manifest that passes the schema and the production checks. */
  ghost predicate SourceOk(f: Files, s: Source) {
    s.raw.Some? && ManifestOk(f.checks, s.raw.value) && ProductionOk(f.checks, s.raw.value)
  }

  /** The reference finds the file, in order and of that identity; a pin on it is its digest. */
  ghost predicate Names(f: Files, dir: Dir, ref: Ref, s: Source) {
    && Finds(f, dir, ref.agentId, s)
    && SourceOk(f, s)
    && s.raw.value.identity.id == ref.agentId
    && (ref.pin.Some? ==> ref.pin.value == f.checks.hash(AgentArtifact(s.raw.value)))
  }

  ghost predicate AllNamed(f: Files, dir: Dir, refs: seq<Ref>) {
    forall ref :: ref in refs ==> exists s :: Names(f, dir, ref, s)
  }

  /** One of the references finds the file. */
  ghost predicate Cited(f: Files, dir: Dir, refs: seq<Ref>, s: Source) {
    exists ref :: ref in refs && Finds(f, dir, ref.agentId, s)
  }

  ghost predicate StartsWith(f: Files, root: Root, s: Source) {
    match root
    case AgentRoot(source) => s == source
    case WorkflowRoot(raw, dir) => Cited(f, dir, StepRefs(raw.steps), s)
  }

  ghost predicate LinksTo(f: Files, s: Source, t: Source) {
    s.raw.Some? && Cited(f, s.dir, AgentRefs(s.raw.value), t)
  }

  /** From the root along references, file by file. */
  ghost predicate IsChain(f: Files, root: Root, cs: seq<Source>) {
    && |cs| > 0
    && StartsWith(f, root, cs[0])
    && forall i :: 0 <= i < |cs| - 1 ==> LinksTo(f, cs[i], cs[i + 1])
  }

  ghost predicate Reached(f: Files, root: Root, s: Source) {
    exists cs :: IsChain(f, root, cs) && cs[|cs| - 1] == s
  }

  ghost predicate ReachedAs(f: Files, root: Root, s: Source, id: Id) {
    Reached(f, root, s) && s.raw.Some? && s.raw.value.identity.id == id
  }

  // ----- chains

  lemma FindsIff(f: Files, dir: Dir, id: Id, s: Source)
    ensures Finds(f, dir, id, s) <==> Resolve(f, dir, id) == Some(s)
  {
  }

  lemma FirstReached(f: Files, root: Root, s: Source)
    requires StartsWith(f, root, s)
    ensures IsChain(f, root, [s]) && Reached(f, root, s)
  {
    assert IsChain(f, root, [s]) && [s][|[s]| - 1] == s;
  }

  lemma ChainGrows(f: Files, root: Root, cs: seq<Source>, t: Source)
    requires IsChain(f, root, cs) && LinksTo(f, cs[|cs| - 1], t)
    ensures IsChain(f, root, cs + [t]) && Reached(f, root, t)
  {
    var ds := cs + [t];
    forall i | 0 <= i < |ds| - 1 ensures LinksTo(f, ds[i], ds[i + 1]) {
      if i < |cs| - 1 {
        assert ds[i] == cs[i] && ds[i + 1] == cs[i + 1];
      }
    }
    assert ds[0] == cs[0] && ds[|ds| - 1] == t;
  }

  lemma ReachedStep(f: Files, root: Root, s: Source, t: Source)
    requires Reached(f, root, s) && LinksTo(f, s, t)
    ensures Reached(f, root, t)
  {
    var cs :| IsChain(f, root, cs) && cs[|cs| - 1] == s;
    ChainGrows(f, root, cs, t);
  }

  // ----- what a build has read

  /** A reference in a source read from `dir`: it finds a file in order, of the digest
      recorded for that identity. */
  ghost predicate RefGrounded(f: Files, sources: map<Id, Digest>, dir: Dir, ref: Ref) {
    exists s :: Names(f, dir, ref, s) && ref.agentId in sources && sources[ref.agentId] == Digests(f, s.raw.value)
  }

  ghost predicate RefsGrounded(f: Files, sources: map<Id, Digest>, dir: Dir, refs: seq<Ref>) {
    forall i :: 0 <= i < |refs| ==> RefGrounded(f, sources, dir, refs[i])
  }

  /** The locked copy is that source with every reference pinned to the locked child. */
  ghost predicate GroundedIn(f: Files, root: Root, st: Build, id: Id, source: Source, pins: seq<Digest>) {
    && ReachedAs(f, root, source, id) && SourceOk(f, source)
    && id in st.sources && st.sources[id] == Digests(f, source.raw.value)
    && RefsGrounded(f, st.sources, source.dir, AgentRefs(source.raw.value))
    && |pins| == |AgentRefs(source.raw.value)| && PinsOf(st.agents, AgentRefs(source.raw.value), pins)
    && id in st.agents && st.agents[id] == Lock(f, source.raw.value, pins)
  }

  ghost predicate Grounded(f: Files, root: Root, st: Build, id: Id) {
    exists source, pins :: GroundedIn(f, root, st, id, source, pins)
  }

  ghost predicate AllGrounded(f: Files, root: Root, st: Build) {
    forall id {:trigger Grounded(f, root, st, id)} :: id in st.agents ==> Grounded(f, root, st, id)
  }

  predicate SubSources(a: map<Id, Digest>, b: map<Id, Digest>) {
    forall id :: id in a ==> id in b && b[id] == a[id]
  }

  lemma RefsStayGrounded(f: Files, a: map<Id, Digest>, b: map<Id, Digest>, dir: Dir, refs: seq<Ref>)
    requires SubSources(a, b) && RefsGrounded(f, a, dir, refs)
    ensures RefsGrounded(f, b, dir, refs)
  {
    hide Names;
    forall i | 0 <= i < |refs| ensures RefGrounded(f, b, dir, refs[i]) {
      assert RefGrounded(f, a, dir, refs[i]);
    }
  }

  lemma PinsStay(a: Agents, b: Agents, refs: seq<Ref>, pins: seq<Digest>)
    requires Sub(a, b) && |refs| == |pins| && PinsOf(a, refs, pins)
    ensures PinsOf(b, refs, pins)
  {
    forall i | 0 <= i < |refs| ensures PinOf(b, refs[i].agentId, pins[i]) {
      assert PinOf(a, refs[i].agentId, pins[i]);
    }
  }

  lemma StaysGrounded(f: Files, root: Root, st: Build, st': Build, id: Id)
    requires Sub(st.agents, st'.agents) && SubSources(st.sources, st'.sources) && Grounded(f, root, st, id)
    ensures Grounded(f, root, st', id)
  {
    hide Reached, ManifestOk, ProductionOk, RefsGrounded, PinsOf;
    var source, pins :| GroundedIn(f, root, st, id, source, pins);
    var refs := AgentRefs(source.raw.value);
    RefsStayGrounded(f, st.sources, st'.sources, source.dir, refs);
    PinsStay(st.agents, st'.agents, refs, pins);
    assert GroundedIn(f, root, st', id, source, pins);
  }

  lemma AllStayGrounded(f: Files, root: Root, st: Build, st': Build)
    requires Sub(st.agents, st'.agents) && SubSources(st.sources, st'.sources) && AllGrounded(f, root, st)
    requires st'.agents.Keys == st.agents.Keys
    ensures AllGrounded(f, root, st')
  {
    hide Grounded;
    forall id | id in st'.agents ensures Grounded(f, root, st', id) {
      assert Grounded(f, root, st, id);
      StaysGrounded(f, root, st, st', id);
    }
  }

  lemma AddGrounded(f: Files, root: Root, st2: Build, source: Source, pins: seq<Digest>)
    requires Reached(f, root, source) && SourceOk(f, source) && AllGrounded(f, root, st2)
             && source.raw.value.identity.id !in st2.agents
    requires var raw := source.raw.value;
             && raw.identity.id in st2.sources && st2.sources[raw.identity.id] == Digests(f, raw)
             && RefsGrounded(f, st2.sources, source.dir, AgentRefs(raw))
             && |pins| == |AgentRefs(raw)| && PinsOf(st2.agents, AgentRefs(raw), pins)
    ensures AllGrounded(f, root, AddAgent(f, st2, source.raw.value, pins))
  {
    hide Reached, RefsGrounded, PinsOf, Grounded;
    var raw := source.raw.value;
    var st' := AddAgent(f, st2, raw, pins);
    assert Sub(st2.agents, st'.agents);
    PinsStay(st2.agents, st'.agents, AgentRefs(raw), pins);
    GroundedWith(f, root, st', raw.identity.id, source, pins);
    forall id | id in st'.agents ensures Grounded(f, root, st', id) {
      if id != raw.identity.id {
        assert Grounded(f, root, st2, id);
        StaysGrounded(f, root, st2, st', id);
      }
    }
  }

  lemma GroundedWith(f: Files, root: Root, st: Build, id: Id, source: Source, pins: seq<Digest>)
    requires GroundedIn(f, root, st, id, source, pins)
    ensures Grounded(f, root, st, id)
  {
  }

  lemma MarkKeeps(f: Files, st: Build, raw: AgentManifest)
    requires raw.identity.id in st.sources ==> st.sources[raw.identity.id] == Digests(f, raw)
    ensures SubSources(st.sources, Mark(f, st, raw).sources) && Mark(f, st, raw).agents == st.agents
    ensures Sub(st.agents, Mark(f, st, raw).agents)
    ensures raw.identity.id in Mark(f, st, raw).sources && Mark(f, st, raw).sources[raw.identity.id] == Digests(f, raw)
    ensures SubSources(Mark(f, st, raw).sources, Mark(f, st, raw).sources)
  {
  }

  lemma {:induction false} VisitGrounds(f: Files, root: Root, source: Source, expected: Option<Id>, depth: nat,
                                        active: set<Id>, st: Build)
    returns (record: AgentRecord, st': Build)
    requires depth <= MAX_DEPTH + 1 && Books(st, active) && AllLocked(f, st.agents) && AllGrounded(f, root, st)
    requires Reached(f, root, source) && Visit(f, source, expected, depth, active, st).Ok?
    ensures Visit(f, source, expected, depth, active, st) == Ok((record, st'))
    ensures AllGrounded(f, root, st') && SubSources(st.sources, st'.sources)
    ensures SourceOk(f, source)
    ensures source.raw.value.identity.id in st'.sources
            && st'.sources[source.raw.value.identity.id] == Digests(f, source.raw.value)
    decreases MAX_DEPTH + 1 - depth, 1, 0
  {
    hide *;
    var raw, pins, st2 := UnfoldVisit(f, source, expected, depth, active, st);
    var id := raw.identity.id;
    EntersOk(f, source, depth, active, st);
    MarkKeeps(f, st, raw);
    AllStayGrounded(f, root, st, Mark(f, st, raw));
    if id in st.agents {
      record, st' := st.agents[id], Mark(f, st, raw);
    } else {
      EnterSource(f, st, active, raw);
      var pins1, st3 := RefsBuild(f, AgentRefs(raw), source.dir, depth, active + {id}, Mark(f, st, raw));
      LinksReach(f, root, source);
      var pins2, st4 := RefsGround(f, root, AgentRefs(raw), source.dir, depth, active + {id}, Mark(f, st, raw));
      record, st' := Lock(f, raw, pins), AddAgent(f, st2, raw, pins);
      PinnedGives(f, AgentRefs(raw), pins, active + {id}, Mark(f, st, raw), st2);
      SubSourcesTrans(st.sources, Mark(f, st, raw).sources, st2.sources);
      FinishGround(f, root, source, pins, active, st, st2);
    }
  }

  lemma EntersOk(f: Files, source: Source, depth: nat, active: set<Id>, st: Build)
    requires Enters(f, source, depth, active, st)
    ensures SourceOk(f, source)
  {
  }

  /** Every file the references find is reached. */
  ghost predicate AllReached(f: Files, root: Root, dir: Dir, refs: seq<Ref>) {
    forall s {:trigger Cited(f, dir, refs, s)} :: Cited(f, dir, refs, s) ==> Reached(f, root, s)
  }

  lemma LinksReach(f: Files, root: Root, source: Source)
    requires Reached(f, root, source) && source.raw.Some?
    ensures AllReached(f, root, source.dir, AgentRefs(source.raw.value))
  {
    hide Cited, Reached;
    forall s | Cited(f, source.dir, AgentRefs(source.raw.value), s) ensures Reached(f, root, s) {
      ReachedStep(f, root, source, s);
    }
  }

  lemma PinnedGives(f: Files, refs: seq<Ref>, pins: seq<Digest>, active: set<Id>, st: Build, st': Build)
    requires |refs| == |pins| && Pinned(f, refs, pins, active, st, st')
    ensures Books(st', active) && PinsOf(st'.agents, refs, pins)
  {
  }

  lemma FinishGround(f: Files, root: Root, source: Source, pins: seq<Digest>, active: set<Id>, st: Build, st2: Build)
    requires Reached(f, root, source) && SourceOk(f, source) && AllGrounded(f, root, st2)
             && |pins| == |AgentRefs(source.raw.value)|
    requires Books(st2, active + {source.raw.value.identity.id})
             && PinsOf(st2.agents, AgentRefs(source.raw.value), pins)
    requires SubSources(Mark(f, st, source.raw.value).sources, st2.sources)
    requires RefsGrounded(f, st2.sources, source.dir, AgentRefs(source.raw.value))
    ensures AllGrounded(f, root, AddAgent(f, st2, source.raw.value, pins))
    ensures var st' := AddAgent(f, st2, source.raw.value, pins); var id := source.raw.value.identity.id;
            st'.sources == st2.sources && id in st2.sources && st2.sources[id] == Digests(f, source.raw.value)
  {
    hide AllGrounded, PinsOf, RefsGrounded, Reached;
    var raw := source.raw.value;
    assert Mark(f, st, raw).sources[raw.identity.id] == Digests(f, raw);
    assert raw.identity.id in active + {raw.identity.id};
    AddGrounded(f, root, st2, source, pins);
  }

  lemma {:induction false} RefsGround(f: Files, root: Root, refs: seq<Ref>, dir: Dir, depth: nat, active: set<Id>,
                                      st: Build)
    returns (pins: seq<Digest>, st': Build)
    requires depth <= MAX_DEPTH && Books(st, active) && AllLocked(f, st.agents) && AllGrounded(f, root, st)
    requires AllReached(f, root, dir, refs) && PinRefs(f, refs, dir, depth, active, st).Ok?
    ensures PinRefs(f, refs, dir, depth, active, st) == Ok((pins, st'))
    ensures AllGrounded(f, root, st') && SubSources(st.sources, st'.sources) && RefsGrounded(f, st'.sources, dir, refs)
    decreases MAX_DEPTH + 1 - depth, 0, |refs|
  {
    hide *;
    if refs == [] {
      pins, st' := [], st;
      PinNothing(f, dir, depth, active, st);
      GroundedNone(f, st.sources, dir);
    } else {
      var source, record, st1, rest, st2 := UnfoldPins(f, refs, dir, depth, active, st);
      PinChecked(f, refs, dir, depth, active, st, source, record, st1);
      FirstIsReached(f, root, dir, refs, source);
      var id, record1, st3 := VisitBuilds(f, source, Some(refs[0].agentId), depth + 1, active, st);
      VisitedGives(f, id, record, active, st, st1);
      var record2, st4 := VisitGrounds(f, root, source, Some(refs[0].agentId), depth + 1, active, st);
      var rest1, st5 := RefsGround(f, root, refs[1..], dir, depth, active, st1);
      pins, st' := [record.sha256] + rest, st2;
      FirstGrounded(f, st1.sources, dir, refs[0], source, st1);
      SubSourcesTrans(st.sources, st1.sources, st'.sources);
      GroundedCons(f, st1.sources, st'.sources, dir, refs);
    }
  }

  lemma VisitedGives(f: Files, id: Id, record: AgentRecord, active: set<Id>, st: Build, st': Build)
    requires Visited(f, id, record, active, st, st')
    ensures Books(st', active) && AllLocked(f, st'.agents)
  {
  }

  lemma FirstIsReached(f: Files, root: Root, dir: Dir, refs: seq<Ref>, source: Source)
    requires refs != [] && AllReached(f, root, dir, refs) && Resolve(f, dir, refs[0].agentId) == Some(source)
    ensures Reached(f, root, source) && AllReached(f, root, dir, refs[1..])
  {
    hide Reached;
    FindsIff(f, dir, refs[0].agentId, source);
    assert Cited(f, dir, refs, source);
    forall s | Cited(f, dir, refs[1..], s) ensures Cited(f, dir, refs, s) {
      var ref :| ref in refs[1..] && Finds(f, dir, ref.agentId, s);
      assert ref in refs;
    }
  }

  lemma GroundedNone(f: Files, sources: map<Id, Digest>, dir: Dir)
    ensures RefsGrounded(f, sources, dir, []) && SubSources(sources, sources)
  {
  }

  lemma SubSourcesTrans(a: map<Id, Digest>, b: map<Id, Digest>, c: map<Id, Digest>)
    requires SubSources(a, b) && SubSources(b, c)
    ensures SubSources(a, c)
  {
  }

  lemma FirstGrounded(f: Files, sources: map<Id, Digest>, dir: Dir, ref: Ref, source: Source, st: Build)
    requires Resolve(f, dir, ref.agentId) == Some(source) && SourceOk(f, source)
    requires Reads(source, Some(ref.agentId), st) && sources == st.sources
    requires source.raw.value.identity.id in sources
             && sources[source.raw.value.identity.id] == Digests(f, source.raw.value)
    requires ref.pin.Some? ==> ref.agentId in sources && ref.pin.value == sources[ref.agentId]
    ensures RefGrounded(f, sources, dir, ref)
  {
    FindsIff(f, dir, ref.agentId, source);
    assert Names(f, dir, ref, source);
  }

  lemma GroundedCons(f: Files, a: map<Id, Digest>, b: map<Id, Digest>, dir: Dir, refs: seq<Ref>)
    requires refs != [] && SubSources(a, b) && RefGrounded(f, a, dir, refs[0]) && RefsGrounded(f, b, dir, refs[1..])
    ensures RefsGrounded(f, b, dir, refs)
  {
    hide Names;
    forall i | 0 <= i < |refs| ensures RefGrounded(f, b, dir, refs[i]) {
      if i > 0 {
        assert refs[i] == refs[1..][i - 1];
      }
    }
  }

  /** Every agent of a release is a file reached from the root, in order, with each
      reference pinned to the locked child; every file that one of its references finds is
      in order and has the one digest recorded for its identity, and so has every pin. */
  lemma BuildIsGrounded(f: Files, root: Root) returns (st: Build)
    requires Assemble(f, root).Ok?
    ensures Assemble(f, root).value.agents == st.agents && Books(st, {}) && AllGrounded(f, root, st)
    ensures root.AgentRoot? ==>
              && root.source.raw.Some?
              && Assemble(f, root).value.identity == root.source.raw.value.identity
              && root.source.raw.value.identity.id in st.sources
              && st.sources[root.source.raw.value.identity.id] == Digests(f, root.source.raw.value)
              && SourceOk(f, root.source)
    ensures root.WorkflowRoot? ==>
              && WorkflowOk(root.raw)
              && RefsGrounded(f, st.sources, root.dir, StepRefs(root.raw.steps))
              && exists pins: seq<Digest> ::
                   && |pins| == |root.raw.steps|
                   && PinsOf(st.agents, StepRefs(root.raw.steps), pins)
                   && Assemble(f, root).value.workflow == Some(LockWorkflow(f, root.raw, pins))
  {
    hide Visit, PinRefs, IsChain, ManifestOk, ProductionOk;
    NothingBuilt(f);
    match root
    case AgentRoot(source) =>
      FirstReached(f, root, source);
      var id, record1, st1 := VisitBuilds(f, source, None, 0, {}, NOTHING);
      var record;
      record, st := VisitGrounds(f, root, source, None, 0, {}, NOTHING);
      EntryManifest(f, source);
    case WorkflowRoot(raw, dir) =>
      StepsReach(f, root);
      var pins1, st1 := RefsBuild(f, StepRefs(raw.steps), dir, 0, {}, NOTHING);
      var pins;
      pins, st := RefsGround(f, root, StepRefs(raw.steps), dir, 0, {}, NOTHING);
  }

  lemma StepsReach(f: Files, root: Root)
    requires root.WorkflowRoot?
    ensures AllReached(f, root, root.dir, StepRefs(root.raw.steps))
  {
    hide Reached, Cited;
    forall s | Cited(f, root.dir, StepRefs(root.raw.steps), s) ensures Reached(f, root, s) {
      FirstReached(f, root, s);
    }
  }

  lemma EntryManifest(f: Files, source: Source)
    requires Visit(f, source, None, 0, {}, NOTHING).Ok?
    ensures source.raw.Some?
            && Visit(f, source, None, 0, {}, NOTHING).value.0.manifest.identity == source.raw.value.identity
  {
    var raw, pins, st2 := UnfoldVisit(f, source, None, 0, {}, NOTHING);
  }
}
