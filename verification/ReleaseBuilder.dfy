/** Building a release: a depth-first walk over source manifests that locks each
    agent once and pins every reference to the locked child, bottom-up. */
module ReleaseBuilder {
  import opened Wrappers
  import opened Graphs
  import opened WorkflowDag
  import opened Manifests
  import opened Releases

  type Dir = string

  /** A manifest file: its content (None when unreadable or not schema-valid) and
      the directory its own references are looked up in. */
  datatype Source = Source(raw: Option<AgentManifest>, dir: Dir)

  datatype Files = Files(checks: Checks, siblings: map<(Dir, Id), Source>, registry: map<Id, Source>)

  datatype BuildError =
    | DepthExceeded
    | Unreadable
    | BadManifest
    | Unsupported
    | InvalidIdentifier(id: Id)
    | WrongIdentity(expected: Id, found: Id)
    | SourceCycle(id: Id)
    | ConflictingSources(id: Id)
    | TooManyAgents
    | NotFound(id: Id)
    | SourcePinMismatch(id: Id)
    | InvalidWorkflow
    | Rejected(error: ReleaseError)

  /** Locked agents, and the digest of the source each id was first read from. */
  datatype Build = Build(agents: Agents, sources: map<Id, Digest>)

  /** A sibling file wins over the registry. */
  function Resolve(f: Files, dir: Dir, id: Id): Option<Source> {
    if (dir, id) in f.siblings then Some(f.siblings[(dir, id)])
    else if id in f.registry then Some(f.registry[id])
    else None
  }

  function Digests(f: Files, m: AgentManifest): Digest {
    f.checks.hash(AgentArtifact(m))
  }

  function Lock(f: Files, raw: AgentManifest, pins: seq<Digest>): AgentRecord
    requires |pins| == |AgentRefs(raw)|
  {
    var locked := PinAgent(raw, pins);
    AgentRecord(Digests(f, locked), locked)
  }

  // ----- the walk

  function Mark(f: Files, st: Build, raw: AgentManifest): Build {
    st.(sources := st.sources[raw.identity.id := Digests(f, raw)])
  }

  /** The checks on a source before its references are followed. */
  function Enter(f: Files, source: Source, expected: Option<Id>, depth: nat, active: set<Id>,
                 st: Build): (r: Option<BuildError>)
    ensures r.None? ==> Enters(f, source, depth, active, st)
    ensures r.None? && expected.Some? ==> source.raw.value.identity.id == expected.value
  {
    if depth > MAX_DEPTH then Some(DepthExceeded)
    else if source.raw.None? then Some(Unreadable)
    else
      var raw := source.raw.value;
      var id := raw.identity.id;
      if !ManifestOk(f.checks, raw) then Some(BadManifest)
      else if !ProductionOk(f.checks, raw) then Some(Unsupported)
      else if !IsIdentifier(id) then Some(InvalidIdentifier(id))
      else if expected.Some? && expected.value != id then Some(WrongIdentity(expected.value, id))
      else if id in active then Some(SourceCycle(id))
      else if id in st.sources && st.sources[id] != Digests(f, raw) then Some(ConflictingSources(id))
      else if id !in st.agents && |Mark(f, st, raw).sources| > MAX_AGENTS then Some(TooManyAgents)
      else None
  }

  predicate Enters(f: Files, source: Source, depth: nat, active: set<Id>, st: Build) {
    && depth <= MAX_DEPTH && source.raw.Some?
    && var raw := source.raw.value;
    && ManifestOk(f.checks, raw) && ProductionOk(f.checks, raw) && IsIdentifier(raw.identity.id)
    && raw.identity.id !in active
    && (raw.identity.id in st.sources ==> st.sources[raw.identity.id] == Digests(f, raw))
    && (raw.identity.id !in st.agents ==> |Mark(f, st, raw).sources| <= MAX_AGENTS)
  }

  function Visit(f: Files, source: Source, expected: Option<Id>, depth: nat, active: set<Id>, st: Build)
    : (r: Result<(AgentRecord, Build), BuildError>)
    requires depth <= MAX_DEPTH + 1
    ensures r.Ok? ==> Reads(source, expected, r.value.1) && st.sources.Keys <= r.value.1.sources.Keys
    decreases MAX_DEPTH + 1 - depth, 1, 0
  {
    var error := Enter(f, source, expected, depth, active, st);
    if error.Some? then Err(error.value)
    else
      var raw := source.raw.value;
      if raw.identity.id in st.agents then Ok((st.agents[raw.identity.id], Mark(f, st, raw)))
      else
        var (pins, below) :- PinRefs(f, AgentRefs(raw), source.dir, depth, active + {raw.identity.id},
                                     Mark(f, st, raw));
        Ok((Lock(f, raw, pins), AddAgent(f, below, raw, pins)))
  }

  /** The source was readable, had the expected identity, and its digest is on record. */
  predicate Reads(source: Source, expected: Option<Id>, st: Build) {
    && source.raw.Some? && source.raw.value.identity.id in st.sources
    && (expected.Some? ==> source.raw.value.identity.id == expected.value)
  }

  function AddAgent(f: Files, st: Build, raw: AgentManifest, pins: seq<Digest>): Build
    requires |pins| == |AgentRefs(raw)|
  {
    st.(agents := st.agents[raw.identity.id := Lock(f, raw, pins)])
  }

  function PinRefs(f: Files, refs: seq<Ref>, dir: Dir, depth: nat, active: set<Id>, st: Build)
    : (r: Result<(seq<Digest>, Build), BuildError>)
    requires depth <= MAX_DEPTH
    ensures r.Ok? ==> |r.value.0| == |refs| && st.sources.Keys <= r.value.1.sources.Keys
    decreases MAX_DEPTH + 1 - depth, 0, |refs|
  {
    if refs == [] then Ok(([], st))
    else
      var id := refs[0].agentId;
      if !IsIdentifier(id) then Err(InvalidIdentifier(id))
      else if Resolve(f, dir, id).None? then Err(NotFound(id))
      else
        var (record, st1) :- Visit(f, Resolve(f, dir, id).value, Some(id), depth + 1, active, st);
        if refs[0].pin.Some? && refs[0].pin.value != st1.sources[id] then Err(SourcePinMismatch(id))
        else
          var (pins, st2) :- PinRefs(f, refs[1..], dir, depth, active, st1);
          Ok(([record.sha256] + pins, st2))
  }

  // ----- what every step of the walk keeps

  ghost predicate Sub(a: Agents, b: Agents) {
    forall id :: id in a ==> id in b && b[id] == a[id]
  }

  /** The ids whose source was read are the locked ones and those being locked. */
  predicate Books(st: Build, active: set<Id>) {
    st.sources.Keys == st.agents.Keys + active && st.agents.Keys !! active && |st.sources| <= MAX_AGENTS
  }

  ghost predicate Locked(f: Files, agents: Agents, id: Id)
    requires id in agents
  {
    AgentOk(f.checks, id, agents[id]) && AllResolved(agents, RefsOf(agents, id))
  }

  /** Every locked agent passes the validator's own checks and refers only to locked agents. */
  ghost predicate AllLocked(f: Files, agents: Agents) {
    forall id {:trigger Locked(f, agents, id)} :: id in agents ==> Locked(f, agents, id)
  }

  lemma ResolvedGrows(a: Agents, b: Agents, refs: seq<Ref>)
    requires Sub(a, b) && AllResolved(a, refs)
    ensures AllResolved(b, refs)
  {
    forall i | 0 <= i < |refs| ensures Resolved(b, refs[i]) {
      assert Resolved(a, refs[i]);
    }
  }

  lemma AddLocked(f: Files, agents: Agents, id: Id, record: AgentRecord)
    requires AllLocked(f, agents) && id !in agents
    requires AgentOk(f.checks, id, record) && AllResolved(agents, AgentRefs(record.manifest))
    ensures AllLocked(f, agents[id := record])
  {
    var agents' := agents[id := record];
    forall x | x in agents' ensures Locked(f, agents', x) {
      if x != id {
        assert Locked(f, agents, x);
      }
      ResolvedGrows(agents, agents', RefsOf(agents', x));
    }
  }

  /** Marking the source of an id being entered. */
  lemma EnterSource(f: Files, st: Build, active: set<Id>, raw: AgentManifest)
    requires Books(st, active) && raw.identity.id !in active && raw.identity.id !in st.agents
    requires |Mark(f, st, raw).sources| <= MAX_AGENTS
    ensures Books(Mark(f, st, raw), active + {raw.identity.id})
  {
  }

  lemma ReenterSource(f: Files, st: Build, active: set<Id>, raw: AgentManifest)
    requires Books(st, active) && raw.identity.id in st.agents
    ensures Books(Mark(f, st, raw), active)
  {
    var st1 := Mark(f, st, raw);
    assert st1.sources.Keys == st.sources.Keys;
    assert |st.sources| == |st.sources.Keys| && |st1.sources| == |st1.sources.Keys|;
  }

  /** `pins` are the digests the references' targets were locked with. */
  predicate PinsOf(agents: Agents, refs: seq<Ref>, pins: seq<Digest>)
    requires |refs| == |pins|
  {
    forall i :: 0 <= i < |refs| ==> PinOf(agents, refs[i].agentId, pins[i])
  }

  predicate PinOf(agents: Agents, id: Id, pin: Digest) {
    Resolved(agents, Ref(id, Some(pin)))
  }

  lemma PinsResolve(agents: Agents, refs: seq<Ref>, pins: seq<Digest>)
    requires |refs| == |pins| && PinsOf(agents, refs, pins)
    ensures AllResolved(agents, WithPins(refs, pins))
  {
    WithPinsAt(refs, pins);
    forall i | 0 <= i < |refs| ensures Resolved(agents, WithPins(refs, pins)[i]) {
      assert PinOf(agents, refs[i].agentId, pins[i]);
    }
  }

  lemma PinsCons(agents: Agents, refs: seq<Ref>, pin: Digest, pins: seq<Digest>)
    requires |refs| == |pins| + 1 && PinsOf(agents, refs[1..], pins)
    requires PinOf(agents, refs[0].agentId, pin)
    ensures PinsOf(agents, refs, [pin] + pins)
  {
    forall i | 0 <= i < |refs| ensures PinOf(agents, refs[i].agentId, ([pin] + pins)[i]) {
      if i > 0 {
        assert refs[i] == refs[1..][i - 1] && PinOf(agents, refs[1..][i - 1].agentId, pins[i - 1]);
      }
    }
  }

  lemma LockRefs(f: Files, raw: AgentManifest, pins: seq<Digest>)
    requires |pins| == |AgentRefs(raw)|
    ensures AgentRefs(Lock(f, raw, pins).manifest) == WithPins(AgentRefs(raw), pins)
  {
    PinProvidersRefs(raw.providers, pins);
  }

  lemma LockIsOk(f: Files, raw: AgentManifest, pins: seq<Digest>)
    requires |pins| == |AgentRefs(raw)|
    requires ManifestOk(f.checks, raw) && ProductionOk(f.checks, raw) && IsIdentifier(raw.identity.id)
    ensures AgentOk(f.checks, raw.identity.id, Lock(f, raw, pins))
  {
    PinningKeepsChecks(f.checks, raw, pins);
  }

  /** Locking the agent being entered, after its references. */
  lemma FinishLock(f: Files, raw: AgentManifest, pins: seq<Digest>, active: set<Id>, st: Build)
    requires |pins| == |AgentRefs(raw)| && PinsOf(st.agents, AgentRefs(raw), pins)
    requires ManifestOk(f.checks, raw) && ProductionOk(f.checks, raw) && IsIdentifier(raw.identity.id)
    requires Books(st, active + {raw.identity.id}) && raw.identity.id !in active && AllLocked(f, st.agents)
    ensures var st' := AddAgent(f, st, raw, pins);
            Books(st', active) && AllLocked(f, st'.agents)
  {
    hide AllLocked, PinsOf, ManifestOk, ProductionOk, AgentOk, AllResolved;
    LockIsOk(f, raw, pins);
    LockRefs(f, raw, pins);
    PinsResolve(st.agents, AgentRefs(raw), pins);
    AddLocked(f, st.agents, raw.identity.id, Lock(f, raw, pins));
  }

  /** What a finished visit leaves behind. */
  ghost predicate Visited(f: Files, id: Id, record: AgentRecord, active: set<Id>, st: Build, st': Build) {
    && Books(st', active) && AllLocked(f, st'.agents) && Sub(st.agents, st'.agents)
    && id in st'.agents && st'.agents[id] == record && IsIdentifier(id)
  }

  ghost predicate Pinned(f: Files, refs: seq<Ref>, pins: seq<Digest>, active: set<Id>, st: Build, st': Build)
    requires |refs| == |pins|
  {
    Books(st', active) && AllLocked(f, st'.agents) && Sub(st.agents, st'.agents) && PinsOf(st'.agents, refs, pins)
  }

  lemma AlreadyVisited(f: Files, raw: AgentManifest, active: set<Id>, st: Build)
    requires Books(st, active) && AllLocked(f, st.agents) && raw.identity.id in st.agents
             && IsIdentifier(raw.identity.id)
    ensures Visited(f, raw.identity.id, st.agents[raw.identity.id], active, st, Mark(f, st, raw))
  {
    ReenterSource(f, st, active, raw);
  }

  lemma NewlyVisited(f: Files, raw: AgentManifest, pins: seq<Digest>, active: set<Id>, st: Build, st2: Build)
    requires |pins| == |AgentRefs(raw)| && raw.identity.id !in active
    requires ManifestOk(f.checks, raw) && ProductionOk(f.checks, raw) && IsIdentifier(raw.identity.id)
    requires Pinned(f, AgentRefs(raw), pins, active + {raw.identity.id}, Mark(f, st, raw), st2)
    ensures var record := Lock(f, raw, pins);
            Visited(f, raw.identity.id, record, active, st, AddAgent(f, st2, raw, pins))
  {
    FinishLock(f, raw, pins, active, st2);
    assert raw.identity.id !in st2.agents;
  }

  lemma PinnedNil(f: Files, active: set<Id>, st: Build)
    requires Books(st, active) && AllLocked(f, st.agents)
    ensures Pinned(f, [], [], active, st, st)
  {
  }

  lemma PinnedCons(f: Files, refs: seq<Ref>, record: AgentRecord, pins: seq<Digest>, active: set<Id>, st: Build,
                   st1: Build, st': Build)
    requires |refs| == |pins| + 1
    requires Visited(f, refs[0].agentId, record, active, st, st1)
    requires Pinned(f, refs[1..], pins, active, st1, st') && record.sha256 == st1.agents[refs[0].agentId].sha256
    ensures Pinned(f, refs, [record.sha256] + pins, active, st, st')
  {
    assert st'.agents[refs[0].agentId] == record;
    PinsCons(st'.agents, refs, record.sha256, pins);
  }

  // ----- one unfolding of the walk

  lemma UnfoldVisit(f: Files, source: Source, expected: Option<Id>, depth: nat, active: set<Id>, st: Build)
    returns (raw: AgentManifest, pins: seq<Digest>, st2: Build)
    requires depth <= MAX_DEPTH + 1 && Visit(f, source, expected, depth, active, st).Ok?
    ensures Enters(f, source, depth, active, st) && raw == source.raw.value
    ensures var id := raw.identity.id; var out := Visit(f, source, expected, depth, active, st);
            if id in st.agents then out == Ok((st.agents[id], Mark(f, st, raw)))
            else
              && |Mark(f, st, raw).sources| <= MAX_AGENTS && |pins| == |AgentRefs(raw)|
              && PinRefs(f, AgentRefs(raw), source.dir, depth, active + {id}, Mark(f, st, raw)) == Ok((pins, st2))
              && out == Ok((Lock(f, raw, pins), AddAgent(f, st2, raw, pins)))
  {
    raw := source.raw.value;
    if raw.identity.id in st.agents {
      pins, st2 := [], st;
    } else {
      var found := PinRefs(f, AgentRefs(raw), source.dir, depth, active + {raw.identity.id}, Mark(f, st, raw)).value;
      pins, st2 := found.0, found.1;
    }
  }

  lemma UnfoldPins(f: Files, refs: seq<Ref>, dir: Dir, depth: nat, active: set<Id>, st: Build)
    returns (source: Source, record: AgentRecord, st1: Build, pins: seq<Digest>, st': Build)
    requires depth <= MAX_DEPTH && refs != [] && PinRefs(f, refs, dir, depth, active, st).Ok?
    ensures Resolve(f, dir, refs[0].agentId) == Some(source)
    ensures Visit(f, source, Some(refs[0].agentId), depth + 1, active, st) == Ok((record, st1))
    ensures PinRefs(f, refs[1..], dir, depth, active, st1) == Ok((pins, st'))
    ensures PinRefs(f, refs, dir, depth, active, st) == Ok(([record.sha256] + pins, st'))
  {
    source := Resolve(f, dir, refs[0].agentId).value;
    var visited := Visit(f, source, Some(refs[0].agentId), depth + 1, active, st).value;
    record, st1 := visited.0, visited.1;
    var rest := PinRefs(f, refs[1..], dir, depth, active, st1).value;
    pins, st' := rest.0, rest.1;
  }

  lemma PinNothing(f: Files, dir: Dir, depth: nat, active: set<Id>, st: Build)
    requires depth <= MAX_DEPTH
    ensures PinRefs(f, [], dir, depth, active, st) == Ok(([], st))
  {
  }

  /** The pin a source reference carried was the digest of the source it names. */
  lemma PinChecked(f: Files, refs: seq<Ref>, dir: Dir, depth: nat, active: set<Id>, st: Build, source: Source,
                   record: AgentRecord, st1: Build)
    requires depth <= MAX_DEPTH && refs != [] && PinRefs(f, refs, dir, depth, active, st).Ok?
    requires Resolve(f, dir, refs[0].agentId) == Some(source)
    requires Visit(f, source, Some(refs[0].agentId), depth + 1, active, st) == Ok((record, st1))
    ensures Reads(source, Some(refs[0].agentId), st1)
    ensures refs[0].pin.Some? ==> refs[0].pin.value == st1.sources[refs[0].agentId]
  {
  }

  lemma {:induction false} VisitBuilds(f: Files, source: Source, expected: Option<Id>, depth: nat, active: set<Id>,
                                       st: Build)
    returns (id: Id, record: AgentRecord, st': Build)
    requires depth <= MAX_DEPTH + 1 && Books(st, active) && AllLocked(f, st.agents)
    requires Visit(f, source, expected, depth, active, st).Ok?
    ensures Visit(f, source, expected, depth, active, st) == Ok((record, st'))
    ensures source.raw.Some? && id == source.raw.value.identity.id && Visited(f, id, record, active, st, st')
    decreases MAX_DEPTH + 1 - depth, 1, 0
  {
    var raw, pins, st2 := UnfoldVisit(f, source, expected, depth, active, st);
    id := raw.identity.id;
    var found := Visit(f, source, expected, depth, active, st).value;
    record, st' := found.0, found.1;
    if id in st.agents {
      AlreadyVisited(f, raw, active, st);
    } else {
      EnterSource(f, st, active, raw);
      var pins', st2' := RefsBuild(f, AgentRefs(raw), source.dir, depth, active + {id}, Mark(f, st, raw));
      NewlyVisited(f, raw, pins, active, st, st2);
    }
  }

  lemma {:induction false} RefsBuild(f: Files, refs: seq<Ref>, dir: Dir, depth: nat, active: set<Id>, st: Build)
    returns (pins: seq<Digest>, st': Build)
    requires depth <= MAX_DEPTH && Books(st, active) && AllLocked(f, st.agents)
    requires PinRefs(f, refs, dir, depth, active, st).Ok?
    ensures PinRefs(f, refs, dir, depth, active, st) == Ok((pins, st'))
    ensures |pins| == |refs| && Pinned(f, refs, pins, active, st, st')
    decreases MAX_DEPTH + 1 - depth, 0, |refs|
  {
    hide Visit, PinRefs, Books, AllLocked, Pinned, Visited;
    if refs == [] {
      pins, st' := [], st;
      PinNothing(f, dir, depth, active, st);
      PinnedNil(f, active, st);
    } else {
      var source, record, st1, rest, st2 := UnfoldPins(f, refs, dir, depth, active, st);
      var id, record', st1' := VisitBuilds(f, source, Some(refs[0].agentId), depth + 1, active, st);
      var rest', st2' := RefsBuild(f, refs[1..], dir, depth, active, st1);
      pins, st' := [record.sha256] + rest, st2;
      PinnedCons(f, refs, record, rest, active, st, st1, st2);
    }
  }

  // ----- the validator retraces the builder

  lemma SubTrans(a: Agents, b: Agents, c: Agents)
    requires Sub(a, b) && Sub(b, c)
    ensures Sub(a, c)
  {
  }

  /** Over any agents containing what was built, the validator's walk from the same
      agent succeeds and visits exactly the agents the builder locked. */
  lemma {:induction false} VisitRetraced(f: Files, source: Source, expected: Option<Id>, depth: nat, active: set<Id>,
                                         st: Build, all: Agents, id: Id, record: AgentRecord, st': Build)
    requires depth <= MAX_DEPTH + 1 && Books(st, active) && AllLocked(f, st.agents)
    requires Visit(f, source, expected, depth, active, st) == Ok((record, st')) && Sub(st'.agents, all)
    requires source.raw.Some? && source.raw.value.identity.id == id
    ensures id in all && Walk(all, id, depth, active, st.agents.Keys) == Ok(st'.agents.Keys)
    decreases MAX_DEPTH + 1 - depth, 1, 0
  {
    var raw, pins, st2 := UnfoldVisit(f, source, expected, depth, active, st);
    if id in st.agents {
      WalkReturns(all, id, depth, active, st.agents.Keys);
    } else {
      EnterSource(f, st, active, raw);
      var pins', st2' := RefsBuild(f, AgentRefs(raw), source.dir, depth, active + {id}, Mark(f, st, raw));
      LockedSub(st2, id, Lock(f, raw, pins), active, all);
      RefsRetraced(f, AgentRefs(raw), source.dir, depth, active + {id}, Mark(f, st, raw), all, pins, st2);
      LockRefs(f, raw, pins);
      WalkOpens(all, id, depth, active, st.agents.Keys, st2.agents.Keys);
    }
  }

  lemma LockedSub(st2: Build, id: Id, record: AgentRecord, active: set<Id>, all: Agents)
    requires Books(st2, active + {id}) && Sub(st2.agents[id := record], all)
    ensures Sub(st2.agents, all) && id in all && all[id] == record
    ensures st2.agents[id := record].Keys == st2.agents.Keys + {id}
  {
    assert id !in st2.agents;
    SubTrans(st2.agents, st2.agents[id := record], all);
    assert id in st2.agents[id := record];
  }

  lemma WalkReturns(all: Agents, id: Id, depth: nat, active: set<Id>, visited: set<Id>)
    requires id in all && depth <= MAX_DEPTH && id !in active && id in visited
    ensures Walk(all, id, depth, active, visited) == Ok(visited)
  {
  }

  lemma WalkOpens(all: Agents, id: Id, depth: nat, active: set<Id>, visited: set<Id>, below: set<Id>)
    requires id in all && depth <= MAX_DEPTH && id !in active && id !in visited
    requires CheckRefs(all, RefsOf(all, id), depth, active + {id}, visited) == Ok(below)
    ensures Walk(all, id, depth, active, visited) == Ok(below + {id})
  {
  }

  lemma CheckNothing(all: Agents, depth: nat, active: set<Id>, visited: set<Id>)
    requires depth <= MAX_DEPTH
    ensures CheckRefs(all, [], depth, active, visited) == Ok(visited)
  {
  }

  lemma ChecksCons(all: Agents, refs: seq<Ref>, depth: nat, active: set<Id>, visited: set<Id>, below: set<Id>,
                   after: set<Id>)
    requires depth <= MAX_DEPTH && refs != [] && Resolved(all, refs[0])
    requires Walk(all, refs[0].agentId, depth + 1, active, visited) == Ok(below)
    requires CheckRefs(all, refs[1..], depth, active, below) == Ok(after)
    ensures CheckRefs(all, refs, depth, active, visited) == Ok(after)
  {
  }

  lemma {:induction false} RefsRetraced(f: Files, refs: seq<Ref>, dir: Dir, depth: nat, active: set<Id>, st: Build,
                                        all: Agents, pins: seq<Digest>, st': Build)
    requires depth <= MAX_DEPTH && Books(st, active) && AllLocked(f, st.agents)
    requires PinRefs(f, refs, dir, depth, active, st) == Ok((pins, st')) && Sub(st'.agents, all)
    ensures |pins| == |refs|
            && CheckRefs(all, WithPins(refs, pins), depth, active, st.agents.Keys) == Ok(st'.agents.Keys)
    decreases MAX_DEPTH + 1 - depth, 0, |refs|
  {
    hide Visit, PinRefs, Walk, CheckRefs, Books, AllLocked;
    if refs == [] {
      PinNothing(f, dir, depth, active, st);
      CheckNothing(all, depth, active, st.agents.Keys);
    } else {
      var source, record, st1, rest, st2 := UnfoldPins(f, refs, dir, depth, active, st);
      var id, record', st1' := VisitBuilds(f, source, Some(refs[0].agentId), depth + 1, active, st);
      var rest', st2' := RefsBuild(f, refs[1..], dir, depth, active, st1);
      SubTrans(st1.agents, st'.agents, all);
      VisitRetraced(f, source, Some(id), depth + 1, active, st, all, id, record, st1);
      RefsRetraced(f, refs[1..], dir, depth, active, st1, all, rest, st');
      var pinned := WithPins(refs, pins);
      assert pinned[0] == Ref(id, Some(record.sha256)) && pinned[1..] == WithPins(refs[1..], rest);
      assert all[id] == record;
      ChecksCons(all, pinned, depth, active, st.agents.Keys, st1.agents.Keys, st'.agents.Keys);
    }
  }

  // ----- the assembled release

  datatype Root = AgentRoot(source: Source) | WorkflowRoot(raw: WorkflowManifest, dir: Dir)

  const NOTHING := Build(map[], map[])

  function AgentRelease(identity: Identity, record: AgentRecord, agents: Agents): Release {
    Release(identity, Entry(AgentKind, identity.id, record.sha256), agents, None)
  }

  function LockWorkflow(f: Files, raw: WorkflowManifest, pins: seq<Digest>): WorkflowRecord
    requires |pins| == |raw.steps|
  {
    var locked := raw.(steps := PinSteps(raw.steps, pins));
    WorkflowRecord(f.checks.hash(WorkflowArtifact(locked)), locked)
  }

  function WorkflowRelease(record: WorkflowRecord, agents: Agents): Release {
    var identity := record.manifest.identity;
    Release(identity, Entry(WorkflowKind, identity.id, record.sha256), agents, Some(record))
  }

  /** The release a build puts together, before it is validated. */
  ghost function Assemble(f: Files, root: Root): Result<Release, BuildError> {
    match root
    case AgentRoot(source) =>
      var (record, st) :- Visit(f, source, None, 0, {}, NOTHING);
      Ok(AgentRelease(record.manifest.identity, record, st.agents))
    case WorkflowRoot(raw, dir) =>
      if !WorkflowOk(raw) then Err(InvalidWorkflow)
      else
        var (pins, st) :- PinRefs(f, StepRefs(raw.steps), dir, 0, {}, NOTHING);
        Ok(WorkflowRelease(LockWorkflow(f, raw, pins), st.agents))
  }

  lemma NothingBuilt(f: Files)
    ensures Books(NOTHING, {}) && AllLocked(f, NOTHING.agents)
  {
  }

  lemma AgentsValid(f: Files, st: Build)
    requires Books(st, {}) && AllLocked(f, st.agents)
    ensures |st.agents| <= MAX_AGENTS
    ensures forall id :: id in st.agents ==> AgentOk(f.checks, id, st.agents[id])
  {
    assert st.agents.Keys == st.sources.Keys;
    assert |st.agents| == |st.agents.Keys| && |st.sources| == |st.sources.Keys|;
    forall id | id in st.agents ensures AgentOk(f.checks, id, st.agents[id]) {
      assert Locked(f, st.agents, id);
    }
  }

  lemma AgentBuildValid(f: Files, source: Source)
    requires Assemble(f, AgentRoot(source)).Ok?
    ensures ValidRelease(f.checks, Assemble(f, AgentRoot(source)).value)
  {
    hide Visit, PinRefs, Walk, CheckRefs, AllLocked, AgentOk;
    NothingBuilt(f);
    var id, record, st := VisitBuilds(f, source, None, 0, {}, NOTHING);
    AgentsValid(f, st);
    VisitRetraced(f, source, None, 0, {}, NOTHING, st.agents, id, record, st);
    EntryIdentity(f, id, record, st);
    assert st.agents != map[];
  }

  lemma EntryIdentity(f: Files, id: Id, record: AgentRecord, st: Build)
    requires AllLocked(f, st.agents) && id in st.agents && st.agents[id] == record
    ensures record.manifest.identity.id == id
  {
    assert Locked(f, st.agents, id);
  }

  /** A workflow stays a valid workflow when its steps are pinned. */
  lemma PinnedWorkflowOk(f: Files, raw: WorkflowManifest, pins: seq<Digest>)
    requires WorkflowOk(raw) && |pins| == |raw.steps|
    ensures WorkflowOk(LockWorkflow(f, raw, pins).manifest) && raw.steps != []
  {
    var steps, locked := raw.steps, PinSteps(raw.steps, pins);
    SameDag(steps, locked);
    forall s | s in locked ensures StepSchema(s) {
      var i :| 0 <= i < |locked| && locked[i] == s;
      assert StepSchema(steps[i]);
    }
    VerdictIsAccepted(steps, raw.output);
    VerdictIsAccepted(locked, raw.output);
  }

  lemma SameDag(a: seq<Step>, b: seq<Step>)
    requires |a| == |b| && forall i :: 0 <= i < |a| ==> a[i].id == b[i].id && a[i].dependsOn == b[i].dependsOn
    ensures StepIds(a) == StepIds(b) && Ids(a) == Ids(b)
    ensures KnownDependencies(a) ==> KnownDependencies(b)
    ensures Distinct(Ids(a)) ==> Dependencies(a) == Dependencies(b)
  {
    forall id | id in StepIds(a) || id in StepIds(b) ensures id in StepIds(a) && id in StepIds(b) {
      var i :| 0 <= i < |a| && (a[i].id == id || b[i].id == id);
      assert a[i].id == b[i].id == id;
    }
    assert Ids(a) == Ids(b);
    if Distinct(Ids(a)) {
      forall id | id in StepIds(a) ensures Dependencies(a)[id] == Dependencies(b)[id] {
        DependenciesOf(a, IndexOf(a, id));
        DependenciesOf(b, IndexOf(a, id));
      }
    }
  }

  lemma WorkflowBuildValid(f: Files, raw: WorkflowManifest, dir: Dir)
    requires Assemble(f, WorkflowRoot(raw, dir)).Ok?
    ensures ValidRelease(f.checks, Assemble(f, WorkflowRoot(raw, dir)).value)
  {
    hide Visit, PinRefs, Walk, CheckRefs, AllLocked, AgentOk, WorkflowOk;
    NothingBuilt(f);
    var refs := StepRefs(raw.steps);
    var pins, st := RefsBuild(f, refs, dir, 0, {}, NOTHING);
    AgentsValid(f, st);
    RefsRetraced(f, refs, dir, 0, {}, NOTHING, st.agents, pins, st);
    PinnedWorkflowOk(f, raw, pins);
    PinStepsRefs(raw.steps, pins);
    assert PinOf(st.agents, refs[0].agentId, pins[0]);
    assert refs[0].agentId in st.agents;
  }

  /** Whatever the builder assembles, the validator accepts. */
  lemma BuildIsValid(f: Files, root: Root)
    requires Assemble(f, root).Ok?
    ensures ValidRelease(f.checks, Assemble(f, root).value)
  {
    match root
    case AgentRoot(source) => AgentBuildValid(f, source);
    case WorkflowRoot(raw, dir) => WorkflowBuildValid(f, raw, dir);
  }

  // ----- the builder as the program runs it

  /** The recursion over shared mutable tables. */
  class Builder {
    const files: Files
    var agents: Agents
    var sources: map<Id, Digest>
    var active: set<Id>

    constructor (files: Files)
      ensures this.files == files && agents == map[] && sources == map[] && active == {}
    {
      this.files := files;
      agents, sources, active := map[], map[], {};
    }

    function Tables(): Build
      reads this
    {
      Build(agents, sources)
    }

    method VisitSource(source: Source, expected: Option<Id>, depth: nat) returns (r: Result<AgentRecord, BuildError>)
      requires depth <= MAX_DEPTH + 1
      modifies this
      ensures match Visit(files, source, expected, depth, old(active), old(Tables()))
              case Ok((record, st)) => r == Ok(record) && Tables() == st && active == old(active)
              case Err(e) => r == Err(e)
      decreases MAX_DEPTH + 1 - depth, 1, 0
    {
      var error := Enter(files, source, expected, depth, active, Tables());
      if error.Some? {
        return Err(error.value);
      }
      var raw := source.raw.value;
      var id := raw.identity.id;
      sources := sources[id := Digests(files, raw)];
      if id in agents {
        return Ok(agents[id]);
      }
      active := active + {id};
      var pinned := PinReferences(AgentRefs(raw), source.dir, depth);
      if pinned.Err? {
        return Err(pinned.error);
      }
      active := active - {id};
      var record := Lock(files, raw, pinned.value);
      agents := agents[id := record];
      return Ok(record);
    }

    method PinReference(ref: Ref, dir: Dir, depth: nat) returns (r: Result<Digest, BuildError>)
      requires depth <= MAX_DEPTH
      modifies this
      ensures match PinFirst(files, ref, dir, depth, old(active), old(Tables()))
              case Ok((pin, st)) => r == Ok(pin) && Tables() == st && active == old(active)
              case Err(e) => r == Err(e)
      decreases MAX_DEPTH + 1 - depth, 0, 0
    {
      if !IsIdentifier(ref.agentId) {
        return Err(InvalidIdentifier(ref.agentId));
      }
      var resolved := Resolve(files, dir, ref.agentId);
      if resolved.None? {
        return Err(NotFound(ref.agentId));
      }
      var visited := VisitSource(resolved.value, Some(ref.agentId), depth + 1);
      if visited.Err? {
        return Err(visited.error);
      }
      if ref.pin.Some? && ref.pin.value != sources[ref.agentId] {
        return Err(SourcePinMismatch(ref.agentId));
      }
      return Ok(visited.value.sha256);
    }

    method PinReferences(refs: seq<Ref>, dir: Dir, depth: nat) returns (r: Result<seq<Digest>, BuildError>)
      requires depth <= MAX_DEPTH
      modifies this
      ensures match PinRefs(files, refs, dir, depth, old(active), old(Tables()))
              case Ok((pins, st)) => r == Ok(pins) && |pins| == |refs| && Tables() == st && active == old(active)
              case Err(e) => r == Err(e)
      decreases MAX_DEPTH + 1 - depth, 0, 1
    {
      hide PinRefs, PinFirst, Visit;
      var pins: seq<Digest> := [];
      assert refs[0..] == refs;
      PrependNone(PinRefs(files, refs, dir, depth, active, Tables()));
      while |pins| < |refs|
        invariant |pins| <= |refs| && active == old(active)
        invariant PinRefs(files, refs, dir, depth, active, old(Tables()))
               == Prepend(pins, PinRefs(files, refs[|pins|..], dir, depth, active, Tables()))
        decreases |refs| - |pins|
      {
        PinRefsCons(files, refs, |pins|, dir, depth, active, Tables());
        var pin := PinReference(refs[|pins|], dir, depth);
        if pin.Err? {
          return Err(pin.error);
        }
        PrependMore(pins, pin.value, PinRefs(files, refs[|pins| + 1..], dir, depth, active, Tables()));
        pins := pins + [pin.value];
      }
      PinNothing(files, dir, depth, active, Tables());
      assert refs[|pins|..] == [] && pins + [] == pins;
      return Ok(pins);
    }
  }

  /** The loop body: one reference. */
  function PinFirst(f: Files, ref: Ref, dir: Dir, depth: nat, active: set<Id>,
                    st: Build): Result<(Digest, Build), BuildError>
    requires depth <= MAX_DEPTH
  {
    if !IsIdentifier(ref.agentId) then Err(InvalidIdentifier(ref.agentId))
    else if Resolve(f, dir, ref.agentId).None? then Err(NotFound(ref.agentId))
    else
      var (record, st1) :- Visit(f, Resolve(f, dir, ref.agentId).value, Some(ref.agentId), depth + 1, active, st);
      if ref.pin.Some? && ref.pin.value != st1.sources[ref.agentId] then Err(SourcePinMismatch(ref.agentId))
      else Ok((record.sha256, st1))
  }

  lemma PinRefsCons(f: Files, refs: seq<Ref>, n: nat, dir: Dir, depth: nat, active: set<Id>, st: Build)
    requires depth <= MAX_DEPTH && n < |refs|
    ensures PinRefs(f, refs[n..], dir, depth, active, st)
         == match PinFirst(f, refs[n], dir, depth, active, st)
            case Err(e) => Err(e)
            case Ok((pin, st1)) => Prepend([pin], PinRefs(f, refs[n + 1..], dir, depth, active, st1))
  {
    assert refs[n..][0] == refs[n] && refs[n..][1..] == refs[n + 1..];
  }

  lemma PrependNone(r: Result<(seq<Digest>, Build), BuildError>)
    ensures Prepend([], r) == r
  {
    if r.Ok? {
      assert [] + r.value.0 == r.value.0;
    }
  }

  function Prepend(pins: seq<Digest>,
                   r: Result<(seq<Digest>, Build), BuildError>): Result<(seq<Digest>, Build), BuildError> {
    match r
    case Ok((more, st)) => Ok((pins + more, st))
    case Err(e) => Err(e)
  }

  lemma PrependMore(pins: seq<Digest>, pin: Digest, r: Result<(seq<Digest>, Build), BuildError>)
    ensures Prepend(pins, Prepend([pin], r)) == Prepend(pins + [pin], r)
  {
    if r.Ok? {
      assert pins + ([pin] + r.value.0) == (pins + [pin]) + r.value.0;
    }
  }

  lemma BuildIsValidIfAny(f: Files, root: Root)
    ensures Assemble(f, root).Ok? ==> ValidRelease(f.checks, Assemble(f, root).value)
  {
    if Assemble(f, root).Ok? {
      BuildIsValid(f, root);
    }
  }

  /** The program: assemble, then validate. The validation never rejects. */
  method BuildRelease(f: Files, root: Root) returns (r: Result<Release, BuildError>)
    ensures r == Assemble(f, root)
    ensures r.Ok? ==> ValidRelease(f.checks, r.value)
  {
    var builder := new Builder(f);
    BuildIsValidIfAny(f, root);
    match root {
      case AgentRoot(source) =>
        var record := builder.VisitSource(source, None, 0);
        if record.Err? {
          return Err(record.error);
        }
        r := Ok(AgentRelease(record.value.manifest.identity, record.value, builder.agents));
      case WorkflowRoot(raw, dir) =>
        var ok := CheckWorkflow(raw);
        if !ok {
          return Err(InvalidWorkflow);
        }
        var pins := builder.PinReferences(StepRefs(raw.steps), dir, 0);
        if pins.Err? {
          return Err(pins.error);
        }
        r := Ok(WorkflowRelease(LockWorkflow(f, raw, pins.value), builder.agents));
    }
    var error := ValidateRelease(f.checks, r.value);
    return Checked(r.value, error);
  }

  function Checked(r: Release, error: Option<ReleaseError>): Result<Release, BuildError> {
    match error
    case None => Ok(r)
    case Some(e) => Err(Rejected(e))
  }
}
