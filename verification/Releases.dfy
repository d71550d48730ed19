/** The release validator: content digests, identities, pins, and one
    depth-first walk that must visit every embedded agent. */
module Releases {
  import opened Wrappers
  import opened Graphs
  import opened WorkflowDag
  import opened Manifests

  const MAX_AGENTS := 256
  const MAX_DEPTH := 64

  datatype Kind = AgentKind | WorkflowKind

  datatype AgentRecord = AgentRecord(sha256: Digest, manifest: AgentManifest)

  datatype WorkflowRecord = WorkflowRecord(sha256: Digest, manifest: WorkflowManifest)

  datatype Entry = Entry(kind: Kind, id: Id, sha256: Digest)

  type Agents = map<Id, AgentRecord>

  datatype Release = Release(identity: Identity, entry: Entry, agents: Agents, workflow: Option<WorkflowRecord>)

  datatype WalkError =
    | TooDeep
    | ReferenceCycle(id: Id)
    | BadIdentifier(id: Id)
    | MissingAgent(id: Id)
    | PinMismatch(id: Id)

  datatype ReleaseError =
    | AgentCount
    | BadAgent(id: Id, why: AgentError)
    | BadWorkflow
    | EntryMissing
    | EntryMismatch
    | BadGraph(error: WalkError)
    | UnreachableAgents(ids: set<Id>)

  // ----- the walk

  function RefsOf(agents: Agents, id: Id): seq<Ref>
    requires id in agents
  {
    AgentRefs(agents[id].manifest)
  }

  /** Visits `id` at `depth` below the entry, with `active` its ancestors, and
      returns all agents visited so far. */
  function Walk(agents: Agents, id: Id, depth: nat, active: set<Id>, visited: set<Id>): Result<set<Id>, WalkError>
    requires id in agents && depth <= MAX_DEPTH + 1
    decreases MAX_DEPTH + 1 - depth, 1, 0
  {
    if depth > MAX_DEPTH then Err(TooDeep)
    else if id in active then Err(ReferenceCycle(id))
    else if id in visited then Ok(visited)
    else
      var below :- CheckRefs(agents, RefsOf(agents, id), depth, active + {id}, visited);
      Ok(below + {id})
  }

  function CheckRefs(agents: Agents, refs: seq<Ref>, depth: nat, active: set<Id>,
                     visited: set<Id>): Result<set<Id>, WalkError>
    requires depth <= MAX_DEPTH
    decreases MAX_DEPTH + 1 - depth, 0, |refs|
  {
    if refs == [] then Ok(visited)
    else
      var id := refs[0].agentId;
      if !IsIdentifier(id) then Err(BadIdentifier(id))
      else if id !in agents then Err(MissingAgent(id))
      else if refs[0].pin != Some(agents[id].sha256) then Err(PinMismatch(id))
      else
        var below :- Walk(agents, id, depth + 1, active, visited);
        CheckRefs(agents, refs[1..], depth, active, below)
  }

  /** The walk as the program runs it, over shared mutable tables. */
  class ReleaseWalker {
    const agents: Agents
    var visited: set<Id>
    var active: set<Id>

    constructor (agents: Agents)
      ensures this.agents == agents && visited == {} && active == {}
    {
      this.agents := agents;
      visited, active := {}, {};
    }

    method WalkAgent(id: Id, depth: nat) returns (error: Option<WalkError>)
      requires id in agents && depth <= MAX_DEPTH + 1
      modifies this
      ensures match Walk(agents, id, depth, old(active), old(visited))
              case Ok(v) => error.None? && visited == v && active == old(active)
              case Err(e) => error == Some(e)
      decreases MAX_DEPTH + 1 - depth, 1
    {
      if depth > MAX_DEPTH {
        return Some(TooDeep);
      }
      if id in active {
        return Some(ReferenceCycle(id));
      }
      if id in visited {
        return None;
      }
      active := active + {id};
      error := CheckReferences(AgentRefs(agents[id].manifest), depth);
      if error.None? {
        active := active - {id};
        visited := visited + {id};
      }
    }

    method CheckReferences(refs: seq<Ref>, depth: nat) returns (error: Option<WalkError>)
      requires depth <= MAX_DEPTH
      modifies this
      ensures match CheckRefs(agents, refs, depth, old(active), old(visited))
              case Ok(v) => error.None? && visited == v && active == old(active)
              case Err(e) => error == Some(e)
      decreases MAX_DEPTH + 1 - depth, 0
    {
      var n := 0;
      assert refs[0..] == refs;
      while n < |refs|
        invariant n <= |refs| && active == old(active)
        invariant CheckRefs(agents, refs, depth, active, old(visited))
                  == CheckRefs(agents, refs[n..], depth, active, visited)
      {
        var id := refs[n].agentId;
        assert refs[n..][1..] == refs[n + 1..];
        if !IsIdentifier(id) {
          return Some(BadIdentifier(id));
        }
        if id !in agents {
          return Some(MissingAgent(id));
        }
        if refs[n].pin != Some(agents[id].sha256) {
          return Some(PinMismatch(id));
        }
        error := WalkAgent(id, depth + 1);
        if error.Some? {
          return;
        }
        n := n + 1;
      }
      error := None;
    }
  }

  // ----- what the walk decides

  function RefGraph(agents: Agents): Graph {
    map id | id in agents :: Targets(RefsOf(agents, id))
  }

  /** A reference names an embedded agent and carries its digest. */
  predicate Resolved(agents: Agents, ref: Ref) {
    IsIdentifier(ref.agentId) && ref.agentId in agents && ref.pin == Some(agents[ref.agentId].sha256)
  }

  predicate AllResolved(agents: Agents, refs: seq<Ref>) {
    forall i :: 0 <= i < |refs| ==> Resolved(agents, refs[i])
  }

  /** State of a walk: a closed, acyclic, resolved part of the graph in finish order. */
  ghost predicate Explored(agents: Agents, order: seq<Id>, visited: set<Id>) {
    && Topo(RefGraph(agents), order)
    && Elems(order) == visited
    && (forall id {:trigger RefsOf(agents, id)} :: id in visited ==>
         && id in agents
         && AllResolved(agents, RefsOf(agents, id)))
  }

  /** Reachable from one of the references. */
  ghost predicate Under(agents: Agents, refs: seq<Ref>, x: Id) {
    exists i :: 0 <= i < |refs| && Reach(RefGraph(agents), refs[i].agentId, x)
  }

  lemma {:induction false} WalkSound(agents: Agents, id: Id, depth: nat, active: set<Id>, visited: set<Id>,
                                     order: seq<Id>)
    returns (order': seq<Id>)
    requires id in agents && depth <= MAX_DEPTH + 1
    requires Walk(agents, id, depth, active, visited).Ok?
    requires Explored(agents, order, visited) && active !! visited
    ensures var v := Walk(agents, id, depth, active, visited).value;
            && Explored(agents, order', v)
            && visited <= v && id in v && active !! v
            && forall x :: x in v && x !in visited ==> Reach(RefGraph(agents), id, x)
    decreases MAX_DEPTH + 1 - depth, 1, 0
  {
    if id in visited {
      order' := order;
    } else {
      var refs := RefsOf(agents, id);
      var below := RefsSound(agents, refs, depth, active + {id}, visited, order);
      var v := CheckRefs(agents, refs, depth, active + {id}, visited).value;
      assert id !in v by {
        assert id in active + {id};
      }
      FinishNode(agents, id, below, v);
      order' := below + [id];
      forall x | x in v + {id} && x !in visited ensures Reach(RefGraph(agents), id, x) {
        if x == id {
          ReachSelf(RefGraph(agents), id);
        } else {
          ReachThrough(agents, id, x);
        }
      }
    }
  }

  lemma FinishNode(agents: Agents, id: Id, below: seq<Id>, v: set<Id>)
    requires Explored(agents, below, v) && id in agents && id !in v
    requires AllResolved(agents, RefsOf(agents, id)) && forall ref :: ref in RefsOf(agents, id) ==> ref.agentId in v
    ensures Explored(agents, below + [id], v + {id})
  {
    var g, refs := RefGraph(agents), RefsOf(agents, id);
    forall b | b in g[id] ensures b in below {
      var i :| 0 <= i < |refs| && Targets(refs)[i] == b;
      assert refs[i] in refs && refs[i].agentId in Elems(below);
    }
    assert id !in below by {
      assert id !in Elems(below);
    }
    TopoSnoc(g, below, id);
    assert Elems(below + [id]) == v + {id};
  }

  lemma ReachThrough(agents: Agents, id: Id, x: Id)
    requires id in agents && Under(agents, RefsOf(agents, id), x)
    ensures Reach(RefGraph(agents), id, x)
  {
    var refs := RefsOf(agents, id);
    var i :| 0 <= i < |refs| && Reach(RefGraph(agents), refs[i].agentId, x);
    assert Targets(refs)[i] in RefGraph(agents)[id];
    ReachStep(RefGraph(agents), id, refs[i].agentId, x);
  }

  lemma {:induction false} RefsSound(agents: Agents, refs: seq<Ref>, depth: nat, active: set<Id>, visited: set<Id>,
                                     order: seq<Id>)
    returns (order': seq<Id>)
    requires depth <= MAX_DEPTH && CheckRefs(agents, refs, depth, active, visited).Ok?
    requires Explored(agents, order, visited) && active !! visited
    ensures var v := CheckRefs(agents, refs, depth, active, visited).value;
            && Explored(agents, order', v) && AllResolved(agents, refs)
            && visited <= v && active !! v
            && (forall ref :: ref in refs ==> ref.agentId in v)
            && forall x :: x in v && x !in visited ==> Under(agents, refs, x)
    decreases MAX_DEPTH + 1 - depth, 0, |refs|
  {
    if refs == [] {
      order' := order;
    } else {
      var id := refs[0].agentId;
      var v1 := Walk(agents, id, depth + 1, active, visited).value;
      var order1 := WalkSound(agents, id, depth + 1, active, visited, order);
      order' := RefsSound(agents, refs[1..], depth, active, v1, order1);
      var v := CheckRefs(agents, refs[1..], depth, active, v1).value;
      forall x | x in v && x !in visited ensures Under(agents, refs, x) {
        UnderCons(agents, refs, x);
      }
      AllResolvedCons(agents, refs);
      assert forall ref :: ref in refs ==> ref == refs[0] || ref in refs[1..];
    }
  }

  lemma AllResolvedCons(agents: Agents, refs: seq<Ref>)
    requires refs != [] && Resolved(agents, refs[0]) && AllResolved(agents, refs[1..])
    ensures AllResolved(agents, refs)
  {
    forall i | 0 <= i < |refs| ensures Resolved(agents, refs[i]) {
      if i > 0 {
        assert refs[i] == refs[1..][i - 1];
      }
    }
  }

  lemma UnderCons(agents: Agents, refs: seq<Ref>, x: Id)
    requires refs != []
    ensures Reach(RefGraph(agents), refs[0].agentId, x) || Under(agents, refs[1..], x) ==> Under(agents, refs, x)
  {
    if Under(agents, refs[1..], x) {
      var i :| 0 <= i < |refs[1..]| && Reach(RefGraph(agents), refs[1..][i].agentId, x);
      assert refs[1..][i] == refs[i + 1];
    }
  }

  /** The depth bound: no path from `a` leads deeper than the limit when `a` is at depth `base`. */
  ghost predicate Shallow(g: Graph, a: Id, base: nat) {
    forall p :: PathFrom(g, a, p) ==> |p| - 1 + base <= 64
  }

  ghost predicate Closure(agents: Agents) {
    forall id {:trigger RefsOf(agents, id)} :: id in agents ==> AllResolved(agents, RefsOf(agents, id))
  }

  /** `path` leads from a root at depth `base` to the node being visited. */
  ghost predicate Descent(agents: Agents, base: nat, path: seq<Id>, depth: nat, active: set<Id>) {
    && IsPath(RefGraph(agents), path)
    && depth == |path| - 1 + base
    && active == Elems(path[..|path| - 1])
    && Shallow(RefGraph(agents), path[0], base)
    && AcyclicFrom(RefGraph(agents), path[0])
  }

  lemma NotAncestor(agents: Agents, base: nat, path: seq<Id>, depth: nat, active: set<Id>)
    requires Descent(agents, base, path, depth, active)
    ensures depth <= MAX_DEPTH && path[|path| - 1] !in active
  {
    var g, last := RefGraph(agents), |path| - 1;
    assert PathFrom(g, path[0], path);
    if path[last] in active {
      var i :| 0 <= i < last && path[i] == path[last];
      RepeatReached(g, path, i, last);
      assert false;
    }
  }

  lemma RepeatReached(g: Graph, path: seq<Id>, i: nat, j: nat)
    requires IsPath(g, path) && i < j < |path| && path[i] == path[j]
    ensures IsCycle(g, path[i..j + 1]) && Reach(g, path[0], path[i..j + 1][0])
  {
    RepeatIsCycle(g, path, i, j);
    PathSlice(g, path, 0, i + 1);
    assert PathFrom(g, path[0], path[0..i + 1]);
  }

  /** Some of the references of `id`, all resolved. */
  predicate RefsUnder(agents: Agents, id: Id, refs: seq<Ref>) {
    forall i :: 0 <= i < |refs| ==> Resolved(agents, refs[i]) && refs[i] in RefsOfOrNone(agents, id)
  }

  function RefsOfOrNone(agents: Agents, id: Id): seq<Ref> {
    if id in agents then RefsOf(agents, id) else []
  }

  lemma DescentStep(agents: Agents, base: nat, path: seq<Id>, depth: nat, active: set<Id>, ref: Ref)
    requires Descent(agents, base, path, depth, active)
    requires ref in RefsOfOrNone(agents, path[|path| - 1])
    ensures Descent(agents, base, path + [ref.agentId], depth + 1, active + {path[|path| - 1]})
  {
    var last, path' := path[|path| - 1], path + [ref.agentId];
    RefEdge(agents, last, ref);
    PathExtend(RefGraph(agents), path, ref.agentId);
    assert path'[..|path'| - 1] == path == path[..|path| - 1] + [last];
    ElemsSnoc(path[..|path| - 1], last);
  }

  lemma ElemsSnoc(s: seq<Id>, x: Id)
    ensures Elems(s + [x]) == Elems(s) + {x}
  {
  }

  lemma RefEdge(agents: Agents, id: Id, ref: Ref)
    requires ref in RefsOfOrNone(agents, id)
    ensures Edge(RefGraph(agents), id, ref.agentId)
  {
    var refs := RefsOf(agents, id);
    var i :| 0 <= i < |refs| && refs[i] == ref;
    assert Targets(refs)[i] == ref.agentId;
  }

  lemma {:induction false} WalkComplete(agents: Agents, base: nat, path: seq<Id>, depth: nat, active: set<Id>,
                                        visited: set<Id>)
    requires Closure(agents) && Descent(agents, base, path, depth, active)
    requires path[|path| - 1] in agents && depth <= MAX_DEPTH + 1
    ensures Walk(agents, path[|path| - 1], depth, active, visited).Ok?
    decreases MAX_DEPTH + 1 - depth, 1, 0
  {
    NotAncestor(agents, base, path, depth, active);
    var id := path[|path| - 1];
    if id !in visited {
      assert AllResolved(agents, RefsOf(agents, id));
      RefsComplete(agents, base, path, depth, active, RefsOf(agents, id), visited);
    }
  }

  lemma {:induction false} RefsComplete(agents: Agents, base: nat, path: seq<Id>, depth: nat, active: set<Id>,
                                        refs: seq<Ref>, visited: set<Id>)
    requires Closure(agents) && Descent(agents, base, path, depth, active) && depth <= MAX_DEPTH
    requires RefsUnder(agents, path[|path| - 1], refs)
    ensures CheckRefs(agents, refs, depth, active + {path[|path| - 1]}, visited).Ok?
    decreases MAX_DEPTH + 1 - depth, 0, |refs|
  {
    if refs != [] {
      var id, active' := refs[0].agentId, active + {path[|path| - 1]};
      assert Resolved(agents, refs[0]);
      DescentStep(agents, base, path, depth, active, refs[0]);
      WalkComplete(agents, base, path + [id], depth + 1, active', visited);
      var below := Walk(agents, id, depth + 1, active', visited).value;
      assert forall i :: 0 <= i < |refs[1..]| ==> refs[1..][i] == refs[i + 1];
      RefsComplete(agents, base, path, depth, active, refs[1..], below);
    }
  }

  ghost predicate RootOk(agents: Agents, ref: Ref) {
    && Resolved(agents, ref)
    && Shallow(RefGraph(agents), ref.agentId, 1)
    && AcyclicFrom(RefGraph(agents), ref.agentId)
  }

  /** The workflow's own references, one level above the agents. */
  lemma {:induction false} RootRefsComplete(agents: Agents, refs: seq<Ref>, visited: set<Id>)
    requires Closure(agents)
    requires forall i :: 0 <= i < |refs| ==> RootOk(agents, refs[i])
    ensures CheckRefs(agents, refs, 0, {}, visited).Ok?
    decreases |refs|
  {
    if refs != [] {
      var id := refs[0].agentId;
      assert RootOk(agents, refs[0]);
      assert [id][..0] == [];
      WalkComplete(agents, 1, [id], 1, {}, visited);
      var below := Walk(agents, id, 1, {}, visited).value;
      assert forall i :: 0 <= i < |refs[1..]| ==> refs[1..][i] == refs[i + 1];
      RootRefsComplete(agents, refs[1..], below);
    }
  }

  // ----- the whole validation

  datatype AgentError = BadAgentId | DigestMismatch | InvalidManifest | IdentityMismatch | NotForProduction

  /** The checks on one embedded agent, in order. */
  function AgentCheck(w: Checks, id: Id, record: AgentRecord): Option<AgentError> {
    if !IsIdentifier(id) then Some(BadAgentId)
    else if w.hash(AgentArtifact(record.manifest)) != record.sha256 then Some(DigestMismatch)
    else if !ManifestOk(w, record.manifest) then Some(InvalidManifest)
    else if record.manifest.identity.id != id then Some(IdentityMismatch)
    else if !ProductionOk(w, record.manifest) then Some(NotForProduction)
    else None
  }

  predicate AgentOk(w: Checks, id: Id, record: AgentRecord) {
    AgentCheck(w, id, record) == None
  }

  const MAX_STEPS := 256

  /** The schema of one step. */
  predicate StepSchema(s: Step) {
    IsArtifactId(s.id) && IsArtifactId(s.agentId) && |Elems(s.dependsOn)| == |s.dependsOn|
  }

  predicate WorkflowSchema(m: WorkflowManifest) {
    && IsArtifactId(m.identity.id)
    && 1 <= |m.steps| <= MAX_STEPS && forall s :: s in m.steps ==> StepSchema(s)
  }

  ghost predicate WorkflowOk(m: WorkflowManifest) {
    WorkflowSchema(m) && Verdict(m.steps, m.output).None?
  }

  ghost predicate EntryOk(w: Checks, r: Release) {
    match r.entry.kind
    case WorkflowKind =>
      && r.workflow.Some?
      && var record := r.workflow.value;
      && w.hash(WorkflowArtifact(record.manifest)) == record.sha256 == r.entry.sha256
      && WorkflowOk(record.manifest)
      && record.manifest.identity == r.identity && r.identity.id == r.entry.id
    case AgentKind =>
      && r.workflow.None?
      && r.entry.id in r.agents
      && var record := r.agents[r.entry.id];
      && record.sha256 == r.entry.sha256
      && record.manifest.identity == r.identity && r.identity.id == r.entry.id
  }

  /** The walk from the entry. */
  function EntryWalk(r: Release): Result<set<Id>, WalkError>
    requires r.entry.kind.AgentKind? ==> r.entry.id in r.agents
    requires r.entry.kind.WorkflowKind? ==> r.workflow.Some?
  {
    if r.entry.kind.AgentKind? then Walk(r.agents, r.entry.id, 0, {}, {})
    else CheckRefs(r.agents, StepRefs(r.workflow.value.manifest.steps), 0, {}, {})
  }

  ghost predicate ValidRelease(w: Checks, r: Release) {
    && 1 <= |r.agents| <= MAX_AGENTS
    && (forall id :: id in r.agents ==> AgentOk(w, id, r.agents[id]))
    && EntryOk(w, r)
    && EntryWalk(r) == Ok(r.agents.Keys)
  }

  /** The agents an entry refers to first. */
  function Roots(r: Release): set<Id>
    requires r.entry.kind.WorkflowKind? ==> r.workflow.Some?
  {
    if r.entry.kind.AgentKind? then {r.entry.id}
    else set i | 0 <= i < |r.workflow.value.manifest.steps| :: r.workflow.value.manifest.steps[i].agentId
  }

  ghost predicate EntryResolved(r: Release)
    requires r.entry.kind.WorkflowKind? ==> r.workflow.Some?
  {
    if r.entry.kind.AgentKind? then r.entry.id in r.agents
    else AllResolved(r.agents, StepRefs(r.workflow.value.manifest.steps))
  }

  /** A sealed graph: every reference resolves to an embedded agent with that
      digest, there is no cycle, and every agent is reachable from the entry. */
  ghost predicate Sealed(r: Release)
    requires r.entry.kind.WorkflowKind? ==> r.workflow.Some?
  {
    && Closure(r.agents)
    && EntryResolved(r)
    && Acyclic(RefGraph(r.agents))
    && forall id {:trigger Embedded(r, id)} :: id in r.agents ==> Embedded(r, id)
  }

  /** Reachable from the entry. */
  ghost predicate Embedded(r: Release, id: Id)
    requires r.entry.kind.WorkflowKind? ==> r.workflow.Some?
  {
    exists a :: a in Roots(r) && Reach(RefGraph(r.agents), a, id)
  }

  lemma StepRoot(r: Release, i: nat)
    requires r.entry.kind.WorkflowKind? && r.workflow.Some? && i < |r.workflow.value.manifest.steps|
    ensures StepRefs(r.workflow.value.manifest.steps)[i].agentId in Roots(r)
  {
  }

  /** The walk from the entry, explored and reached. */
  lemma EntryExplored(r: Release) returns (order: seq<Id>)
    requires r.entry.kind.AgentKind? ==> r.entry.id in r.agents
    requires r.entry.kind.WorkflowKind? ==> r.workflow.Some?
    requires EntryWalk(r).Ok?
    ensures Explored(r.agents, order, EntryWalk(r).value) && EntryResolved(r)
    ensures forall a :: a in Roots(r) ==> a in order
    ensures forall id :: id in EntryWalk(r).value ==> Embedded(r, id)
  {
    if r.entry.kind.AgentKind? {
      assert Elems([]) == {};
      order := WalkSound(r.agents, r.entry.id, 0, {}, {}, []);
      assert r.entry.id in Roots(r) && r.entry.id in Elems(order);
    } else {
      order := WorkflowExplored(r);
    }
  }

  lemma WorkflowExplored(r: Release) returns (order: seq<Id>)
    requires r.entry.kind.WorkflowKind? && r.workflow.Some? && EntryWalk(r).Ok?
    ensures Explored(r.agents, order, EntryWalk(r).value) && EntryResolved(r)
    ensures forall a :: a in Roots(r) ==> a in order
    ensures forall id :: id in EntryWalk(r).value ==> Embedded(r, id)
  {
    var refs := StepRefs(r.workflow.value.manifest.steps);
    assert Elems([]) == {};
    order := RefsSound(r.agents, refs, 0, {}, {}, []);
    var visited := EntryWalk(r).value;
    RootsVisited(r, order, visited);
    forall id | id in visited ensures Embedded(r, id) {
      UnderRoot(r, id);
    }
  }

  lemma UnderRoot(r: Release, id: Id)
    requires r.entry.kind.WorkflowKind? && r.workflow.Some?
    requires Under(r.agents, StepRefs(r.workflow.value.manifest.steps), id)
    ensures Embedded(r, id)
  {
    var refs := StepRefs(r.workflow.value.manifest.steps);
    var i :| 0 <= i < |refs| && Reach(RefGraph(r.agents), refs[i].agentId, id);
    StepRoot(r, i);
  }

  lemma RootsVisited(r: Release, order: seq<Id>, visited: set<Id>)
    requires r.entry.kind.WorkflowKind? && r.workflow.Some? && Elems(order) == visited
    requires forall ref :: ref in StepRefs(r.workflow.value.manifest.steps) ==> ref.agentId in visited
    ensures forall a :: a in Roots(r) ==> a in order
  {
    var steps := r.workflow.value.manifest.steps;
    forall a | a in Roots(r) ensures a in order {
      var i :| 0 <= i < |steps| && steps[i].agentId == a;
      assert StepRefs(steps)[i] in StepRefs(steps) && a in Elems(order);
    }
  }

  /** Whatever the walk accepts is sealed. */
  lemma AcceptedIsSealed(w: Checks, r: Release) returns (order: seq<Id>)
    requires EntryOk(w, r) && EntryWalk(r) == Ok(r.agents.Keys)
    ensures Sealed(r) && Topo(RefGraph(r.agents), order) && Elems(order) == r.agents.Keys
  {
    order := EntryExplored(r);
    forall v | v in RefGraph(r.agents) ensures v in order {
      assert v in Elems(order);
    }
    TopoAcyclic(RefGraph(r.agents), order);
  }

  /** Depth of the entry's own references: 0 for an agent entry, 1 below a workflow. */
  function BaseDepth(r: Release): nat {
    if r.entry.kind.AgentKind? then 0 else 1
  }

  /** Conversely every sealed graph whose paths stay within the depth limit is
      accepted, whatever the order of its references. */
  lemma SealedIsAccepted(r: Release)
    requires (r.entry.kind.WorkflowKind? ==> r.workflow.Some?) && Sealed(r)
    requires forall a :: a in Roots(r) ==> Shallow(RefGraph(r.agents), a, BaseDepth(r))
    ensures EntryWalk(r) == Ok(r.agents.Keys)
  {
    if r.entry.kind.AgentKind? {
      var id := r.entry.id;
      assert id in Roots(r) && [id][..0] == [];
      WalkComplete(r.agents, 0, [id], 0, {}, {});
    } else {
      var refs := StepRefs(r.workflow.value.manifest.steps);
      forall i | 0 <= i < |refs| ensures RootOk(r.agents, refs[i]) {
        StepRoot(r, i);
      }
      RootRefsComplete(r.agents, refs, {});
    }
    var order := EntryExplored(r);
    WalkedAll(r, order, EntryWalk(r).value);
  }

  lemma WalkedAll(r: Release, order: seq<Id>, visited: set<Id>)
    requires r.entry.kind.WorkflowKind? ==> r.workflow.Some?
    requires Topo(RefGraph(r.agents), order) && Elems(order) == visited
    requires forall id {:trigger Embedded(r, id)} :: id in r.agents ==> Embedded(r, id)
    requires forall a :: a in Roots(r) ==> a in order
    ensures visited == r.agents.Keys
  {
    forall id | id in r.agents ensures id in visited {
      assert Embedded(r, id);
      var a :| a in Roots(r) && Reach(RefGraph(r.agents), a, id);
      TopoReach(RefGraph(r.agents), order, a, id);
      assert id in Elems(order);
    }
    forall id | id in visited ensures id in r.agents {
      assert id in Elems(order);
    }
  }

  // ----- the validator

  /** Why a rejected release was rejected. */
  ghost predicate Justified(w: Checks, r: Release, e: ReleaseError) {
    match e
    case AgentCount => !(1 <= |r.agents| <= MAX_AGENTS)
    case BadAgent(id, why) => id in r.agents && AgentCheck(w, id, r.agents[id]) == Some(why)
    case BadWorkflow => r.entry.kind.WorkflowKind? && (r.workflow.Some? ==>
        var record := r.workflow.value;
        w.hash(WorkflowArtifact(record.manifest)) != record.sha256 || !WorkflowOk(record.manifest))
    case EntryMissing => r.entry.kind.AgentKind? && (r.workflow.Some? || r.entry.id !in r.agents)
    case EntryMismatch => !EntryOk(w, r)
    case BadGraph(error) => EntryOk(w, r) && EntryWalk(r) == Err(error)
    case UnreachableAgents(ids) =>
      EntryOk(w, r) && EntryWalk(r).Ok? && ids != {} && ids == r.agents.Keys - EntryWalk(r).value
  }

  method CheckAgents(w: Checks, agents: Agents) returns (error: Option<ReleaseError>)
    ensures error.None? ==> forall id :: id in agents ==> AgentOk(w, id, agents[id])
    ensures error.Some? ==> error.value.BadAgent? && error.value.id in agents
                            && AgentCheck(w, error.value.id, agents[error.value.id]) == Some(error.value.why)
  {
    var todo := agents.Keys;
    while todo != {}
      invariant todo <= agents.Keys
      invariant forall id :: id in agents.Keys - todo ==> AgentOk(w, id, agents[id])
    {
      var id :| id in todo;
      var why := AgentCheck(w, id, agents[id]);
      if why.Some? {
        return Some(BadAgent(id, why.value));
      }
      todo := todo - {id};
    }
    return None;
  }

  method CheckWorkflow(m: WorkflowManifest) returns (ok: bool)
    ensures ok <==> WorkflowOk(m)
  {
    if !WorkflowSchema(m) {
      return false;
    }
    var dag := ValidateDag(m.steps, m.output);
    return dag.None?;
  }

  method CheckEntry(w: Checks, r: Release) returns (error: Option<ReleaseError>)
    ensures error.None? <==> EntryOk(w, r)
    ensures error.Some? ==> Justified(w, r, error.value)
    ensures error.Some? ==> !error.value.BadGraph? && !error.value.UnreachableAgents?
  {
    if r.entry.kind.WorkflowKind? {
      if r.workflow.None? {
        return Some(BadWorkflow);
      }
      var record := r.workflow.value;
      var ok := CheckWorkflow(record.manifest);
      if w.hash(WorkflowArtifact(record.manifest)) != record.sha256 || !ok {
        return Some(BadWorkflow);
      }
      if record.sha256 != r.entry.sha256 || record.manifest.identity != r.identity || r.identity.id != r.entry.id {
        return Some(EntryMismatch);
      }
      return None;
    }
    if r.workflow.Some? || r.entry.id !in r.agents {
      return Some(EntryMissing);
    }
    var record := r.agents[r.entry.id];
    if record.sha256 != r.entry.sha256 || record.manifest.identity != r.identity || r.identity.id != r.entry.id {
      return Some(EntryMismatch);
    }
    return None;
  }

  /** Accepts exactly the valid releases; a rejection names a check that fails. */
  method ValidateRelease(w: Checks, r: Release) returns (error: Option<ReleaseError>)
    ensures error.None? <==> ValidRelease(w, r)
    ensures error.Some? ==> Justified(w, r, error.value)
  {
    if |r.agents| < 1 || |r.agents| > MAX_AGENTS {
      return Some(AgentCount);
    }
    error := CheckAgents(w, r.agents);
    if error.Some? {
      return;
    }
    error := CheckEntry(w, r);
    if error.Some? {
      return;
    }
    error := CheckGraph(r);
  }

  /** The entry's walk, and that it leaves no agent unvisited. */
  method CheckGraph(r: Release) returns (error: Option<ReleaseError>)
    requires r.entry.kind.AgentKind? ==> r.entry.id in r.agents
    requires r.entry.kind.WorkflowKind? ==> r.workflow.Some?
    ensures error == match EntryWalk(r)
                     case Err(e) => Some(BadGraph(e))
                     case Ok(v) => if v == r.agents.Keys then None else Some(UnreachableAgents(r.agents.Keys - v))
    ensures error.Some? && error.value.UnreachableAgents? ==> error.value.ids != {}
  {
    var walker := new ReleaseWalker(r.agents);
    var bad;
    if r.entry.kind.AgentKind? {
      bad := walker.WalkAgent(r.entry.id, 0);
    } else {
      bad := walker.CheckReferences(StepRefs(r.workflow.value.manifest.steps), 0);
    }
    if bad.Some? {
      return Some(BadGraph(bad.value));
    }
    EntryVisits(r);
    if walker.visited != r.agents.Keys {
      assert r.agents.Keys == walker.visited + (r.agents.Keys - walker.visited);
      return Some(UnreachableAgents(r.agents.Keys - walker.visited));
    }
    return None;
  }

  lemma EntryVisits(r: Release)
    requires r.entry.kind.AgentKind? ==> r.entry.id in r.agents
    requires r.entry.kind.WorkflowKind? ==> r.workflow.Some?
    ensures EntryWalk(r).Ok? ==> EntryWalk(r).value <= r.agents.Keys
  {
    if EntryWalk(r).Ok? {
      var order := EntryExplored(r);
      forall id | id in EntryWalk(r).value ensures id in r.agents {
        assert id in Elems(order);
      }
    }
  }

  /** Every agent without references that passes the agent checks is a release of its own. */
  lemma LeafRelease(w: Checks, m: AgentManifest)
    requires AgentRefs(m) == [] && AgentOk(w, m.identity.id, AgentRecord(w.hash(AgentArtifact(m)), m))
    ensures var sha := w.hash(AgentArtifact(m));
            var agents := map[m.identity.id := AgentRecord(sha, m)];
            ValidRelease(w, Release(m.identity, Entry(AgentKind, m.identity.id, sha), agents, None))
  {
    var id, sha := m.identity.id, w.hash(AgentArtifact(m));
    var agents := map[id := AgentRecord(sha, m)];
    assert RefsOf(agents, id) == [] && CheckRefs(agents, [], 0, {id}, {}) == Ok({});
    assert Walk(agents, id, 0, {}, {}) == Ok({id});
    assert agents.Keys == {id} && |agents| == 1;
  }
}
