/** What a valid release is, told on its entries: no digest, identity, reference or path is
    left to the walk. */
module ReleaseMeaning {
  import opened Wrappers
  import opened Graphs
  import opened WorkflowDag
  import opened Manifests
  import opened Releases
  import ReferenceOrder

  // ----- chains of references

  ghost predicate Uses(r: Release, a: Id, b: Id) {
    a in r.agents && exists p :: p in r.agents[a].manifest.providers && p.SubAgent? && p.agentId == b
  }

  ghost predicate StartsAt(r: Release, id: Id) {
    match r.entry.kind
    case AgentKind => id == r.entry.id
    case WorkflowKind => r.workflow.Some? && exists s :: s in r.workflow.value.manifest.steps && s.agentId == id
  }

  /** From the entry along references, agent by agent. */
  ghost predicate IsChain(r: Release, ids: seq<Id>) {
    |ids| > 0 && StartsAt(r, ids[0]) && forall i :: 0 <= i < |ids| - 1 ==> Uses(r, ids[i], ids[i + 1])
  }

  /** The number of references followed to the end of the chain. */
  function References(r: Release, ids: seq<Id>): int {
    if r.entry.kind.AgentKind? then |ids| - 1 else |ids|
  }

  // ----- the conditions

  /** Under a valid identifier that is the manifest's own, with the manifest's digest; the
      manifest is valid and fit for production. */
  ghost predicate RecordOk(w: Checks, r: Release, id: Id)
    requires id in r.agents
  {
    && IsIdentifier(id)
    && r.agents[id].manifest.identity.id == id
    && r.agents[id].sha256 == w.hash(AgentArtifact(r.agents[id].manifest))
    && ManifestOk(w, r.agents[id].manifest)
    && ProductionOk(w, r.agents[id].manifest)
  }

  /** The entry names what the release holds, by identity and digest. */
  ghost predicate EntryAgrees(w: Checks, r: Release) {
    && r.entry.id == r.identity.id
    && match r.entry.kind
       case AgentKind =>
         && r.workflow.None?
         && r.entry.id in r.agents
         && r.entry.sha256 == r.agents[r.entry.id].sha256
         && r.identity == r.agents[r.entry.id].manifest.identity
       case WorkflowKind =>
         && r.workflow.Some?
         && r.entry.sha256 == r.workflow.value.sha256
         && r.entry.sha256 == w.hash(WorkflowArtifact(r.workflow.value.manifest))
         && r.identity == r.workflow.value.manifest.identity
         && WorkflowInForm(r.workflow.value.manifest)
  }

  /** 1 to 256 steps with valid names, distinct dependencies of known steps, no step named
      like the input, no cycle, and a known output. */
  ghost predicate WorkflowInForm(m: WorkflowManifest) {
    && IsIdentifier(m.identity.id) && |m.identity.id| <= 128
    && 1 <= |m.steps| <= 256
    && (forall s :: s in m.steps ==>
          && IsIdentifier(s.id) && |s.id| <= 128 && IsIdentifier(s.agentId) && |s.agentId| <= 128
          && s.id != "input" && Distinct(s.dependsOn)
          && forall d :: d in s.dependsOn ==> exists t :: t in m.steps && t.id == d)
    && (forall i, j :: 0 <= i < j < |m.steps| ==> m.steps[i].id != m.steps[j].id)
    && (forall ks: seq<nat> :: !IsStepCycle(m.steps, ks))
    && (m.output.Some? ==> exists s :: s in m.steps && s.id == m.output.value)
  }

  /** Step by step from one that needs the next, back to the first. */
  ghost predicate IsStepCycle(steps: seq<Step>, ks: seq<nat>) {
    && |ks| >= 2 && ks[0] == ks[|ks| - 1]
    && (forall i :: 0 <= i < |ks| ==> ks[i] < |steps|)
    && forall i :: 0 <= i < |ks| - 1 ==> steps[ks[i + 1]].id in steps[ks[i]].dependsOn
  }

  ghost predicate PinnedTo(r: Release, agentId: Id, pin: Option<Digest>) {
    agentId in r.agents && pin == Some(r.agents[agentId].sha256)
  }

  ghost predicate AllPinned(r: Release) {
    && (forall id, p :: id in r.agents && p in r.agents[id].manifest.providers && p.SubAgent? ==>
          PinnedTo(r, p.agentId, p.pin))
    && (r.entry.kind.WorkflowKind? && r.workflow.Some? ==>
          forall s :: s in r.workflow.value.manifest.steps ==> PinnedTo(r, s.agentId, s.pin))
  }

  ghost predicate InForm(w: Checks, r: Release) {
    && 1 <= |r.agents| <= 256
    && (forall id :: id in r.agents ==> RecordOk(w, r, id))
    && EntryAgrees(w, r)
    && AllPinned(r)
    && (forall ids :: IsChain(r, ids) ==> Distinct(ids))
    && (forall id :: id in r.agents ==> exists ids :: IsChain(r, ids) && ids[|ids| - 1] == id)
  }

  // ----- records and the entry

  lemma RecordIff(w: Checks, r: Release, id: Id)
    requires id in r.agents
    ensures AgentOk(w, id, r.agents[id]) <==> RecordOk(w, r, id)
  {
  }

  lemma StepCycles(steps: seq<Step>)
    requires Distinct(Ids(steps)) && KnownDependencies(steps)
    ensures Acyclic(Dependencies(steps)) <==> forall ks: seq<nat> :: !IsStepCycle(steps, ks)
  {
    var g := Dependencies(steps);
    if ks: seq<nat> :| IsStepCycle(steps, ks) {
      var p := seq(|ks|, i requires 0 <= i < |ks| => steps[ks[i]].id);
      forall i | 0 <= i < |p| - 1 ensures Edge(g, p[i], p[i + 1]) {
        DependenciesOf(steps, ks[i]);
      }
      assert IsCycle(g, p);
    }
    if p :| IsCycle(g, p) {
      var ks := CycleSteps(steps, p);
    }
  }

  lemma CycleSteps(steps: seq<Step>, p: seq<Id>) returns (ks: seq<nat>)
    requires Distinct(Ids(steps)) && KnownDependencies(steps) && IsCycle(Dependencies(steps), p)
    ensures IsStepCycle(steps, ks)
  {
    var g := Dependencies(steps);
    forall i | 0 <= i < |p| ensures p[i] in StepIds(steps) {
      if i < |p| - 1 {
        assert Edge(g, p[i], p[i + 1]);
      } else {
        assert Edge(g, p[0], p[1]);
      }
    }
    ks := seq(|p|, i requires 0 <= i < |p| => IndexOf(steps, p[i]));
    forall i | 0 <= i < |ks| - 1 ensures steps[ks[i + 1]].id in steps[ks[i]].dependsOn {
      assert Edge(g, p[i], p[i + 1]);
      DependenciesOf(steps, ks[i]);
    }
  }

  /** The verdict of the cycle check and its companions, told on the steps. */
  lemma AcceptedIff(steps: seq<Step>, output: Option<Id>)
    ensures Accepted(steps, output) <==>
            && (forall s :: s in steps ==>
                  s.id != "input" && forall d :: d in s.dependsOn ==> exists t :: t in steps && t.id == d)
            && (forall i, j :: 0 <= i < j < |steps| ==> steps[i].id != steps[j].id)
            && (forall ks: seq<nat> :: !IsStepCycle(steps, ks))
            && (output.Some? ==> exists s :: s in steps && s.id == output.value)
  {
    hide IsStepCycle, Acyclic, StepIds, KnownDependencies, Ids, Distinct;
    forall id ensures id in StepIds(steps) <==> exists s :: s in steps && s.id == id {
      StepIdIff(steps, id);
    }
    KnownIff(steps);
    DistinctIff(steps);
    if Distinct(Ids(steps)) && KnownDependencies(steps) {
      StepCycles(steps);
    }
  }

  lemma DistinctIff(steps: seq<Step>)
    ensures Distinct(Ids(steps)) <==> forall i, j :: 0 <= i < j < |steps| ==> steps[i].id != steps[j].id
  {
    assert forall i :: 0 <= i < |steps| ==> Ids(steps)[i] == steps[i].id;
  }

  lemma WorkflowIff(m: WorkflowManifest)
    ensures WorkflowOk(m) <==> WorkflowInForm(m)
  {
    hide IsIdentifier, IsStepCycle, Accepted, Verdict;
    VerdictIsAccepted(m.steps, m.output);
    AcceptedIff(m.steps, m.output);
    forall s | s in m.steps ensures |Elems(s.dependsOn)| == |s.dependsOn| <==> Distinct(s.dependsOn) {
      DistinctSize(s.dependsOn);
    }
  }

  lemma StepIdIff(steps: seq<Step>, id: Id)
    ensures id in StepIds(steps) <==> exists s :: s in steps && s.id == id
  {
  }

  lemma KnownIff(steps: seq<Step>)
    ensures KnownDependencies(steps) <==>
            forall s :: s in steps ==> forall d :: d in s.dependsOn ==> exists t :: t in steps && t.id == d
  {
    if KnownDependencies(steps) {
      forall s, d | s in steps && d in s.dependsOn ensures exists t :: t in steps && t.id == d {
        StepIdIff(steps, d);
      }
    }
    if forall s :: s in steps ==> forall d :: d in s.dependsOn ==> exists t :: t in steps && t.id == d {
      forall i, d | 0 <= i < |steps| && d in steps[i].dependsOn ensures d in StepIds(steps) {
        assert steps[i] in steps;
        StepIdIff(steps, d);
      }
    }
  }

  lemma EntryIff(w: Checks, r: Release)
    ensures EntryOk(w, r) <==> EntryAgrees(w, r)
  {
    hide WorkflowOk, WorkflowInForm;
    if r.workflow.Some? {
      WorkflowIff(r.workflow.value.manifest);
    }
  }

  // ----- the graph

  lemma EdgeIff(r: Release, a: Id, b: Id)
    ensures Edge(RefGraph(r.agents), a, b) <==> Uses(r, a, b)
  {
    if a in r.agents {
      var refs, ps := RefsOf(r.agents, a), r.agents[a].manifest.providers;
      assert b in Targets(refs) <==> exists ref :: ref in refs && ref.agentId == b by {
        TargetsIff(refs, b);
      }
      if p :| p in ps && p.SubAgent? && p.agentId == b {
        RefsAreSubAgents(ps, Ref(p.agentId, p.pin));
      }
      if ref :| ref in refs && ref.agentId == b {
        RefsAreSubAgents(ps, ref);
      }
    }
  }

  lemma TargetsIff(refs: seq<Ref>, b: Id)
    ensures b in Targets(refs) <==> exists ref :: ref in refs && ref.agentId == b
  {
    if ref :| ref in refs && ref.agentId == b {
      var i :| 0 <= i < |refs| && refs[i] == ref;
      assert Targets(refs)[i] == b;
    }
  }

  lemma RootIff(r: Release, a: Id)
    requires r.entry.kind.WorkflowKind? ==> r.workflow.Some?
    ensures a in Roots(r) <==> StartsAt(r, a)
  {
    if r.entry.kind.WorkflowKind? {
      var steps := r.workflow.value.manifest.steps;
      if s :| s in steps && s.agentId == a {
        var i :| 0 <= i < |steps| && steps[i] == s;
      }
    }
  }

  /** Chains are the paths of the reference graph from its roots. */
  lemma ChainIff(r: Release, ids: seq<Id>)
    requires r.entry.kind.WorkflowKind? ==> r.workflow.Some?
    ensures IsChain(r, ids) <==> IsPath(RefGraph(r.agents), ids) && ids[0] in Roots(r)
  {
    hide Uses, StartsAt, Roots, RefGraph, Edge;
    forall i | 0 <= i < |ids| - 1
      ensures Edge(RefGraph(r.agents), ids[i], ids[i + 1]) <==> Uses(r, ids[i], ids[i + 1])
    {
      EdgeIff(r, ids[i], ids[i + 1]);
    }
    if |ids| > 0 {
      RootIff(r, ids[0]);
    }
  }

  lemma EmbeddedIff(r: Release, id: Id)
    requires r.entry.kind.WorkflowKind? ==> r.workflow.Some?
    ensures Embedded(r, id) <==> exists ids :: IsChain(r, ids) && ids[|ids| - 1] == id
  {
    hide RefGraph, Roots, IsChain;
    if Embedded(r, id) {
      var a :| a in Roots(r) && Reach(RefGraph(r.agents), a, id);
      var ids :| PathFrom(RefGraph(r.agents), a, ids) && ids[|ids| - 1] == id;
      ChainIff(r, ids);
    }
    forall ids | |ids| > 0 && IsChain(r, ids) && ids[|ids| - 1] == id ensures Embedded(r, id) {
      ChainIff(r, ids);
      assert PathFrom(RefGraph(r.agents), ids[0], ids);
    }
    NotEmpty(r);
  }

  lemma NotEmpty(r: Release)
    ensures forall ids :: IsChain(r, ids) ==> |ids| > 0
  {
  }

  /** When everything is on a chain, no chain repeats an agent exactly when there is no cycle. */
  lemma OnceIff(r: Release)
    requires r.entry.kind.WorkflowKind? ==> r.workflow.Some?
    requires forall id :: id in r.agents ==> exists ids :: IsChain(r, ids) && ids[|ids| - 1] == id
    ensures Acyclic(RefGraph(r.agents)) <==> forall ids :: IsChain(r, ids) ==> Distinct(ids)
  {
    hide RefGraph, Roots, IsChain, Edge;
    var g := RefGraph(r.agents);
    if Acyclic(g) {
      forall ids | IsChain(r, ids) ensures Distinct(ids) {
        ChainIff(r, ids);
        if i, j :| 0 <= i < j < |ids| && ids[i] == ids[j] {
          RepeatIsCycle(g, ids, i, j);
        }
      }
    }
    if forall ids :: IsChain(r, ids) ==> Distinct(ids) {
      forall p ensures !IsCycle(g, p) {
        if IsCycle(g, p) {
          var ids := RepeatingChain(r, p);
        }
      }
    }
  }

  lemma RepeatingChain(r: Release, p: seq<Id>) returns (ids: seq<Id>)
    requires r.entry.kind.WorkflowKind? ==> r.workflow.Some?
    requires forall id :: id in r.agents ==> exists ids :: IsChain(r, ids) && ids[|ids| - 1] == id
    requires IsCycle(RefGraph(r.agents), p)
    ensures IsChain(r, ids) && !Distinct(ids)
  {
    hide Roots, StartsAt, Uses;
    var g := RefGraph(r.agents);
    assert Edge(g, p[0], p[1]);
    var before :| IsChain(r, before) && before[|before| - 1] == p[0];
    NotEmpty(r);
    ChainIff(r, before);
    ids := before + p[1..];
    forall i | 0 <= i < |ids| - 1 ensures Edge(g, ids[i], ids[i + 1]) {
      if i >= |before| - 1 {
        var k := i - (|before| - 1);
        assert ids[i] == p[k] && ids[i + 1] == p[k + 1];
        assert Edge(g, p[k], p[k + 1]);
      } else {
        assert ids[i] == before[i] && ids[i + 1] == before[i + 1];
        assert Edge(g, before[i], before[i + 1]);
      }
    }
    ChainIff(r, ids);
    assert ids[|before| - 1] == p[0] == ids[|ids| - 1];
  }

  lemma PinnedIff(r: Release)
    requires r.entry.kind.WorkflowKind? ==> r.workflow.Some?
    requires forall id :: id in r.agents ==> IsIdentifier(id)
    requires r.entry.kind.AgentKind? ==> r.entry.id in r.agents
    ensures Closure(r.agents) && EntryResolved(r) <==> AllPinned(r)
  {
    hide IsIdentifier, ProviderRefs;
    forall id, ref | id in r.agents
      ensures ref in RefsOf(r.agents, id) <==>
              exists p :: p in r.agents[id].manifest.providers && p.SubAgent? && ref == Ref(p.agentId, p.pin)
    {
      RefsAreSubAgents(r.agents[id].manifest.providers, ref);
    }
    forall agentId, pin ensures Resolved(r.agents, Ref(agentId, pin)) <==> PinnedTo(r, agentId, pin) {
    }
    ClosurePinned(r);
    if r.entry.kind.WorkflowKind? {
      StepsPinned(r, r.workflow.value.manifest.steps);
    }
  }

  lemma ClosurePinned(r: Release)
    requires forall id :: id in r.agents ==> IsIdentifier(id)
    ensures Closure(r.agents) <==>
            forall id, p :: id in r.agents && p in r.agents[id].manifest.providers && p.SubAgent? ==>
                              PinnedTo(r, p.agentId, p.pin)
  {
    hide IsIdentifier, ProviderRefs;
    if Closure(r.agents) {
      forall id, p | id in r.agents && p in r.agents[id].manifest.providers && p.SubAgent?
        ensures PinnedTo(r, p.agentId, p.pin)
      {
        RefsAreSubAgents(r.agents[id].manifest.providers, Ref(p.agentId, p.pin));
        assert AllResolved(r.agents, RefsOf(r.agents, id));
        var i :| 0 <= i < |RefsOf(r.agents, id)| && RefsOf(r.agents, id)[i] == Ref(p.agentId, p.pin);
        assert Resolved(r.agents, RefsOf(r.agents, id)[i]);
      }
    }
    if forall id, p :: id in r.agents && p in r.agents[id].manifest.providers && p.SubAgent? ==>
                         PinnedTo(r, p.agentId, p.pin) {
      forall id, i | id in r.agents && 0 <= i < |RefsOf(r.agents, id)|
        ensures Resolved(r.agents, RefsOf(r.agents, id)[i])
      {
        var ref := RefsOf(r.agents, id)[i];
        RefsAreSubAgents(r.agents[id].manifest.providers, ref);
        assert ref in RefsOf(r.agents, id);
      }
    }
  }

  lemma StepsPinned(r: Release, steps: seq<Step>)
    requires forall id :: id in r.agents ==> IsIdentifier(id)
    ensures AllResolved(r.agents, StepRefs(steps)) <==> forall s :: s in steps ==> PinnedTo(r, s.agentId, s.pin)
  {
    hide IsIdentifier;
    if AllResolved(r.agents, StepRefs(steps)) {
      forall s | s in steps ensures PinnedTo(r, s.agentId, s.pin) {
        var i :| 0 <= i < |steps| && steps[i] == s;
        assert Resolved(r.agents, StepRefs(steps)[i]);
      }
    }
  }

  // ----- validity

  lemma ConsistentMeans(w: Checks, r: Release)
    ensures ReferenceOrder.Consistent(w, r) <==> InForm(w, r)
  {
    hide AgentOk, RecordOk, EntryOk, EntryAgrees, StartsAt, Uses, AllPinned, Acyclic, Closure, EntryResolved, Embedded;
    forall id | id in r.agents ensures AgentOk(w, id, r.agents[id]) <==> RecordOk(w, r, id) {
      RecordIff(w, r, id);
    }
    EntryIff(w, r);
    if EntryAgrees(w, r) && forall id :: id in r.agents ==> RecordOk(w, r, id) {
      EntryHolds(w, r);
      PinnedIff(r);
      forall id | id in r.agents
        ensures Embedded(r, id) <==> exists ids :: IsChain(r, ids) && ids[|ids| - 1] == id
      {
        EmbeddedIff(r, id);
      }
      if forall id :: id in r.agents ==> exists ids :: IsChain(r, ids) && ids[|ids| - 1] == id {
        OnceIff(r);
      }
    }
  }

  lemma EntryHolds(w: Checks, r: Release)
    requires EntryAgrees(w, r) && forall id :: id in r.agents ==> RecordOk(w, r, id)
    ensures r.entry.kind.WorkflowKind? ==> r.workflow.Some?
    ensures r.entry.kind.AgentKind? ==> r.entry.id in r.agents
    ensures forall id :: id in r.agents ==> IsIdentifier(id)
  {
    hide IsIdentifier, ManifestOk, ProductionOk, WorkflowInForm;
  }

  /** No valid release but one in form, and below the depth limit all of them. */
  lemma ValidIff(w: Checks, r: Release)
    ensures ValidRelease(w, r) ==> InForm(w, r)
    ensures InForm(w, r) && (forall ids :: IsChain(r, ids) ==> References(r, ids) <= 64) ==> ValidRelease(w, r)
  {
    hide ValidRelease, ReferenceOrder.Consistent, InForm, IsChain, EntryWalk;
    ConsistentMeans(w, r);
    ReferenceOrder.ConsistentIff(w, r);
    if InForm(w, r) && forall ids :: IsChain(r, ids) ==> References(r, ids) <= 64 {
      InFormWalks(w, r);
    }
  }

  lemma InFormWalks(w: Checks, r: Release)
    requires ReferenceOrder.Consistent(w, r) && forall ids :: IsChain(r, ids) ==> References(r, ids) <= 64
    ensures EntryWalk(r) == Ok(r.agents.Keys)
  {
    hide AgentOk, EntryWalk, IsChain, RefGraph, Roots;
    forall a, p | a in Roots(r) && PathFrom(RefGraph(r.agents), a, p) ensures |p| - 1 + BaseDepth(r) <= MAX_DEPTH {
      ChainIff(r, p);
    }
    SealedIsAccepted(r);
  }
}
