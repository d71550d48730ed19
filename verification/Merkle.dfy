/** A release is a Merkle graph: its entry digest fixes everything in it. */
module Merkle {
  import opened Graphs
  import opened Manifests
  import opened Releases

  ghost predicate Hashed(w: Checks, agents: Agents) {
    forall id :: id in agents ==> w.hash(AgentArtifact(agents[id].manifest)) == agents[id].sha256
  }

  /** No two different manifests of the two closures share a digest. */
  ghost predicate NoCollision(w: Checks, r1: Release, r2: Release) {
    forall a, b :: Contains(r1, a) && Contains(r2, b) && w.hash(a) == w.hash(b) ==> a == b
  }

  ghost predicate Contains(r: Release, a: Artifact) {
    match a
    case AgentArtifact(m) => exists id :: id in r.agents && r.agents[id].manifest == m
    case WorkflowArtifact(m) => r.workflow.Some? && r.workflow.value.manifest == m
  }

  lemma SameDigestSameRecord(w: Checks, r1: Release, r2: Release, id: Id)
    requires Hashed(w, r1.agents) && Hashed(w, r2.agents) && NoCollision(w, r1, r2)
    requires id in r1.agents && id in r2.agents && r1.agents[id].sha256 == r2.agents[id].sha256
    ensures r1.agents[id] == r2.agents[id]
  {
    assert Contains(r1, AgentArtifact(r1.agents[id].manifest));
    assert Contains(r2, AgentArtifact(r2.agents[id].manifest));
  }

  lemma SamePins(w: Checks, r1: Release, r2: Release, a: Id, b: Id)
    requires Closure(r1.agents) && Closure(r2.agents)
    requires a in r1.agents && a in r2.agents && r1.agents[a] == r2.agents[a]
    requires Edge(RefGraph(r1.agents), a, b)
    ensures b in r1.agents && b in r2.agents && r1.agents[b].sha256 == r2.agents[b].sha256
  {
    var refs := RefsOf(r1.agents, a);
    assert refs == RefsOf(r2.agents, a);
    var i :| 0 <= i < |refs| && Targets(refs)[i] == b;
    assert Resolved(r1.agents, refs[i]) && Resolved(r2.agents, refs[i]);
  }

  lemma {:induction false} SameAlong(w: Checks, r1: Release, r2: Release, p: seq<Id>)
    requires Closure(r1.agents) && Closure(r2.agents)
    requires Hashed(w, r1.agents) && Hashed(w, r2.agents) && NoCollision(w, r1, r2)
    requires IsPath(RefGraph(r1.agents), p) && p[0] in r1.agents && p[0] in r2.agents
    requires r1.agents[p[0]].sha256 == r2.agents[p[0]].sha256
    ensures var b := p[|p| - 1]; b in r1.agents && b in r2.agents && r1.agents[b] == r2.agents[b]
    decreases |p|
  {
    SameDigestSameRecord(w, r1, r2, p[0]);
    if |p| > 1 {
      assert Edge(RefGraph(r1.agents), p[0], p[1]);
      SamePins(w, r1, r2, p[0], p[1]);
      PathSlice(RefGraph(r1.agents), p, 1, |p|);
      SameAlong(w, r1, r2, p[1..]);
    }
  }

  /** The first references of the entry are the same agents with the same digests. */
  lemma SameRoots(w: Checks, r1: Release, r2: Release, a: Id)
    requires ValidRelease(w, r1) && ValidRelease(w, r2) && Sealed(r1) && Sealed(r2)
    requires r1.entry == r2.entry && NoCollision(w, r1, r2) && a in Roots(r1)
    ensures a in r1.agents && a in r2.agents && r1.agents[a].sha256 == r2.agents[a].sha256
    ensures r1.workflow == r2.workflow
  {
    hide NoCollision, Closure, Acyclic, Embedded, AgentOk, WorkflowOk, EntryWalk;
    if r1.entry.kind.WorkflowKind? {
      SameWorkflow(w, r1, r2);
      var steps := r1.workflow.value.manifest.steps;
      var i :| 0 <= i < |steps| && steps[i].agentId == a;
      assert Resolved(r1.agents, StepRefs(steps)[i]) && Resolved(r2.agents, StepRefs(steps)[i]);
    }
  }

  lemma SameWorkflow(w: Checks, r1: Release, r2: Release)
    requires EntryOk(w, r1) && EntryOk(w, r2) && r1.entry == r2.entry && NoCollision(w, r1, r2)
    ensures r1.workflow == r2.workflow
  {
    if r1.entry.kind.WorkflowKind? {
      assert Contains(r1, WorkflowArtifact(r1.workflow.value.manifest));
      assert Contains(r2, WorkflowArtifact(r2.workflow.value.manifest));
    }
  }

  lemma SubRelease(w: Checks, r1: Release, r2: Release, id: Id)
    requires ValidRelease(w, r1) && ValidRelease(w, r2) && Sealed(r1) && Sealed(r2)
    requires r1.entry == r2.entry && NoCollision(w, r1, r2) && id in r1.agents
    ensures id in r2.agents && r1.agents[id] == r2.agents[id]
  {
    assert Embedded(r1, id);
    var a :| a in Roots(r1) && Reach(RefGraph(r1.agents), a, id);
    SameRoots(w, r1, r2, a);
    var p :| PathFrom(RefGraph(r1.agents), a, p) && p[|p| - 1] == id;
    SameAlong(w, r1, r2, p);
  }

  lemma ValidIsSealed(w: Checks, r: Release)
    requires ValidRelease(w, r)
    ensures EntryOk(w, r) && Sealed(r) && Hashed(w, r.agents)
  {
    var _ := AcceptedIsSealed(w, r);
  }

  /** The identity is the entry manifest's own. */
  lemma IdentityFixed(w: Checks, r1: Release, r2: Release)
    requires EntryOk(w, r1) && EntryOk(w, r2) && r1.entry == r2.entry && r1.workflow == r2.workflow
    ensures r1.agents == r2.agents ==> r1.identity == r2.identity
  {
  }

  lemma CollisionFreeBothWays(w: Checks, r1: Release, r2: Release)
    requires NoCollision(w, r1, r2)
    ensures NoCollision(w, r2, r1)
  {
  }

  /** Two accepted releases with the same entry kind, id and digest are equal as a
      whole, unless their manifests exhibit a hash collision. */
  lemma EntryDeterminesRelease(w: Checks, r1: Release, r2: Release)
    requires ValidRelease(w, r1) && ValidRelease(w, r2) && r1.entry == r2.entry
    requires NoCollision(w, r1, r2)
    ensures r1 == r2
  {
    hide ValidRelease, Sealed, Hashed, NoCollision, EntryOk, EntryWalk;
    ValidIsSealed(w, r1);
    ValidIsSealed(w, r2);
    CollisionFreeBothWays(w, r1, r2);
    SameWorkflow(w, r1, r2);
    IdentityFixed(w, r1, r2);
    forall id | id in r1.agents || id in r2.agents
      ensures id in r1.agents && id in r2.agents && r1.agents[id] == r2.agents[id]
    {
      if id in r1.agents {
        SubRelease(w, r1, r2, id);
      } else {
        SubRelease(w, r2, r1, id);
      }
    }
    assert r1.agents == r2.agents;
  }
}
