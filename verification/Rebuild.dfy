/** Building from the sealed snapshot of a release gives the same release back. */
module Rebuild {
  import opened Wrappers
  import opened Graphs
  import opened WorkflowDag
  import opened Manifests
  import opened Releases
  import opened ReleaseBuilder
  import Approval

  /** The locked manifests written side by side in one directory. */
  ghost predicate Snapshot(f: Files, dir: Dir, agents: Agents) {
    forall id :: id in agents ==> Resolve(f, dir, id) == Some(SnapshotFile(dir, agents, id))
  }

  function SnapshotFile(dir: Dir, agents: Agents, id: Id): Source
    requires id in agents
  {
    Source(Some(agents[id].manifest), dir)
  }

  ghost predicate Releasable(f: Files, agents: Agents) {
    && |agents| <= MAX_AGENTS
    && Closure(agents)
    && forall id {:trigger agents[id]} :: id in agents ==> AgentOk(f.checks, id, agents[id])
  }

  /** The builder's tables after re-reading `done` while `active` is being read. */
  function Tables(agents: Agents, done: set<Id>, active: set<Id>): Build {
    Build(map id | id in agents && id in done :: agents[id],
          map id | id in agents && (id in done || id in active) :: agents[id].sha256)
  }

  lemma ReMark(f: Files, agents: Agents, done: set<Id>, active: set<Id>, id: Id)
    requires id in agents && AgentOk(f.checks, id, agents[id])
    ensures var raw := agents[id].manifest;
            var st := ReleaseBuilder.Mark(f, Tables(agents, done, active), raw);
            st == if id in done then Tables(agents, done, active) else Tables(agents, done, active + {id})
  {
  }

  lemma FewSources(agents: Agents, done: set<Id>, active: set<Id>)
    ensures |Tables(agents, done, active).sources| <= |agents|
  {
    var s := Tables(agents, done, active).sources;
    SubsetSize(s.Keys, agents.Keys);
    assert |s| == |s.Keys| && |agents| == |agents.Keys|;
  }

  /** A locked manifest's own pins are the digests of its locked children. */
  function OwnPins(agents: Agents, refs: seq<Ref>): (pins: seq<Digest>)
    requires AllResolved(agents, refs)
    ensures |pins| == |refs|
  {
    if refs == [] then []
    else
      assert Resolved(agents, refs[0]);
      assert forall i :: 0 <= i < |refs[1..]| ==> refs[1..][i] == refs[i + 1];
      [agents[refs[0].agentId].sha256] + OwnPins(agents, refs[1..])
  }

  lemma {:induction false} OwnPinsAt(agents: Agents, refs: seq<Ref>)
    requires AllResolved(agents, refs)
    ensures forall i :: 0 <= i < |refs| ==> refs[i].pin == Some(OwnPins(agents, refs)[i])
  {
    if refs != [] {
      assert Resolved(agents, refs[0]);
      assert forall i :: 0 <= i < |refs[1..]| ==> refs[1..][i] == refs[i + 1];
      OwnPinsAt(agents, refs[1..]);
    }
  }

  lemma Relock(f: Files, agents: Agents, id: Id)
    requires id in agents && AllResolved(agents, RefsOf(agents, id)) && AgentOk(f.checks, id, agents[id])
    ensures ReleaseBuilder.Lock(f, agents[id].manifest, OwnPins(agents, RefsOf(agents, id))) == agents[id]
  {
    OwnPinsAt(agents, RefsOf(agents, id));
    PinProvidersSame(agents[id].manifest.providers, OwnPins(agents, RefsOf(agents, id)));
  }

  lemma Readmitted(f: Files, dir: Dir, agents: Agents, id: Id, expected: Option<Id>, depth: nat, active: set<Id>,
                   done: set<Id>)
    requires Releasable(f, agents) && id in agents && (expected == None || expected == Some(id))
    requires depth <= MAX_DEPTH && id !in active
    ensures Enter(f, SnapshotFile(dir, agents, id), expected, depth, active, Tables(agents, done, active)).None?
  {
    assert AgentOk(f.checks, id, agents[id]);
    FewSources(agents, done, active + {id});
    ReMark(f, agents, done, active, id);
  }

  /** A walk never enters an agent that is being visited. */
  lemma {:induction false} WalkAvoids(agents: Agents, id: Id, depth: nat, active: set<Id>, done: set<Id>)
    requires id in agents && depth <= MAX_DEPTH + 1 && active !! done && Walk(agents, id, depth, active, done).Ok?
    ensures active !! Walk(agents, id, depth, active, done).value
    decreases MAX_DEPTH + 1 - depth, 1, 0
  {
    if id !in done {
      RefsAvoid(agents, RefsOf(agents, id), depth, active + {id}, done);
    }
  }

  lemma {:induction false} RefsAvoid(agents: Agents, refs: seq<Ref>, depth: nat, active: set<Id>, done: set<Id>)
    requires depth <= MAX_DEPTH && active !! done && CheckRefs(agents, refs, depth, active, done).Ok?
    ensures active !! CheckRefs(agents, refs, depth, active, done).value
    decreases MAX_DEPTH + 1 - depth, 0, |refs|
  {
    if refs != [] {
      WalkAvoids(agents, refs[0].agentId, depth + 1, active, done);
      RefsAvoid(agents, refs[1..], depth, active, Walk(agents, refs[0].agentId, depth + 1, active, done).value);
    }
  }

  lemma {:induction false} VisitAgain(f: Files, dir: Dir, agents: Agents, id: Id, expected: Option<Id>, depth: nat,
                                      active: set<Id>, done: set<Id>)
    requires Releasable(f, agents) && Snapshot(f, dir, agents)
    requires id in agents && (expected == None || expected == Some(id)) && depth <= MAX_DEPTH + 1
    requires Walk(agents, id, depth, active, done).Ok? && active !! done
    ensures Visit(f, SnapshotFile(dir, agents, id), expected, depth, active, Tables(agents, done, active))
         == Ok((agents[id], Tables(agents, Walk(agents, id, depth, active, done).value, active)))
    decreases MAX_DEPTH + 1 - depth, 1, 0
  {
    var raw := agents[id].manifest;
    assert AgentOk(f.checks, id, agents[id]) && AllResolved(agents, RefsOf(agents, id));
    Readmitted(f, dir, agents, id, expected, depth, active, done);
    ReMark(f, agents, done, active, id);
    if id !in done {
      var below := CheckRefs(agents, RefsOf(agents, id), depth, active + {id}, done).value;
      RefsAgain(f, dir, agents, RefsOf(agents, id), depth, active + {id}, done);
      Relock(f, agents, id);
      AddBack(f, agents, id, active, below);
    }
  }

  lemma AddBack(f: Files, agents: Agents, id: Id, active: set<Id>, below: set<Id>)
    requires id in agents && AllResolved(agents, RefsOf(agents, id)) && AgentOk(f.checks, id, agents[id])
    ensures AddAgent(f, Tables(agents, below, active + {id}), agents[id].manifest, OwnPins(agents, RefsOf(agents, id)))
         == Tables(agents, below + {id}, active)
  {
    Relock(f, agents, id);
  }

  lemma {:induction false} RefsAgain(f: Files, dir: Dir, agents: Agents, refs: seq<Ref>, depth: nat, active: set<Id>,
                                     done: set<Id>)
    requires Releasable(f, agents) && Snapshot(f, dir, agents) && AllResolved(agents, refs) && depth <= MAX_DEPTH
    requires CheckRefs(agents, refs, depth, active, done).Ok? && active !! done
    ensures PinRefs(f, refs, dir, depth, active, Tables(agents, done, active))
         == Ok((OwnPins(agents, refs), Tables(agents, CheckRefs(agents, refs, depth, active, done).value, active)))
    decreases MAX_DEPTH + 1 - depth, 0, |refs|
  {
    hide Visit, PinRefs, Walk, CheckRefs, Releasable, Tables;
    if refs == [] {
      RefsNone(f, dir, agents, depth, active, done);
    } else {
      RestResolved(agents, refs);
      var id := refs[0].agentId;
      var below, after := UnfoldRefs(agents, refs, depth, active, done);
      WalkAvoids(agents, id, depth + 1, active, done);
      VisitAgain(f, dir, agents, id, Some(id), depth + 1, active, done);
      RefsAgain(f, dir, agents, refs[1..], depth, active, below);
      PinsAgain(f, dir, agents, refs, depth, active, done, below, after);
    }
  }

  lemma RefsNone(f: Files, dir: Dir, agents: Agents, depth: nat, active: set<Id>, done: set<Id>)
    requires depth <= MAX_DEPTH
    ensures CheckRefs(agents, [], depth, active, done) == Ok(done)
    ensures PinRefs(f, [], dir, depth, active, Tables(agents, done, active))
         == Ok((OwnPins(agents, []), Tables(agents, done, active)))
  {
  }

  lemma RestResolved(agents: Agents, refs: seq<Ref>)
    requires AllResolved(agents, refs) && refs != []
    ensures Resolved(agents, refs[0]) && AllResolved(agents, refs[1..])
  {
    assert forall i :: 0 <= i < |refs[1..]| ==> refs[1..][i] == refs[i + 1];
  }

  lemma UnfoldRefs(agents: Agents, refs: seq<Ref>, depth: nat, active: set<Id>, done: set<Id>)
      returns (below: set<Id>, after: set<Id>)
    requires refs != [] && Resolved(agents, refs[0]) && depth <= MAX_DEPTH
             && CheckRefs(agents, refs, depth, active, done).Ok?
    ensures Walk(agents, refs[0].agentId, depth + 1, active, done) == Ok(below)
    ensures CheckRefs(agents, refs[1..], depth, active, below) == Ok(after)
    ensures CheckRefs(agents, refs, depth, active, done) == Ok(after)
  {
    below := Walk(agents, refs[0].agentId, depth + 1, active, done).value;
    after := CheckRefs(agents, refs[1..], depth, active, below).value;
  }

  /** One reference, then the rest. */
  lemma PinsAgain(f: Files, dir: Dir, agents: Agents, refs: seq<Ref>, depth: nat, active: set<Id>, done: set<Id>,
                  below: set<Id>, after: set<Id>)
    requires refs != [] && Snapshot(f, dir, agents) && AllResolved(agents, refs) && AllResolved(agents, refs[1..])
             && depth <= MAX_DEPTH
    requires Resolved(agents, refs[0])
    requires Visit(f, SnapshotFile(dir, agents, refs[0].agentId), Some(refs[0].agentId), depth + 1, active,
                   Tables(agents, done, active))
          == Ok((agents[refs[0].agentId], Tables(agents, below, active)))
    requires PinRefs(f, refs[1..], dir, depth, active, Tables(agents, below, active))
          == Ok((OwnPins(agents, refs[1..]), Tables(agents, after, active)))
    ensures PinRefs(f, refs, dir, depth, active, Tables(agents, done, active))
         == Ok((OwnPins(agents, refs), Tables(agents, after, active)))
  {
    hide Visit;
  }

  // ----- the whole release

  /** The root a snapshot is rebuilt from. */
  function SnapshotRoot(r: Release, dir: Dir): Root
    requires r.entry.kind.AgentKind? ==> r.entry.id in r.agents
    requires r.entry.kind.WorkflowKind? ==> r.workflow.Some?
  {
    if r.entry.kind.AgentKind? then AgentRoot(SnapshotFile(dir, r.agents, r.entry.id))
    else WorkflowRoot(r.workflow.value.manifest, dir)
  }

  /** Rebuilding an accepted release from its own locked manifests passes every
      source-pin check and returns exactly that release. */
  lemma RebuildIsFixpoint(f: Files, r: Release, dir: Dir)
    requires ValidRelease(f.checks, r) && Snapshot(f, dir, r.agents)
    ensures Assemble(f, SnapshotRoot(r, dir)) == Ok(r)
  {
    var order := AcceptedIsSealed(f.checks, r);
    assert Releasable(f, r.agents);
    hide Releasable, Snapshot, AllResolved, Closure, Assemble, EntryOk;
    if r.entry.kind.AgentKind? {
      AgentAgain(f, r, dir);
    } else {
      WorkflowAgain(f, r, dir);
    }
  }

  lemma StartAndEnd(agents: Agents)
    ensures Tables(agents, {}, {}) == NOTHING && Tables(agents, agents.Keys, {}).agents == agents
  {
  }

  lemma AgentAgain(f: Files, r: Release, dir: Dir)
    requires r.entry.kind.AgentKind? && EntryOk(f.checks, r) && EntryWalk(r) == Ok(r.agents.Keys)
    requires Releasable(f, r.agents) && Snapshot(f, dir, r.agents)
    ensures Assemble(f, SnapshotRoot(r, dir)) == Ok(r)
  {
    hide Visit, Walk, Releasable, Snapshot;
    StartAndEnd(r.agents);
    VisitAgain(f, dir, r.agents, r.entry.id, None, 0, {}, {});
  }

  lemma WorkflowAgain(f: Files, r: Release, dir: Dir)
    requires r.entry.kind.WorkflowKind? && EntryOk(f.checks, r) && EntryWalk(r) == Ok(r.agents.Keys)
    requires Releasable(f, r.agents) && Snapshot(f, dir, r.agents)
    requires AllResolved(r.agents, StepRefs(r.workflow.value.manifest.steps))
    ensures Assemble(f, SnapshotRoot(r, dir)) == Ok(r)
  {
    hide PinRefs, CheckRefs, Releasable, Snapshot, WorkflowOk, AllResolved;
    var steps := r.workflow.value.manifest.steps;
    StartAndEnd(r.agents);
    RefsAgain(f, dir, r.agents, StepRefs(steps), 0, {}, {});
    OwnPinsAt(r.agents, StepRefs(steps));
    PinStepsSame(steps, OwnPins(r.agents, StepRefs(steps)));
  }

  // ----- from the store of approved releases

  /** The directory of agent snapshots as the builder reads it: each stored file that is an
      agent manifest, and no file where there is none. */
  ghost predicate OnDisk(f: Files, dir: Dir, folder: Approval.Folder) {
    forall id :: id in folder.agents ==>
      && (dir, id) in f.siblings
      && f.siblings[(dir, id)] == StoredFile(dir, folder.agents[id])
  }

  function StoredFile(dir: Dir, file: Artifact): Source {
    Source(if file.AgentArtifact? then Some(file.agent) else None, dir)
  }

  /** No stored file collides with the manifest the release locks under its name. */
  ghost predicate NoFileCollision(v: Approval.Crypto, folder: Approval.Folder, data: Release) {
    forall id {:trigger folder.agents[id]} :: id in data.agents && id in folder.agents
      && v.checks.hash(folder.agents[id]) == v.checks.hash(AgentArtifact(data.agents[id].manifest))
      ==> folder.agents[id] == AgentArtifact(data.agents[id].manifest)
  }

  lemma LoadedIsSnapshot(v: Approval.Crypto, folder: Approval.Folder, data: Release, f: Files, dir: Dir)
    requires ValidRelease(v.checks, data) && Approval.SnapshotsIntact(v, folder, data)
    requires OnDisk(f, dir, folder) && NoFileCollision(v, folder, data)
    ensures Snapshot(f, dir, data.agents)
  {
    forall id | id in data.agents ensures Resolve(f, dir, id) == Some(SnapshotFile(dir, data.agents, id)) {
      assert Approval.SnapshotIntact(v, folder, data, id) && AgentOk(v.checks, id, data.agents[id]);
      assert folder.agents[id] == AgentArtifact(data.agents[id].manifest);
    }
  }

  /** Building from the entry's file in the store of an approved agent release that loads
      gives back exactly the release that loads. */
  lemma ApprovedReleaseRebuilds(v: Approval.Crypto, s: Approval.Store, digest: Digest, f: Files, dir: Dir)
    requires Approval.Load(v, s, digest).Ok? && Approval.Load(v, s, digest).value.data.entry.kind.AgentKind?
    requires f.checks == v.checks && OnDisk(f, dir, Approval.FolderOf(s, digest))
    requires NoFileCollision(v, Approval.FolderOf(s, digest), Approval.Load(v, s, digest).value.data)
    ensures var data := Approval.Load(v, s, digest).value.data;
            && (dir, data.entry.id) in f.siblings
            && Assemble(f, AgentRoot(f.siblings[(dir, data.entry.id)])) == Ok(data)
  {
    hide Assemble, EntryWalk, AgentOk, Snapshot, Approval.TrustFailure;
    var folder, data := Approval.FolderOf(s, digest), Approval.Load(v, s, digest).value.data;
    LoadedIsSnapshot(v, folder, data, f, dir);
    RebuildIsFixpoint(f, data, dir);
    EntryFile(v, folder, data, f, dir);
  }

  lemma EntryFile(v: Approval.Crypto, folder: Approval.Folder, data: Release, f: Files, dir: Dir)
    requires data.entry.kind.AgentKind? && data.entry.id in data.agents && Approval.SnapshotsIntact(v, folder, data)
    requires OnDisk(f, dir, folder) && Snapshot(f, dir, data.agents)
    ensures (dir, data.entry.id) in f.siblings && SnapshotRoot(data, dir) == AgentRoot(f.siblings[(dir, data.entry.id)])
  {
    assert Approval.SnapshotIntact(v, folder, data, data.entry.id);
    assert Resolve(f, dir, data.entry.id) == Some(SnapshotFile(dir, data.agents, data.entry.id));
  }
}
