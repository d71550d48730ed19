/** Two walks over the same delegation graph: preflight's memoised walk and the
    runtime's recursive compilation, which only remembers its ancestors. */
module Delegation {
  import opened Wrappers
  import opened Graphs
  import opened Manifests
  import opened Releases

  /** A fixed registry: the manifest each agent id resolves to, and the ids whose
      file carries a trusted signature (required outside development mode). `approved`
      says that the manifests are those of an approved release. */
  datatype Registry = Registry(checks: Checks, manifests: map<Id, AgentManifest>, trusted: set<Id>,
                               development: bool, approved: bool)

  datatype DelegationError =
    | UnknownAgent(id: Id)
    | Untrusted(id: Id)
    | WrongAgent(id: Id)
    | Unpinned(id: Id)
    | ChangedAgent(id: Id)
    | InvalidAgent(id: Id)
    | Unapproved(id: Id)
    | DelegationCycle(id: Id)
    | ChangedSinceCompilation(id: Id)

  type Compiled = map<Id, AgentManifest>

  function Names(reg: Registry): set<Id> {
    set id | id in reg.manifests :: reg.manifests[id].identity.id
  }

  /** Resolving one reference. Both walks read the manifest, check its signature
      (which includes its identity) outside development mode, then the pin, then
      the manifest itself; only preflight also compares identities in development mode. */
  function Child(reg: Registry, ref: Ref, preflight: bool): Result<AgentManifest, DelegationError> {
    var id := ref.agentId;
    if id !in reg.manifests then Err(UnknownAgent(id))
    else
      var m := reg.manifests[id];
      if !reg.development && (id !in reg.trusted || m.identity.id != id) then Err(Untrusted(id))
      else if preflight && m.identity.id != id then Err(WrongAgent(id))
      else if !reg.development && ref.pin.None? then Err(Unpinned(id))
      else if ref.pin.Some? && reg.checks.hash(AgentArtifact(m)) != ref.pin.value then Err(ChangedAgent(id))
      else if !ManifestOk(reg.checks, m) then Err(InvalidAgent(id))
      else Ok(m)
  }

  lemma ChildNamed(reg: Registry, ref: Ref, preflight: bool)
    requires Child(reg, ref, preflight).Ok?
    ensures ref.agentId in reg.manifests && Child(reg, ref, preflight).value == reg.manifests[ref.agentId]
    ensures reg.manifests[ref.agentId].identity.id in Names(reg)
  {
  }

  // ----- compilation: ancestry only

  /** The manifests compiled at and below `m`, by identity. */
  function Compile(reg: Registry, preflight: bool, m: AgentManifest,
                   ancestry: set<Id>): Result<Compiled, DelegationError>
    decreases |Names(reg) - ancestry|, if m.identity.id in Names(reg) then 0 else 2, 0
  {
    var id := m.identity.id;
    if id in ancestry then Err(DelegationCycle(id))
    else
      assert Names(reg) - (ancestry + {id}) == (Names(reg) - ancestry) - {id};
      var below :- CompileRefs(reg, preflight, AgentRefs(m), ancestry + {id});
      Ok(map[id := m] + below)
  }

  function CompileRefs(reg: Registry, preflight: bool, refs: seq<Ref>,
                       ancestry: set<Id>): Result<Compiled, DelegationError>
    decreases |Names(reg) - ancestry|, 1, |refs|
  {
    if refs == [] then Ok(map[])
    else
      var child :- Child(reg, refs[0], preflight);
      assert child.identity.id in Names(reg) by { ChildNamed(reg, refs[0], preflight); }
      var first :- Compile(reg, preflight, child, ancestry);
      var rest :- CompileRefs(reg, preflight, refs[1..], ancestry);
      Ok(first + rest)
  }

  // ----- preflight: active set and finished closure

  function Visit(reg: Registry, m: AgentManifest, active: set<Id>, closure: Compiled): Result<Compiled, DelegationError>
    decreases |Names(reg) - active|, if m.identity.id in Names(reg) then 0 else 2, 0
  {
    var id := m.identity.id;
    if id in active then Err(DelegationCycle(id))
    else if id in closure then Ok(closure)
    else
      assert Names(reg) - (active + {id}) == (Names(reg) - active) - {id};
      var below :- VisitRefs(reg, AgentRefs(m), active + {id}, closure);
      Ok(below[id := m])
  }

  function VisitRefs(reg: Registry, refs: seq<Ref>, active: set<Id>,
                     closure: Compiled): Result<Compiled, DelegationError>
    decreases |Names(reg) - active|, 1, |refs|
  {
    if refs == [] then Ok(closure)
    else
      var child :- Child(reg, refs[0], true);
      assert child.identity.id in Names(reg) by { ChildNamed(reg, refs[0], true); }
      var below :- Visit(reg, child, active, closure);
      VisitRefs(reg, refs[1..], active, below)
  }

  // ----- compilation does not depend on unrelated ancestors

  lemma {:induction false} CompileAvoids(reg: Registry, preflight: bool, m: AgentManifest, ancestry: set<Id>)
    requires Compile(reg, preflight, m, ancestry).Ok?
    ensures Compile(reg, preflight, m, ancestry).value.Keys !! ancestry
    ensures m.identity.id in Compile(reg, preflight, m, ancestry).value
    decreases |Names(reg) - ancestry|, if m.identity.id in Names(reg) then 0 else 2, 0
  {
    var id := m.identity.id;
    assert Names(reg) - (ancestry + {id}) == (Names(reg) - ancestry) - {id};
    RefsAvoid(reg, preflight, AgentRefs(m), ancestry + {id});
  }

  lemma {:induction false} RefsAvoid(reg: Registry, preflight: bool, refs: seq<Ref>, ancestry: set<Id>)
    requires CompileRefs(reg, preflight, refs, ancestry).Ok?
    ensures CompileRefs(reg, preflight, refs, ancestry).value.Keys !! ancestry
    decreases |Names(reg) - ancestry|, 1, |refs|
  {
    if refs != [] {
      ChildNamed(reg, refs[0], preflight);
      CompileAvoids(reg, preflight, Child(reg, refs[0], preflight).value, ancestry);
      RefsAvoid(reg, preflight, refs[1..], ancestry);
    }
  }

  /** Success under some ancestors carries over to any others the subtree avoids. */
  lemma {:induction false} CompileAnywhere(reg: Registry, preflight: bool, m: AgentManifest, a: set<Id>, b: set<Id>)
    requires Compile(reg, preflight, m, a).Ok? && Compile(reg, preflight, m, a).value.Keys !! b
    ensures Compile(reg, preflight, m, b) == Compile(reg, preflight, m, a)
    decreases |Names(reg) - a|, if m.identity.id in Names(reg) then 0 else 2, 0
  {
    var id := m.identity.id;
    CompileAvoids(reg, preflight, m, a);
    assert Names(reg) - (a + {id}) == (Names(reg) - a) - {id};
    RefsAvoid(reg, preflight, AgentRefs(m), a + {id});
    RefsAnywhere(reg, preflight, AgentRefs(m), a + {id}, b + {id});
  }

  lemma {:induction false} RefsAnywhere(reg: Registry, preflight: bool, refs: seq<Ref>, a: set<Id>, b: set<Id>)
    requires CompileRefs(reg, preflight, refs, a).Ok? && CompileRefs(reg, preflight, refs, a).value.Keys !! b
    ensures CompileRefs(reg, preflight, refs, b) == CompileRefs(reg, preflight, refs, a)
    decreases |Names(reg) - a|, 1, |refs|
  {
    if refs != [] {
      ChildNamed(reg, refs[0], preflight);
      var child := Child(reg, refs[0], preflight).value;
      var first := Compile(reg, preflight, child, a).value;
      var rest := CompileRefs(reg, preflight, refs[1..], a).value;
      assert (first + rest).Keys == first.Keys + rest.Keys;
      CompileAnywhere(reg, preflight, child, a, b);
      RefsAnywhere(reg, preflight, refs[1..], a, b);
    }
  }

  // ----- the memoised walk agrees with the ancestry walk

  /** Everything finished would compile, within what is finished. */
  ghost predicate Finished(reg: Registry, closure: Compiled) {
    forall id {:trigger FinishedAt(reg, closure, id)} :: id in closure ==> FinishedAt(reg, closure, id)
  }

  ghost predicate FinishedAt(reg: Registry, closure: Compiled, id: Id) {
    && id in reg.manifests && id in closure && closure[id] == reg.manifests[id] && closure[id].identity.id == id
    && Compile(reg, true, closure[id], {}).Ok?
    && Compile(reg, true, closure[id], {}).value.Keys <= closure.Keys
  }

  lemma StaysFinished(reg: Registry, closure: Compiled, closure': Compiled, id: Id)
    requires FinishedAt(reg, closure, id) && closure.Keys <= closure'.Keys && closure'[id] == closure[id]
    ensures FinishedAt(reg, closure', id)
  {
  }

  lemma FinishOne(reg: Registry, closure: Compiled, id: Id)
    requires Finished(reg, closure) && id in reg.manifests && reg.manifests[id].identity.id == id
    requires Compile(reg, true, reg.manifests[id], {}).Ok?
    requires Compile(reg, true, reg.manifests[id], {}).value.Keys <= closure.Keys + {id}
    ensures Finished(reg, closure[id := reg.manifests[id]])
  {
    var closure' := closure[id := reg.manifests[id]];
    forall x | x in closure' ensures FinishedAt(reg, closure', x) {
      if x != id {
        assert FinishedAt(reg, closure, x);
        StaysFinished(reg, closure, closure', x);
      }
    }
  }

  predicate Registered(reg: Registry, m: AgentManifest) {
    m.identity.id in reg.manifests && reg.manifests[m.identity.id] == m
  }

  /** The memoised walk and the ancestry walk give the same verdict, and the closure
      grows by exactly what compilation compiles. */
  ghost predicate Agree(reg: Registry, visited: Result<Compiled, DelegationError>,
                        compiled: Result<Compiled, DelegationError>, closure: Compiled) {
    && (visited.Ok? <==> compiled.Ok?)
    && (visited.Ok? ==> visited.value.Keys == closure.Keys + compiled.value.Keys && Finished(reg, visited.value))
  }

  lemma {:induction false} VisitAgrees(reg: Registry, m: AgentManifest, active: set<Id>, closure: Compiled)
    requires Registered(reg, m) && Finished(reg, closure) && closure.Keys !! active
    ensures Agree(reg, Visit(reg, m, active, closure), Compile(reg, true, m, active), closure)
    decreases |Names(reg) - active|, if m.identity.id in Names(reg) then 0 else 2, 0
  {
    var id := m.identity.id;
    if id in active {
    } else if id in closure {
      MemoAgrees(reg, m, active, closure);
    } else {
      assert Names(reg) - (active + {id}) == (Names(reg) - active) - {id};
      RefsAgree(reg, AgentRefs(m), active + {id}, closure);
      OpenAgrees(reg, m, active, closure);
    }
  }

  /** A manifest entered afresh, once its references agree. */
  lemma OpenAgrees(reg: Registry, m: AgentManifest, active: set<Id>, closure: Compiled)
    requires Registered(reg, m) && m.identity.id !in active && m.identity.id !in closure
    requires Agree(reg, VisitRefs(reg, AgentRefs(m), active + {m.identity.id}, closure),
                   CompileRefs(reg, true, AgentRefs(m), active + {m.identity.id}), closure)
    ensures Agree(reg, Visit(reg, m, active, closure), Compile(reg, true, m, active), closure)
  {
    var id, refs := m.identity.id, AgentRefs(m);
    var visited, compiled := VisitRefs(reg, refs, active + {id}, closure), CompileRefs(reg, true, refs, active + {id});
    if compiled.Ok? {
      assert Compile(reg, true, m, active) == Ok(map[id := m] + compiled.value);
      CompileAnywhere(reg, true, m, active, {});
      FinishOne(reg, visited.value, id);
      assert Visit(reg, m, active, closure) == Ok(visited.value[id := m]);
    }
  }

  lemma MemoAgrees(reg: Registry, m: AgentManifest, active: set<Id>, closure: Compiled)
    requires Registered(reg, m) && Finished(reg, closure) && closure.Keys !! active && m.identity.id in closure
    ensures Agree(reg, Ok(closure), Compile(reg, true, m, active), closure)
  {
    assert FinishedAt(reg, closure, m.identity.id);
    CompileAnywhere(reg, true, m, {}, active);
  }

  lemma {:induction false} RefsAgree(reg: Registry, refs: seq<Ref>, active: set<Id>, closure: Compiled)
    requires Finished(reg, closure) && closure.Keys !! active
    ensures Agree(reg, VisitRefs(reg, refs, active, closure), CompileRefs(reg, true, refs, active), closure)
    decreases |Names(reg) - active|, 1, |refs|
  {
    if refs != [] && Child(reg, refs[0], true).Ok? {
      ChildNamed(reg, refs[0], true);
      var child := Child(reg, refs[0], true).value;
      VisitAgrees(reg, child, active, closure);
      if Visit(reg, child, active, closure).Ok? {
        CompileAvoids(reg, true, child, active);
        RefsAgree(reg, refs[1..], active, Visit(reg, child, active, closure).value);
      }
    }
  }

  function Preflight(reg: Registry, m: AgentManifest): Result<Compiled, DelegationError> {
    Visit(reg, m, {}, map[])
  }

  /** Any root, registered or not: preflight accepts it exactly when compiling it
      with preflight's checks succeeds, over the same closure. */
  lemma PreflightAgrees(reg: Registry, m: AgentManifest)
    ensures Preflight(reg, m).Ok? <==> Compile(reg, true, m, {}).Ok?
    ensures Preflight(reg, m).Ok? ==>
              && Preflight(reg, m).value.Keys == Compile(reg, true, m, {}).value.Keys
              && m.identity.id in Preflight(reg, m).value && Preflight(reg, m).value[m.identity.id] == m
              && forall id :: id in Preflight(reg, m).value && id != m.identity.id ==>
                   id in reg.manifests && Preflight(reg, m).value[id] == reg.manifests[id]
  {
    var id := m.identity.id;
    assert Names(reg) - ({} + {id}) == (Names(reg) - {}) - {id};
    RefsAgree(reg, AgentRefs(m), {} + {id}, map[]);
    if Preflight(reg, m).Ok? {
      var below := VisitRefs(reg, AgentRefs(m), {} + {id}, map[]).value;
      forall x | x in below ensures x in reg.manifests && below[x] == reg.manifests[x] {
        assert FinishedAt(reg, below, x);
      }
    }
  }

  // ----- identities

  /** A chain of delegations: each manifest is what a reference of the one before resolves to. */
  ghost predicate IsChain(reg: Registry, ms: seq<AgentManifest>) {
    |ms| > 0 && forall i :: 0 <= i < |ms| - 1 ==> Delegates(reg, ms[i], ms[i + 1])
  }

  ghost predicate Delegates(reg: Registry, m: AgentManifest, child: AgentManifest) {
    exists ref :: ref in AgentRefs(m) && ref.agentId in reg.manifests && reg.manifests[ref.agentId] == child
  }

  predicate RefsMatch(reg: Registry, m: AgentManifest) {
    forall ref :: ref in AgentRefs(m) && ref.agentId in reg.manifests ==>
        reg.manifests[ref.agentId].identity.id == ref.agentId
  }

  /** Every reference in the delegation tree resolves to a manifest of that identity. */
  ghost predicate IdentitiesMatch(reg: Registry, m: AgentManifest) {
    forall ms {:trigger IsChain(reg, ms)} :: IsChain(reg, ms) && ms[0] == m ==> RefsMatch(reg, ms[|ms| - 1])
  }

  lemma ChainCons(reg: Registry, m: AgentManifest, ms: seq<AgentManifest>)
    requires IsChain(reg, ms) && Delegates(reg, m, ms[0])
    ensures IsChain(reg, [m] + ms)
  {
    var cs := [m] + ms;
    forall i | 0 <= i < |cs| - 1 ensures Delegates(reg, cs[i], cs[i + 1]) {
      if i > 0 {
        assert cs[i] == ms[i - 1] && cs[i + 1] == ms[i];
      }
    }
  }

  lemma ChainTail(reg: Registry, ms: seq<AgentManifest>)
    requires IsChain(reg, ms) && |ms| > 1
    ensures IsChain(reg, ms[1..])
  {
    forall i | 0 <= i < |ms[1..]| - 1 ensures Delegates(reg, ms[1..][i], ms[1..][i + 1]) {
      assert ms[1..][i] == ms[i + 1] && ms[1..][i + 1] == ms[i + 2];
    }
  }

  lemma MatchBelow(reg: Registry, m: AgentManifest, child: AgentManifest)
    requires IdentitiesMatch(reg, m) && Delegates(reg, m, child)
    ensures IdentitiesMatch(reg, child)
  {
    forall ms | IsChain(reg, ms) && ms[0] == child ensures RefsMatch(reg, ms[|ms| - 1]) {
      ChainCons(reg, m, ms);
      var cs := [m] + ms;
      assert cs[0] == m && cs[|cs| - 1] == ms[|ms| - 1];
    }
  }

  lemma FewerLeft(reg: Registry, ancestry: set<Id>, id: Id)
    ensures |Names(reg) - (ancestry + {id})| <= |Names(reg) - ancestry|
    ensures id in Names(reg) && id !in ancestry ==> |Names(reg) - (ancestry + {id})| < |Names(reg) - ancestry|
  {
    assert Names(reg) - (ancestry + {id}) == (Names(reg) - ancestry) - {id};
  }

  /** With preflight's extra check compilation can only reject more ... */
  lemma {:induction false} StrictIsCompile(reg: Registry, m: AgentManifest, ancestry: set<Id>)
    requires Compile(reg, true, m, ancestry).Ok?
    ensures Compile(reg, false, m, ancestry) == Compile(reg, true, m, ancestry)
    decreases |Names(reg) - ancestry|, if m.identity.id in Names(reg) then 0 else 2, 0
  {
    hide CompileRefs, AgentRefs, Names;
    var id := m.identity.id;
    FewerLeft(reg, ancestry, id);
    StrictRefsCompile(reg, AgentRefs(m), ancestry + {id});
  }

  lemma {:induction false} StrictRefsCompile(reg: Registry, refs: seq<Ref>, ancestry: set<Id>)
    requires CompileRefs(reg, true, refs, ancestry).Ok?
    ensures CompileRefs(reg, false, refs, ancestry) == CompileRefs(reg, true, refs, ancestry)
    decreases |Names(reg) - ancestry|, 1, |refs|
  {
    if refs != [] {
      ChildNamed(reg, refs[0], true);
      StrictIsCompile(reg, Child(reg, refs[0], true).value, ancestry);
      StrictRefsCompile(reg, refs[1..], ancestry);
    }
  }

  /** ... and rejects nothing more when all identities match. */
  lemma {:induction false} MatchedIsStrict(reg: Registry, m: AgentManifest, ancestry: set<Id>)
    requires Compile(reg, false, m, ancestry).Ok? && IdentitiesMatch(reg, m)
    ensures Compile(reg, true, m, ancestry).Ok?
    decreases |Names(reg) - ancestry|, if m.identity.id in Names(reg) then 0 else 2, 0
  {
    hide CompileRefs, AgentRefs, Names;
    var id := m.identity.id;
    FewerLeft(reg, ancestry, id);
    assert IsChain(reg, [m]);
    MatchedRefsStrict(reg, m, AgentRefs(m), ancestry + {id});
  }

  lemma {:induction false} MatchedRefsStrict(reg: Registry, m: AgentManifest, refs: seq<Ref>, ancestry: set<Id>)
    requires CompileRefs(reg, false, refs, ancestry).Ok?
    requires IdentitiesMatch(reg, m) && RefsMatch(reg, m) && forall ref :: ref in refs ==> ref in AgentRefs(m)
    ensures CompileRefs(reg, true, refs, ancestry).Ok?
    decreases |Names(reg) - ancestry|, 1, |refs|
  {
    if refs != [] {
      ChildNamed(reg, refs[0], false);
      var child := Child(reg, refs[0], false).value;
      assert refs[0] in AgentRefs(m) && Delegates(reg, m, child);
      MatchBelow(reg, m, child);
      MatchedIsStrict(reg, child, ancestry);
      MatchedRefsStrict(reg, m, refs[1..], ancestry);
    }
  }

  lemma {:induction false} StrictRefsMatch(reg: Registry, refs: seq<Ref>, ancestry: set<Id>, ref: Ref)
    requires CompileRefs(reg, true, refs, ancestry).Ok? && ref in refs
    ensures ref.agentId in reg.manifests && reg.manifests[ref.agentId].identity.id == ref.agentId
    ensures Child(reg, ref, true) == Ok(reg.manifests[ref.agentId])
    ensures Compile(reg, true, reg.manifests[ref.agentId], ancestry).Ok?
    decreases |refs|
  {
    ChildNamed(reg, refs[0], true);
    if ref != refs[0] {
      StrictRefsMatch(reg, refs[1..], ancestry, ref);
    }
  }

  lemma {:induction false} StrictMatches(reg: Registry, m: AgentManifest, ancestry: set<Id>, ms: seq<AgentManifest>)
    requires Compile(reg, true, m, ancestry).Ok? && IsChain(reg, ms) && ms[0] == m
    ensures RefsMatch(reg, ms[|ms| - 1])
    decreases |ms|
  {
    if |ms| == 1 {
      forall ref | ref in AgentRefs(m) && ref.agentId in reg.manifests
        ensures reg.manifests[ref.agentId].identity.id == ref.agentId
      {
        StrictRefsMatch(reg, AgentRefs(m), ancestry + {m.identity.id}, ref);
      }
    } else {
      assert Delegates(reg, ms[0], ms[1]);
      var ref :| ref in AgentRefs(m) && ref.agentId in reg.manifests && reg.manifests[ref.agentId] == ms[1];
      StrictRefsMatch(reg, AgentRefs(m), ancestry + {m.identity.id}, ref);
      ChainTail(reg, ms);
      StrictMatches(reg, ms[1], ancestry + {m.identity.id}, ms[1..]);
    }
  }

  /** The exact relation of the two walks: preflight accepts a root exactly when
      compilation accepts it and every reference in its tree resolves to a manifest
      of the referenced identity. */
  lemma PreflightIffCompile(reg: Registry, m: AgentManifest)
    ensures Preflight(reg, m).Ok? <==> Compile(reg, false, m, {}).Ok? && IdentitiesMatch(reg, m)
  {
    PreflightAgrees(reg, m);
    if Compile(reg, true, m, {}).Ok? {
      StrictIsCompile(reg, m, {});
      forall ms | IsChain(reg, ms) && ms[0] == m ensures RefsMatch(reg, ms[|ms| - 1]) {
        StrictMatches(reg, m, {}, ms);
      }
    } else if Compile(reg, false, m, {}).Ok? && IdentitiesMatch(reg, m) {
      MatchedIsStrict(reg, m, {});
    }
  }

  /** Outside development mode the signature check makes the two checks the same. */
  lemma {:induction false} ProductionSame(reg: Registry, m: AgentManifest, ancestry: set<Id>)
    requires !reg.development
    ensures Compile(reg, true, m, ancestry) == Compile(reg, false, m, ancestry)
    decreases |Names(reg) - ancestry|, if m.identity.id in Names(reg) then 0 else 2, 0
  {
    hide CompileRefs, AgentRefs, Names;
    var id := m.identity.id;
    FewerLeft(reg, ancestry, id);
    if id !in ancestry {
      ProductionRefsSame(reg, AgentRefs(m), ancestry + {id});
    }
  }

  lemma {:induction false} ProductionRefsSame(reg: Registry, refs: seq<Ref>, ancestry: set<Id>)
    requires !reg.development
    ensures CompileRefs(reg, true, refs, ancestry) == CompileRefs(reg, false, refs, ancestry)
    decreases |Names(reg) - ancestry|, 1, |refs|
  {
    if refs != [] && Child(reg, refs[0], true).Ok? {
      ChildNamed(reg, refs[0], true);
      ProductionSame(reg, Child(reg, refs[0], true).value, ancestry);
      ProductionRefsSame(reg, refs[1..], ancestry);
    }
  }

  /** In production preflight and compilation accept exactly the same agents. */
  lemma ProductionAgrees(reg: Registry, m: AgentManifest)
    requires !reg.development
    ensures Preflight(reg, m).Ok? <==> Compile(reg, false, m, {}).Ok?
  {
    PreflightAgrees(reg, m);
    ProductionSame(reg, m, {});
  }

  /** In development mode the walks differ: under any checks, a file whose agent has
      another identity than the reference is refused by preflight and compiled by the
      runtime, when the checks accept it and any pin matches. */
  lemma DevelopmentDiffers(w: Checks, m: AgentManifest, leaf: AgentManifest, ref: Ref) returns (reg: Registry)
    requires AgentRefs(m) == [ref] && AgentRefs(leaf) == [] && ManifestOk(w, leaf)
    requires ref.pin == None || ref.pin == Some(w.hash(AgentArtifact(leaf)))
    requires leaf.identity.id != ref.agentId && leaf.identity.id != m.identity.id
    ensures reg == Registry(w, map[ref.agentId := leaf], {}, true, false)
    ensures Compile(reg, false, m, {}).Ok? && Preflight(reg, m).Err?
  {
    hide ManifestOk, AgentRefs;
    reg := Registry(w, map[ref.agentId := leaf], {}, true, false);
    var id := m.identity.id;
    assert Child(reg, ref, false) == Ok(leaf) && Child(reg, ref, true) == Err(WrongAgent(ref.agentId));
    assert Compile(reg, false, leaf, {} + {id}).Ok?;
    assert [ref][1..] == [] && CompileRefs(reg, false, [ref], {} + {id}).Ok?;
    assert VisitRefs(reg, [ref], {} + {id}, map[]).Err?;
  }

  // ----- compiling an accepted release

  /** The agents of an approved release, as the runtime resolves them. */
  function ReleaseRegistry(w: Checks, agents: Agents): Registry {
    Registry(w, map id | id in agents :: agents[id].manifest, agents.Keys, false, true)
  }

  lemma ReleaseChild(w: Checks, agents: Agents, ref: Ref)
    requires Resolved(agents, ref) && AgentOk(w, ref.agentId, agents[ref.agentId])
    ensures Child(ReleaseRegistry(w, agents), ref, false) == Ok(agents[ref.agentId].manifest)
  {
  }

  lemma RefsEarlier(agents: Agents, order: seq<Id>, i: nat)
    requires Topo(RefGraph(agents), order) && i < |order| && order[i] in agents
    ensures forall ref :: ref in RefsOf(agents, order[i]) ==> ref.agentId in order[..i]
    ensures order[i] !in Elems(order[..i])
  {
    forall ref | ref in RefsOf(agents, order[i]) ensures ref.agentId in order[..i] {
      RefEdge(agents, order[i], ref);
    }
  }

  lemma {:induction false} OrderedCompiles(w: Checks, agents: Agents, order: seq<Id>, i: nat, ancestry: set<Id>)
    requires Topo(RefGraph(agents), order) && i < |order| && ancestry !! Elems(order[..i + 1])
    requires Closure(agents) && forall id :: id in agents ==> AgentOk(w, id, agents[id])
    requires order[i] in agents
    ensures Compile(ReleaseRegistry(w, agents), false, agents[order[i]].manifest, ancestry).Ok?
    decreases i, 1, 0
  {
    hide Topo, CompileRefs, AllResolved, ManifestOk, ProductionOk, ReleaseRegistry, Names;
    var id := order[i];
    assert AgentOk(w, id, agents[id]) && AllResolved(agents, RefsOf(agents, id));
    assert order[..i + 1] == order[..i] + [id];
    RefsEarlier(agents, order, i);
    OrderedRefsCompile(w, agents, order, i, RefsOf(agents, id), ancestry + {id});
  }

  lemma {:induction false} OrderedRefsCompile(w: Checks, agents: Agents, order: seq<Id>, i: nat, refs: seq<Ref>,
                                              ancestry: set<Id>)
    requires Topo(RefGraph(agents), order) && i < |order| && ancestry !! Elems(order[..i])
    requires Closure(agents) && forall id :: id in agents ==> AgentOk(w, id, agents[id])
    requires AllResolved(agents, refs) && forall ref :: ref in refs ==> ref.agentId in order[..i]
    ensures CompileRefs(ReleaseRegistry(w, agents), false, refs, ancestry).Ok?
    decreases i, 0, |refs|
  {
    hide Topo, Closure, Compile, AgentOk;
    if refs != [] {
      var ref := refs[0];
      assert Resolved(agents, ref) && ref.agentId in order[..i];
      var j :| 0 <= j < i && order[..i][j] == ref.agentId;
      assert Elems(order[..j + 1]) <= Elems(order[..i]) by {
        assert order[..i][..j + 1] == order[..j + 1];
      }
      ReleaseChild(w, agents, ref);
      OrderedCompiles(w, agents, order, j, ancestry);
      assert forall k :: 0 <= k < |refs[1..]| ==> refs[1..][k] == refs[k + 1];
      OrderedRefsCompile(w, agents, order, i, refs[1..], ancestry);
    }
  }

  /** On an accepted release compilation never meets a cycle, an absent agent or a
      wrong pin, from any of its agents. */
  lemma ReleaseCompiles(w: Checks, r: Release, id: Id)
    requires ValidRelease(w, r) && id in r.agents
    ensures Compile(ReleaseRegistry(w, r.agents), false, r.agents[id].manifest, {}).Ok?
  {
    var order := AcceptedIsSealed(w, r);
    assert id in Elems(order);
    var i :| 0 <= i < |order| && order[i] == id;
    OrderedCompiles(w, r.agents, order, i, {});
  }

  // ----- revalidation before each execution

  function Revalidate(reg: Registry, m: AgentManifest, compiled: Compiled,
                      seen: set<Id>): (r: Result<set<Id>, DelegationError>)
    ensures r.Ok? ==> seen <= r.value
    decreases |Names(reg) - seen|, if m.identity.id in Names(reg) then 0 else 2, 0
  {
    var id := m.identity.id;
    if id in seen then Ok(seen)
    else
      assert Names(reg) - (seen + {id}) == (Names(reg) - seen) - {id};
      RevalidateRefs(reg, AgentRefs(m), compiled, seen + {id})
  }

  function RevalidateRefs(reg: Registry, refs: seq<Ref>, compiled: Compiled,
                          seen: set<Id>): (r: Result<set<Id>, DelegationError>)
    ensures r.Ok? ==> seen <= r.value
    decreases |Names(reg) - seen|, 1, |refs|
  {
    if refs == [] then Ok(seen)
    else
      var child :- Child(reg, refs[0], false);
      assert child.identity.id in Names(reg) by { ChildNamed(reg, refs[0], false); }
      if !(child.identity.id in compiled && compiled[child.identity.id] == child) then
        Err(ChangedSinceCompilation(child.identity.id))
      else
        var below :- Revalidate(reg, child, compiled, seen);
        FewerNames(reg, seen, below);
        RevalidateRefs(reg, refs[1..], compiled, below)
  }

  lemma FewerNames(reg: Registry, a: set<Id>, b: set<Id>)
    requires a <= b
    ensures |Names(reg) - b| <= |Names(reg) - a|
  {
    SubsetSize(Names(reg) - b, Names(reg) - a);
  }

  /** A manifest whose references all still resolve to what was compiled. */
  predicate Unchanged(reg: Registry, compiled: Compiled, refs: seq<Ref>, seen: set<Id>) {
    forall i :: 0 <= i < |refs| ==> UnchangedRef(reg, compiled, refs[i], seen)
  }

  predicate UnchangedRef(reg: Registry, compiled: Compiled, ref: Ref, seen: set<Id>) {
    && Child(reg, ref, false).Ok?
    && var child := Child(reg, ref, false).value;
    && child.identity.id in compiled && compiled[child.identity.id] == child && child.identity.id in seen
  }

  ghost predicate AllUnchanged(reg: Registry, compiled: Compiled, newly: set<Id>, seen: set<Id>) {
    forall id {:trigger id in newly} :: id in newly ==>
      && id in compiled
      && Unchanged(reg, compiled, AgentRefs(compiled[id]), seen)
  }

  lemma UnchangedGrows(reg: Registry, compiled: Compiled, refs: seq<Ref>, a: set<Id>, b: set<Id>)
    requires a <= b && Unchanged(reg, compiled, refs, a)
    ensures Unchanged(reg, compiled, refs, b)
  {
    forall i | 0 <= i < |refs| ensures UnchangedRef(reg, compiled, refs[i], b) {
      assert UnchangedRef(reg, compiled, refs[i], a);
    }
  }

  lemma AllUnchangedGrows(reg: Registry, compiled: Compiled, newly: set<Id>, a: set<Id>, b: set<Id>)
    requires a <= b && AllUnchanged(reg, compiled, newly, a)
    ensures AllUnchanged(reg, compiled, newly, b)
  {
    forall id | id in newly ensures Unchanged(reg, compiled, AgentRefs(compiled[id]), b) {
      UnchangedGrows(reg, compiled, AgentRefs(compiled[id]), a, b);
    }
  }

  lemma {:induction false} RevalidateSound(reg: Registry, m: AgentManifest, compiled: Compiled, seen: set<Id>)
    requires m.identity.id in compiled && compiled[m.identity.id] == m && Revalidate(reg, m, compiled, seen).Ok?
    ensures var seen' := Revalidate(reg, m, compiled, seen).value;
            seen <= seen' && m.identity.id in seen' && AllUnchanged(reg, compiled, seen' - seen, seen')
    decreases |Names(reg) - seen|, if m.identity.id in Names(reg) then 0 else 2, 0
  {
    var id := m.identity.id;
    if id !in seen {
      assert Names(reg) - (seen + {id}) == (Names(reg) - seen) - {id};
      RevalidateRefsSound(reg, AgentRefs(m), compiled, seen + {id});
      var seen' := RevalidateRefs(reg, AgentRefs(m), compiled, seen + {id}).value;
      assert forall x :: x in seen' - seen <==> x == id || x in seen' - (seen + {id});
    }
  }

  lemma {:induction false} RevalidateRefsSound(reg: Registry, refs: seq<Ref>, compiled: Compiled, seen: set<Id>)
    requires RevalidateRefs(reg, refs, compiled, seen).Ok?
    ensures var seen' := RevalidateRefs(reg, refs, compiled, seen).value;
            seen <= seen' && Unchanged(reg, compiled, refs, seen') && AllUnchanged(reg, compiled, seen' - seen, seen')
    decreases |Names(reg) - seen|, 1, |refs|
  {
    if refs != [] {
      ChildNamed(reg, refs[0], false);
      var child := Child(reg, refs[0], false).value;
      RevalidateSound(reg, child, compiled, seen);
      var below := Revalidate(reg, child, compiled, seen).value;
      FewerNames(reg, seen, below);
      RevalidateRefsSound(reg, refs[1..], compiled, below);
      var seen' := RevalidateRefs(reg, refs[1..], compiled, below).value;
      AllUnchangedGrows(reg, compiled, below - seen, below, seen');
      assert forall x :: x in seen' - seen <==> x in below - seen || x in seen' - below;
      assert UnchangedRef(reg, compiled, refs[0], seen');
      assert forall k :: 0 <= k < |refs[1..]| ==> refs[1..][k] == refs[k + 1];
    }
  }

  lemma {:induction false} ChainUnchanged(reg: Registry, compiled: Compiled, seen: set<Id>, ms: seq<AgentManifest>)
    requires AllUnchanged(reg, compiled, seen, seen) && IsChain(reg, ms)
    requires ms[0].identity.id in seen && compiled[ms[0].identity.id] == ms[0]
    ensures var m := ms[|ms| - 1]; m.identity.id in compiled && compiled[m.identity.id] == m
    decreases |ms|
  {
    assert ms[0].identity.id in seen;
    if |ms| > 1 {
      assert Delegates(reg, ms[0], ms[1]);
      var ref :| ref in AgentRefs(ms[0]) && ref.agentId in reg.manifests && reg.manifests[ref.agentId] == ms[1];
      var i :| 0 <= i < |AgentRefs(ms[0])| && AgentRefs(ms[0])[i] == ref;
      assert UnchangedRef(reg, compiled, AgentRefs(ms[0])[i], seen);
      ChainTail(reg, ms);
      ChainUnchanged(reg, compiled, seen, ms[1..]);
    }
  }

  /** When revalidation passes, every manifest the root now delegates to, however
      indirectly, is exactly the one that was compiled. */
  lemma RevalidationDetectsChange(reg: Registry, m: AgentManifest, compiled: Compiled, ms: seq<AgentManifest>)
    requires m.identity.id in compiled && compiled[m.identity.id] == m
    requires Revalidate(reg, m, compiled, {}).Ok? && IsChain(reg, ms) && ms[0] == m
    ensures var last := ms[|ms| - 1]; last.identity.id in compiled && compiled[last.identity.id] == last
  {
    RevalidateSound(reg, m, compiled, {});
    var seen := Revalidate(reg, m, compiled, {}).value;
    assert seen - {} == seen;
    ChainUnchanged(reg, compiled, seen, ms);
  }

  // ----- revalidating an unchanged registry

  /** What is compiled under an identity is the end of some chain of delegations. */
  lemma {:induction false} CompiledReached(reg: Registry, m: AgentManifest, ancestry: set<Id>, id: Id)
      returns (ms: seq<AgentManifest>)
    requires Compile(reg, false, m, ancestry).Ok? && id in Compile(reg, false, m, ancestry).value
    ensures IsChain(reg, ms) && ms[0] == m
    ensures ms[|ms| - 1] == Compile(reg, false, m, ancestry).value[id] && ms[|ms| - 1].identity.id == id
    decreases |Names(reg) - ancestry|, if m.identity.id in Names(reg) then 0 else 2, 0
  {
    var name := m.identity.id;
    assert Names(reg) - (ancestry + {name}) == (Names(reg) - ancestry) - {name};
    RefsAvoid(reg, false, AgentRefs(m), ancestry + {name});
    var below := CompileRefs(reg, false, AgentRefs(m), ancestry + {name}).value;
    if id in below {
      var rest := RefsReached(reg, m, AgentRefs(m), ancestry + {name}, id);
      ChainCons(reg, m, rest);
      ms := [m] + rest;
    } else {
      ms := [m];
    }
  }

  lemma {:induction false} RefsReached(reg: Registry, m: AgentManifest, refs: seq<Ref>, ancestry: set<Id>, id: Id)
    returns (ms: seq<AgentManifest>)
    requires CompileRefs(reg, false, refs, ancestry).Ok? && id in CompileRefs(reg, false, refs, ancestry).value
    requires forall ref :: ref in refs ==> ref in AgentRefs(m)
    ensures IsChain(reg, ms) && Delegates(reg, m, ms[0])
    ensures ms[|ms| - 1] == CompileRefs(reg, false, refs, ancestry).value[id] && ms[|ms| - 1].identity.id == id
    decreases |Names(reg) - ancestry|, 1, |refs|
  {
    ChildNamed(reg, refs[0], false);
    if id in CompileRefs(reg, false, refs[1..], ancestry).value {
      ms := RefsReached(reg, m, refs[1..], ancestry, id);
    } else {
      assert refs[0] in AgentRefs(m);
      ms := CompiledReached(reg, Child(reg, refs[0], false).value, ancestry, id);
    }
  }

  /** Whatever compiled references lead to has compiled, within the same result. */
  lemma {:induction false} RefCompiled(reg: Registry, refs: seq<Ref>, ancestry: set<Id>, ref: Ref)
    requires CompileRefs(reg, false, refs, ancestry).Ok? && ref in refs
    ensures ref.agentId in reg.manifests && Child(reg, ref, false) == Ok(reg.manifests[ref.agentId])
    ensures var child := Compile(reg, false, reg.manifests[ref.agentId], ancestry);
            child.Ok? && child.value.Keys <= CompileRefs(reg, false, refs, ancestry).value.Keys
    decreases |refs|
  {
    hide Compile;
    ChildNamed(reg, refs[0], false);
    if ref != refs[0] {
      RefCompiled(reg, refs[1..], ancestry, ref);
    }
  }

  lemma DelegateCompiled(reg: Registry, m: AgentManifest, ancestry: set<Id>, child: AgentManifest)
    requires Compile(reg, false, m, ancestry).Ok? && Delegates(reg, m, child)
    ensures var below := Compile(reg, false, child, ancestry + {m.identity.id});
            below.Ok? && below.value.Keys <= Compile(reg, false, m, ancestry).value.Keys
  {
    var ref :| ref in AgentRefs(m) && ref.agentId in reg.manifests && reg.manifests[ref.agentId] == child;
    RefCompiled(reg, AgentRefs(m), ancestry + {m.identity.id}, ref);
  }

  /** Every chain of delegations ends in a compiled identity. */
  lemma {:induction false} ChainCompiled(reg: Registry, m: AgentManifest, ancestry: set<Id>, ms: seq<AgentManifest>)
    requires Compile(reg, false, m, ancestry).Ok? && IsChain(reg, ms) && ms[0] == m
    ensures ms[|ms| - 1].identity.id in Compile(reg, false, m, ancestry).value
    decreases |ms|
  {
    hide Compile;
    if |ms| == 1 {
      CompileAvoids(reg, false, m, ancestry);
    } else {
      assert Delegates(reg, ms[0], ms[1]);
      DelegateCompiled(reg, m, ancestry, ms[1]);
      ChainTail(reg, ms);
      ChainCompiled(reg, ms[1], ancestry + {m.identity.id}, ms[1..]);
    }
  }

  /** Every manifest below `m` is recorded under its own identity. */
  ghost predicate Records(reg: Registry, compiled: Compiled, m: AgentManifest) {
    forall x {:trigger LeadsTo(reg, m, x)} :: LeadsTo(reg, m, x) ==>
      && x.identity.id in compiled
      && compiled[x.identity.id] == x
  }

  /** A chain of delegations from `m` ends in `x`. */
  ghost predicate LeadsTo(reg: Registry, m: AgentManifest, x: AgentManifest) {
    exists ms :: IsChain(reg, ms) && ms[0] == m && ms[|ms| - 1] == x
  }

  lemma LeadsThrough(reg: Registry, m: AgentManifest, child: AgentManifest, x: AgentManifest)
    requires Delegates(reg, m, child) && LeadsTo(reg, child, x)
    ensures LeadsTo(reg, m, x)
  {
    var ms :| IsChain(reg, ms) && ms[0] == child && ms[|ms| - 1] == x;
    ChainCons(reg, m, ms);
    var cs := [m] + ms;
    assert cs[0] == m && cs[|cs| - 1] == x;
  }

  lemma LeadsToSelf(reg: Registry, m: AgentManifest)
    ensures LeadsTo(reg, m, m)
  {
    assert IsChain(reg, [m]) && [m][0] == m;
  }

  lemma RecordsBelow(reg: Registry, compiled: Compiled, m: AgentManifest, child: AgentManifest)
    requires Records(reg, compiled, m) && Delegates(reg, m, child)
    ensures Records(reg, compiled, child)
    ensures child.identity.id in compiled && compiled[child.identity.id] == child
  {
    forall x | LeadsTo(reg, child, x) ensures LeadsTo(reg, m, x) {
      LeadsThrough(reg, m, child, x);
    }
    LeadsToSelf(reg, child);
  }

  lemma {:induction false} RecordedPasses(reg: Registry, m: AgentManifest, ancestry: set<Id>, compiled: Compiled,
                                          seen: set<Id>)
    requires Compile(reg, false, m, ancestry).Ok? && Records(reg, compiled, m)
    ensures Revalidate(reg, m, compiled, seen).Ok?
    decreases |Names(reg) - seen|, if m.identity.id in Names(reg) then 0 else 2, 0
  {
    hide Records;
    var id := m.identity.id;
    if id !in seen {
      assert Names(reg) - (seen + {id}) == (Names(reg) - seen) - {id};
      RecordedRefsPass(reg, m, AgentRefs(m), ancestry + {id}, compiled, seen + {id});
    }
  }

  lemma {:induction false} RecordedRefsPass(reg: Registry, m: AgentManifest, refs: seq<Ref>, ancestry: set<Id>,
                                            compiled: Compiled, seen: set<Id>)
    requires CompileRefs(reg, false, refs, ancestry).Ok? && Records(reg, compiled, m)
    requires forall ref :: ref in refs ==> ref in AgentRefs(m)
    ensures RevalidateRefs(reg, refs, compiled, seen).Ok?
    decreases |Names(reg) - seen|, 1, |refs|
  {
    hide Records, Compile, Revalidate;
    if refs != [] {
      ChildNamed(reg, refs[0], false);
      var child := Child(reg, refs[0], false).value;
      assert refs[0] in AgentRefs(m) && Delegates(reg, m, child);
      RecordsBelow(reg, compiled, m, child);
      RecordedPasses(reg, child, ancestry, compiled, seen);
      var below := Revalidate(reg, child, compiled, seen).value;
      FewerNames(reg, seen, below);
      RecordedRefsPass(reg, m, refs[1..], ancestry, compiled, below);
    }
  }

  /** No two chains of delegations from the root end in different manifests of one identity. */
  ghost predicate OneManifestPerIdentity(reg: Registry, m: AgentManifest) {
    forall x, y {:trigger LeadsTo(reg, m, x), LeadsTo(reg, m, y)} ::
      LeadsTo(reg, m, x) && LeadsTo(reg, m, y) && x.identity.id == y.identity.id ==> x == y
  }

  /** With the registry still as it was compiled from, revalidation passes exactly when
      every identity below the root belongs to one manifest only. */
  lemma RevalidationIff(reg: Registry, m: AgentManifest)
    requires Compile(reg, false, m, {}).Ok?
    ensures Revalidate(reg, m, Compile(reg, false, m, {}).value, {}).Ok? <==> OneManifestPerIdentity(reg, m)
  {
    var compiled := Compile(reg, false, m, {}).value;
    RootCompiled(reg, m);
    hide Compile, Revalidate;
    if Revalidate(reg, m, compiled, {}).Ok? {
      forall x | LeadsTo(reg, m, x) ensures x.identity.id in compiled && compiled[x.identity.id] == x {
        var ms :| IsChain(reg, ms) && ms[0] == m && ms[|ms| - 1] == x;
        RevalidationDetectsChange(reg, m, compiled, ms);
      }
    }
    if OneManifestPerIdentity(reg, m) {
      UniqueIsRecorded(reg, m);
      RecordedPasses(reg, m, {}, compiled, {});
    }
  }

  lemma UniqueIsRecorded(reg: Registry, m: AgentManifest)
    requires Compile(reg, false, m, {}).Ok? && OneManifestPerIdentity(reg, m)
    ensures Records(reg, Compile(reg, false, m, {}).value, m)
  {
    hide Compile;
    var compiled := Compile(reg, false, m, {}).value;
    forall x | LeadsTo(reg, m, x) ensures x.identity.id in compiled && compiled[x.identity.id] == x {
      var ms :| IsChain(reg, ms) && ms[0] == m && ms[|ms| - 1] == x;
      ChainCompiled(reg, m, {}, ms);
      var ns := CompiledReached(reg, m, {}, x.identity.id);
      assert LeadsTo(reg, m, compiled[x.identity.id]);
    }
  }

  lemma RootCompiled(reg: Registry, m: AgentManifest)
    requires Compile(reg, false, m, {}).Ok?
    ensures var c := Compile(reg, false, m, {}).value; m.identity.id in c && c[m.identity.id] == m
  {
    RefsAvoid(reg, false, AgentRefs(m), {} + {m.identity.id});
  }

  /** In particular it passes, in either mode, when every reference resolves to a manifest
      of the referenced identity, which outside development mode compilation ensures. */
  lemma RevalidationAcceptsUnchanged(reg: Registry, m: AgentManifest)
    requires Compile(reg, false, m, {}).Ok? && (!reg.development || IdentitiesMatch(reg, m))
    ensures Revalidate(reg, m, Compile(reg, false, m, {}).value, {}).Ok?
  {
    ProductionAgreesIfProduction(reg, m);
    PreflightIffCompile(reg, m);
    hide Compile, Revalidate;
    forall x, y | LeadsTo(reg, m, x) && LeadsTo(reg, m, y) && x.identity.id == y.identity.id ensures x == y {
      EndIsRegistered(reg, m, x);
      EndIsRegistered(reg, m, y);
    }
    RevalidationIff(reg, m);
  }

  lemma ProductionAgreesIfProduction(reg: Registry, m: AgentManifest)
    ensures !reg.development ==> (Preflight(reg, m).Ok? <==> Compile(reg, false, m, {}).Ok?)
  {
    if !reg.development {
      ProductionAgrees(reg, m);
    }
  }

  /** Below the root a chain ends in the manifest registered under its identity, which is
      not the root's. */
  lemma EndIsRegistered(reg: Registry, m: AgentManifest, x: AgentManifest)
    requires Compile(reg, false, m, {}).Ok? && IdentitiesMatch(reg, m) && LeadsTo(reg, m, x)
    ensures x == m || (x.identity.id in reg.manifests && reg.manifests[x.identity.id] == x
                       && x.identity.id != m.identity.id)
  {
    var ms :| IsChain(reg, ms) && ms[0] == m && ms[|ms| - 1] == x;
    if |ms| > 1 {
      var n := |ms| - 2;
      assert Delegates(reg, ms[n], ms[n + 1]);
      assert IsChain(reg, ms[..n + 1]) && ms[..n + 1][n] == ms[n];
      assert RefsMatch(reg, ms[n]);
      assert Delegates(reg, ms[0], ms[1]);
      DelegateCompiled(reg, m, {}, ms[1]);
      ChainTail(reg, ms);
      ChainCompiled(reg, ms[1], {} + {m.identity.id}, ms[1..]);
      CompileAvoids(reg, false, ms[1], {} + {m.identity.id});
    }
  }

  /** In development mode an unchanged registry can be refused: under any checks, two
      files that describe different agents of one identity, which compilation keeps
      only one of. */
  lemma UnchangedRefused(w: Checks, m: AgentManifest, c1: AgentManifest, c2: AgentManifest, r1: Ref, r2: Ref)
    returns (reg: Registry)
    requires AgentRefs(m) == [r1, r2] && r1.agentId != r2.agentId
    requires AgentRefs(c1) == AgentRefs(c2) == [] && ManifestOk(w, c1) && ManifestOk(w, c2)
    requires r1.pin == None || r1.pin == Some(w.hash(AgentArtifact(c1)))
    requires r2.pin == None || r2.pin == Some(w.hash(AgentArtifact(c2)))
    requires c1 != c2 && c1.identity.id == c2.identity.id != m.identity.id
    ensures reg == Registry(w, map[r1.agentId := c1, r2.agentId := c2], {}, true, false)
            && Compile(reg, false, m, {}).Ok?
    ensures Revalidate(reg, m, Compile(reg, false, m, {}).value, {}).Err?
  {
    hide ManifestOk, AgentRefs, Revalidate, OneManifestPerIdentity;
    reg := Registry(w, map[r1.agentId := c1, r2.agentId := c2], {}, true, false);
    var above := {} + {m.identity.id};
    assert Child(reg, r1, false) == Ok(c1) && Child(reg, r2, false) == Ok(c2);
    TwoChains(reg, m, c1, c2);
    assert Compile(reg, false, c1, above).Ok? && Compile(reg, false, c2, above).Ok?;
    assert [r1, r2][1..] == [r2] && [r2][1..] == [];
    assert CompileRefs(reg, false, [r2], above).Ok? && CompileRefs(reg, false, [r1, r2], above).Ok?;
    RevalidationIff(reg, m);
  }

  lemma TwoChains(reg: Registry, m: AgentManifest, c1: AgentManifest, c2: AgentManifest)
    requires c1 != c2 && c1.identity.id == c2.identity.id && |AgentRefs(m)| == 2
    requires var refs := AgentRefs(m);
             && refs[0].agentId in reg.manifests && reg.manifests[refs[0].agentId] == c1
             && refs[1].agentId in reg.manifests && reg.manifests[refs[1].agentId] == c2
    ensures !OneManifestPerIdentity(reg, m)
  {
    var refs := AgentRefs(m);
    assert refs[0] in refs && refs[1] in refs;
    assert Delegates(reg, m, c1) && Delegates(reg, m, c2);
    LeadsToSelf(reg, c1);
    LeadsToSelf(reg, c2);
    LeadsThrough(reg, m, c1, c1);
    LeadsThrough(reg, m, c2, c2);
  }
}
