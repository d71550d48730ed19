/** Preflight and compilation as the program runs them, with the check that tools and
    credentials need an approved release. */
module DelegationRuntime {
  import opened Wrappers
  import opened Graphs
  import opened Manifests
  import opened Releases
  import opened Delegation

  /** Outside development mode tools and credentials need an approved release. */
  predicate Admitted(reg: Registry, m: AgentManifest) {
    reg.development || reg.approved || forall p :: p in m.providers ==> p.SubAgent?
  }

  /** Compilation: a manifest is checked before its references are followed. */
  function Checked(reg: Registry, m: AgentManifest, ancestry: set<Id>): Result<Compiled, DelegationError>
    decreases |Names(reg) - ancestry|, if m.identity.id in Names(reg) then 0 else 2, 0
  {
    var id := m.identity.id;
    if id in ancestry then Err(DelegationCycle(id))
    else if !Admitted(reg, m) then Err(Unapproved(id))
    else
      assert Names(reg) - (ancestry + {id}) == (Names(reg) - ancestry) - {id};
      var below :- CheckedRefs(reg, AgentRefs(m), ancestry + {id});
      Ok(map[id := m] + below)
  }

  function CheckedRefs(reg: Registry, refs: seq<Ref>, ancestry: set<Id>): Result<Compiled, DelegationError>
    decreases |Names(reg) - ancestry|, 1, |refs|
  {
    if refs == [] then Ok(map[])
    else
      var child :- Child(reg, refs[0], false);
      assert child.identity.id in Names(reg) by { ChildNamed(reg, refs[0], false); }
      var first :- Checked(reg, child, ancestry);
      var rest :- CheckedRefs(reg, refs[1..], ancestry);
      Ok(first + rest)
  }

  /** Preflight passes when its walk does and every manifest of the closure is admitted. */
  predicate PreflightPasses(reg: Registry, m: AgentManifest) {
    && Preflight(reg, m).Ok?
    && forall id :: id in Preflight(reg, m).value ==> Admitted(reg, Preflight(reg, m).value[id])
  }

  /** Everything that the root delegates to is admitted. */
  ghost predicate AllAdmitted(reg: Registry, m: AgentManifest) {
    forall x {:trigger LeadsTo(reg, m, x)} :: LeadsTo(reg, m, x) ==> Admitted(reg, x)
  }

  // ----- the check and the walk can be separated

  lemma {:induction false} CheckedIff(reg: Registry, m: AgentManifest, ancestry: set<Id>)
    ensures Checked(reg, m, ancestry).Ok? <==> Compile(reg, false, m, ancestry).Ok? && AllAdmitted(reg, m)
    ensures Checked(reg, m, ancestry).Ok? ==> Checked(reg, m, ancestry) == Compile(reg, false, m, ancestry)
    decreases |Names(reg) - ancestry|, if m.identity.id in Names(reg) then 0 else 2, 0
  {
    hide Names, AllAdmitted, CheckedRefs, CompileRefs, Admitted, AgentRefs;
    var id := m.identity.id;
    if id !in ancestry {
      FewerLeft(reg, ancestry, id);
      CheckedRefsIff(reg, AgentRefs(m), ancestry + {id});
      AdmittedBelow(reg, m);
      if Compile(reg, false, m, ancestry).Ok? {
        RefsAreDelegates(reg, m, ancestry);
      }
    }
  }

  /** The references' targets, and everything they delegate to, are admitted. */
  ghost predicate RefsAdmitted(reg: Registry, refs: seq<Ref>) {
    forall ref :: ref in refs && ref.agentId in reg.manifests ==> AllAdmitted(reg, reg.manifests[ref.agentId])
  }

  lemma AdmittedBelow(reg: Registry, m: AgentManifest)
    ensures AllAdmitted(reg, m) <==> Admitted(reg, m) && RefsAdmitted(reg, AgentRefs(m))
  {
    hide Admitted;
    LeadsToSelf(reg, m);
    if AllAdmitted(reg, m) {
      forall ref, x | ref in AgentRefs(m) && ref.agentId in reg.manifests && LeadsTo(reg, reg.manifests[ref.agentId], x)
        ensures Admitted(reg, x)
      {
        assert Delegates(reg, m, reg.manifests[ref.agentId]);
        LeadsThrough(reg, m, reg.manifests[ref.agentId], x);
      }
    }
    if Admitted(reg, m) && RefsAdmitted(reg, AgentRefs(m)) {
      forall x | LeadsTo(reg, m, x) ensures Admitted(reg, x) {
        var ms :| IsChain(reg, ms) && ms[0] == m && ms[|ms| - 1] == x;
        if |ms| > 1 {
          assert Delegates(reg, ms[0], ms[1]);
          var ref :| ref in AgentRefs(m) && ref.agentId in reg.manifests && reg.manifests[ref.agentId] == ms[1];
          ChainTail(reg, ms);
          assert ms[1..][0] == ms[1] && ms[1..][|ms[1..]| - 1] == x;
          assert LeadsTo(reg, ms[1], x);
        }
      }
    }
  }

  lemma RefsAreDelegates(reg: Registry, m: AgentManifest, ancestry: set<Id>)
    requires Compile(reg, false, m, ancestry).Ok?
    ensures CompileRefs(reg, false, AgentRefs(m), ancestry + {m.identity.id}).Ok?
  {
  }

  lemma {:induction false} CheckedRefsIff(reg: Registry, refs: seq<Ref>, ancestry: set<Id>)
    ensures CheckedRefs(reg, refs, ancestry).Ok? <==>
            CompileRefs(reg, false, refs, ancestry).Ok? && RefsAdmitted(reg, refs)
    ensures CheckedRefs(reg, refs, ancestry).Ok? ==>
            CheckedRefs(reg, refs, ancestry) == CompileRefs(reg, false, refs, ancestry)
    decreases |Names(reg) - ancestry|, 1, |refs|
  {
    hide AllAdmitted, Checked, Compile;
    if refs != [] && Child(reg, refs[0], false).Ok? {
      ChildNamed(reg, refs[0], false);
      CheckedIff(reg, Child(reg, refs[0], false).value, ancestry);
      CheckedRefsIff(reg, refs[1..], ancestry);
      assert forall ref :: ref in refs <==> ref == refs[0] || ref in refs[1..];
    }
  }

  // ----- preflight's closure is what the root delegates to

  lemma ClosureIsReach(reg: Registry, m: AgentManifest)
    requires Preflight(reg, m).Ok?
    ensures var closure := Preflight(reg, m).value;
            && (forall x {:trigger LeadsTo(reg, m, x)} :: LeadsTo(reg, m, x) ==>
                  x.identity.id in closure && closure[x.identity.id] == x)
            && forall id :: id in closure ==> LeadsTo(reg, m, closure[id])
  {
    hide Compile, Visit, LeadsTo;
    var closure := Preflight(reg, m).value;
    PreflightIffCompile(reg, m);
    PreflightAgrees(reg, m);
    StrictIsCompile(reg, m, {});
    forall x | LeadsTo(reg, m, x) ensures x.identity.id in closure && closure[x.identity.id] == x {
      EndIsRegistered(reg, m, x);
      EndCompiled(reg, m, x);
    }
    forall id | id in closure ensures LeadsTo(reg, m, closure[id]) {
      var ms := CompiledReached(reg, m, {}, id);
      ChainLeads(reg, m, ms);
    }
  }

  lemma EndCompiled(reg: Registry, m: AgentManifest, x: AgentManifest)
    requires Compile(reg, false, m, {}).Ok? && LeadsTo(reg, m, x)
    ensures x.identity.id in Compile(reg, false, m, {}).value
  {
    var ms :| IsChain(reg, ms) && ms[0] == m && ms[|ms| - 1] == x;
    ChainCompiled(reg, m, {}, ms);
  }

  lemma ChainLeads(reg: Registry, m: AgentManifest, ms: seq<AgentManifest>)
    requires IsChain(reg, ms) && ms[0] == m
    ensures LeadsTo(reg, m, ms[|ms| - 1])
  {
  }

  /** The exact relation of the two, capability check included: preflight passes exactly
      when compilation succeeds and every reference resolves to a manifest of the
      referenced identity. */
  lemma PreflightPassesIff(reg: Registry, m: AgentManifest)
    ensures PreflightPasses(reg, m) <==> Checked(reg, m, {}).Ok? && IdentitiesMatch(reg, m)
  {
    hide Preflight, Checked, Compile, Admitted;
    PreflightIffCompile(reg, m);
    CheckedIff(reg, m, {});
    if Preflight(reg, m).Ok? {
      ClosureIsReach(reg, m);
    }
  }

  /** In production the two accept exactly the same agents. */
  lemma ProductionPassesIff(reg: Registry, m: AgentManifest)
    requires !reg.development
    ensures PreflightPasses(reg, m) <==> Checked(reg, m, {}).Ok?
  {
    hide Preflight, Checked, Compile, Admitted, IdentitiesMatch;
    ProductionAgrees(reg, m);
    PreflightIffCompile(reg, m);
    CheckedIff(reg, m, {});
    PreflightPassesIff(reg, m);
  }

  /** On an accepted release compilation meets no cycle, absent agent, wrong pin or missing
      approval, from any of its agents. */
  lemma ApprovedReleaseCompiles(w: Checks, r: Release, id: Id)
    requires ValidRelease(w, r) && id in r.agents
    ensures Checked(ReleaseRegistry(w, r.agents), r.agents[id].manifest, {}).Ok?
    ensures ReleaseRegistry(w, r.agents) ==
            Registry(w, map x | x in r.agents :: r.agents[x].manifest, r.agents.Keys, false, true)
  {
    hide ValidRelease, Checked, Compile;
    ReleaseCompiles(w, r, id);
    CheckedIff(ReleaseRegistry(w, r.agents), r.agents[id].manifest, {});
  }

  // ----- the walks as the program runs them

  class PreflightWalk {
    const reg: Registry
    var active: set<Id>
    var closure: Compiled

    constructor (reg: Registry)
      ensures this.reg == reg && active == {} && closure == map[]
    {
      this.reg := reg;
      active, closure := {}, map[];
    }

    method VisitManifest(m: AgentManifest) returns (error: Option<DelegationError>)
      modifies this
      ensures match Visit(reg, m, old(active), old(closure))
              case Ok(c) => error.None? && closure == c && active == old(active)
              case Err(e) => error == Some(e)
      decreases |Names(reg) - active|, if m.identity.id in Names(reg) then 0 else 2
    {
      var id := m.identity.id;
      if id in active {
        return Some(DelegationCycle(id));
      }
      if id in closure {
        return None;
      }
      ghost var before := active;
      active := active + {id};
      assert Names(reg) - (before + {id}) == (Names(reg) - before) - {id};
      var refs := AgentRefs(m);
      var n := 0;
      assert refs[0..] == refs;
      while n < |refs|
        invariant n <= |refs| && active == before + {id}
        invariant VisitRefs(reg, refs, active, old(closure)) == VisitRefs(reg, refs[n..], active, closure)
      {
        assert refs[n..][0] == refs[n] && refs[n..][1..] == refs[n + 1..];
        var child := Child(reg, refs[n], true);
        if child.Err? {
          return Some(child.error);
        }
        ChildNamed(reg, refs[n], true);
        error := VisitManifest(child.value);
        if error.Some? {
          return;
        }
        n := n + 1;
      }
      active := active - {id};
      closure := closure[id := m];
      error := None;
    }

    /** The walk, then the check of every manifest of the closure. */
    method Run(m: AgentManifest) returns (error: Option<DelegationError>)
      requires active == {} && closure == map[]
      modifies this
      ensures error.None? <==> PreflightPasses(reg, m)
      ensures error.None? ==> Preflight(reg, m) == Ok(closure)
    {
      error := VisitManifest(m);
      if error.Some? {
        return;
      }
      var todo := closure.Keys;
      while todo != {}
        invariant todo <= closure.Keys
        invariant forall id :: id in closure.Keys - todo ==> Admitted(reg, closure[id])
      {
        var id :| id in todo;
        if !Admitted(reg, closure[id]) {
          return Some(Unapproved(id));
        }
        todo := todo - {id};
      }
    }
  }

  class Driver {
    const reg: Registry
    var compiledManifests: Compiled

    constructor (reg: Registry)
      ensures this.reg == reg && compiledManifests == map[]
    {
      this.reg := reg;
      compiledManifests := map[];
    }

    method CompileManifest(m: AgentManifest, ancestry: set<Id>) returns (error: Option<DelegationError>)
      modifies this
      ensures match Checked(reg, m, ancestry)
              case Ok(c) => error.None? && compiledManifests == old(compiledManifests) + c
              case Err(e) => error == Some(e)
      decreases |Names(reg) - ancestry|, if m.identity.id in Names(reg) then 0 else 2
    {
      var id := m.identity.id;
      if id in ancestry {
        return Some(DelegationCycle(id));
      }
      if !Admitted(reg, m) {
        return Some(Unapproved(id));
      }
      assert Names(reg) - (ancestry + {id}) == (Names(reg) - ancestry) - {id};
      Underneath(compiledManifests, id, m, CheckedRefs(reg, AgentRefs(m), ancestry + {id}));
      compiledManifests := compiledManifests[id := m];
      error := CompileSubagents(AgentRefs(m), ancestry + {id});
    }

    method CompileSubagents(refs: seq<Ref>, ancestry: set<Id>) returns (error: Option<DelegationError>)
      modifies this
      ensures match CheckedRefs(reg, refs, ancestry)
              case Ok(c) => error.None? && compiledManifests == old(compiledManifests) + c
              case Err(e) => error == Some(e)
      decreases |Names(reg) - ancestry|, 1
    {
      hide Checked, Admitted, AgentRefs, Child;
      var n := 0;
      ghost var done: Compiled := map[];
      assert refs[0..] == refs;
      AddNothing(CheckedRefs(reg, refs, ancestry));
      while n < |refs|
        invariant n <= |refs| && compiledManifests == old(compiledManifests) + done
        invariant CheckedRefs(reg, refs, ancestry) == Adding(done, CheckedRefs(reg, refs[n..], ancestry))
      {
        assert refs[n..][0] == refs[n] && refs[n..][1..] == refs[n + 1..];
        var child := Child(reg, refs[n], false);
        if child.Err? {
          return Some(child.error);
        }
        ChildNamed(reg, refs[n], false);
        error := CompileManifest(child.value, ancestry);
        if error.Some? {
          return;
        }
        ghost var first := Checked(reg, child.value, ancestry).value;
        AddMore(done, first, CheckedRefs(reg, refs[n + 1..], ancestry));
        done := done + first;
        n := n + 1;
      }
      error := None;
    }
  }

  lemma Underneath(before: Compiled, id: Id, m: AgentManifest, r: Result<Compiled, DelegationError>)
    ensures r.Ok? ==> before[id := m] + r.value == before + (map[id := m] + r.value)
  {
  }

  function Adding(done: Compiled, r: Result<Compiled, DelegationError>): Result<Compiled, DelegationError> {
    match r
    case Ok(c) => Ok(done + c)
    case Err(e) => Err(e)
  }

  lemma AddNothing(r: Result<Compiled, DelegationError>)
    ensures Adding(map[], r) == r
  {
    if r.Ok? {
      assert map[] + r.value == r.value;
    }
  }

  lemma AddMore(done: Compiled, first: Compiled, r: Result<Compiled, DelegationError>)
    ensures Adding(done, Adding(first, r)) == Adding(done + first, r)
  {
    if r.Ok? {
      assert done + (first + r.value) == (done + first) + r.value;
    }
  }
}
