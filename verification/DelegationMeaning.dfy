/** When a delegation tree compiles and when preflight passes, told on the files: what
    every subagent reference below the root must find. */
module DelegationMeaning {
  import opened Wrappers
  import opened Graphs
  import opened Manifests
  import opened Releases
  import opened Delegation
  import opened DelegationRuntime

  /** The subagent's file exists, is valid and has the digest it is pinned to. Outside
      development mode it has to be pinned, and the file signed and of that identity. */
  ghost predicate SubAgentOk(reg: Registry, p: Provider)
    requires p.SubAgent?
  {
    && p.agentId in reg.manifests
    && ManifestOk(reg.checks, reg.manifests[p.agentId])
    && (p.pin.Some? ==> reg.checks.hash(AgentArtifact(reg.manifests[p.agentId])) == p.pin.value)
    && (!reg.development ==>
          && p.pin.Some?
          && p.agentId in reg.trusted
          && reg.manifests[p.agentId].identity.id == p.agentId)
  }

  /** What one agent of the tree must satisfy. Tools and credentials need development mode
      or an approved release. */
  ghost predicate AgentOk(reg: Registry, x: AgentManifest) {
    && (forall p :: p in x.providers && p.SubAgent? ==> SubAgentOk(reg, p))
    && (reg.development || reg.approved || forall p :: p in x.providers ==> !p.Mcp? && !p.Credential?)
  }

  ghost predicate TreeOk(reg: Registry, m: AgentManifest) {
    forall x {:trigger LeadsTo(reg, m, x)} :: LeadsTo(reg, m, x) ==> AgentOk(reg, x)
  }

  /** No chain of delegations from `m` meets an identity twice, or one of `above`. */
  ghost predicate NoneTwice(reg: Registry, m: AgentManifest, above: set<Id>) {
    forall ms {:trigger IsChain(reg, ms)} :: IsChain(reg, ms) && ms[0] == m ==> Identities(ms, above)
  }

  ghost predicate Identities(ms: seq<AgentManifest>, above: set<Id>) {
    && (forall i :: 0 <= i < |ms| ==> ms[i].identity.id !in above)
    && (forall i, j :: 0 <= i < j < |ms| ==> ms[i].identity.id != ms[j].identity.id)
  }

  // ----- the references of a manifest

  /** A delegation is a subagent entry whose file is the other manifest. */
  lemma DelegatesIff(reg: Registry, m: AgentManifest, child: AgentManifest)
    ensures Delegates(reg, m, child) <==>
            exists p ::
              && p in m.providers
              && p.SubAgent?
              && p.agentId in reg.manifests
              && reg.manifests[p.agentId] == child
  {
    hide ProviderRefs;
    forall ref
      ensures ref in AgentRefs(m) <==>
              exists p :: p in m.providers && p.SubAgent? && ref == Ref(p.agentId, p.pin)
    {
      RefsAreSubAgents(m.providers, ref);
    }
    if p :| p in m.providers && p.SubAgent? && p.agentId in reg.manifests && reg.manifests[p.agentId] == child {
      assert Ref(p.agentId, p.pin) in AgentRefs(m);
    }
  }

  lemma ChildIff(reg: Registry, p: Provider)
    requires p.SubAgent?
    ensures Child(reg, Ref(p.agentId, p.pin), false).Ok? <==> SubAgentOk(reg, p)
    ensures Child(reg, Ref(p.agentId, p.pin), true).Ok? <==>
            SubAgentOk(reg, p) && reg.manifests[p.agentId].identity.id == p.agentId
  {
  }

  /** All references resolve exactly when every subagent is in order. */
  lemma ChildrenIff(reg: Registry, m: AgentManifest)
    ensures (forall ref :: ref in AgentRefs(m) ==> Child(reg, ref, false).Ok?) <==>
            (forall p :: p in m.providers && p.SubAgent? ==> SubAgentOk(reg, p))
  {
    hide Child, SubAgentOk, ProviderRefs;
    forall p | p in m.providers && p.SubAgent?
      ensures Ref(p.agentId, p.pin) in AgentRefs(m)
      ensures Child(reg, Ref(p.agentId, p.pin), false).Ok? <==> SubAgentOk(reg, p)
    {
      RefsAreSubAgents(m.providers, Ref(p.agentId, p.pin));
      ChildIff(reg, p);
    }
    forall ref | ref in AgentRefs(m)
      ensures exists p :: p in m.providers && p.SubAgent? && ref == Ref(p.agentId, p.pin)
    {
      RefsAreSubAgents(m.providers, ref);
    }
  }

  // ----- chains, step by step

  lemma LeadsStep(reg: Registry, m: AgentManifest, x: AgentManifest)
    ensures LeadsTo(reg, m, x) <==> x == m || exists child :: Delegates(reg, m, child) && LeadsTo(reg, child, x)
  {
    if LeadsTo(reg, m, x) && x != m {
      var ms :| IsChain(reg, ms) && ms[0] == m && ms[|ms| - 1] == x;
      assert Delegates(reg, ms[0], ms[1]);
      ChainTail(reg, ms);
      assert ms[1..][0] == ms[1] && ms[1..][|ms[1..]| - 1] == x;
      assert LeadsTo(reg, ms[1], x);
    }
    LeadsToSelf(reg, m);
    forall child | Delegates(reg, m, child) && LeadsTo(reg, child, x) ensures LeadsTo(reg, m, x) {
      LeadsThrough(reg, m, child, x);
    }
  }

  lemma TwiceStep(reg: Registry, m: AgentManifest, above: set<Id>)
    ensures NoneTwice(reg, m, above) <==>
            && m.identity.id !in above
            && forall child :: Delegates(reg, m, child) ==> NoneTwice(reg, child, above + {m.identity.id})
  {
    var id := m.identity.id;
    if NoneTwice(reg, m, above) {
      assert IsChain(reg, [m]) && Identities([m], above);
      assert [m][0].identity.id !in above;
      forall child, ms | Delegates(reg, m, child) && IsChain(reg, ms) && ms[0] == child
        ensures Identities(ms, above + {id})
      {
        ChainCons(reg, m, ms);
        var cs := [m] + ms;
        assert Identities(cs, above);
        assert forall i :: 0 <= i < |ms| ==> ms[i] == cs[i + 1];
      }
    }
    if id !in above && forall child :: Delegates(reg, m, child) ==> NoneTwice(reg, child, above + {id}) {
      forall ms | IsChain(reg, ms) && ms[0] == m ensures Identities(ms, above) {
        if |ms| > 1 {
          assert Delegates(reg, ms[0], ms[1]);
          ChainTail(reg, ms);
          assert Identities(ms[1..], above + {id});
          assert forall i :: 0 < i < |ms| ==> ms[i] == ms[1..][i - 1];
        }
      }
    }
  }

  // ----- compilation

  /** Every subagent reference in the tree is in order. */
  ghost predicate RefsOkBelow(reg: Registry, m: AgentManifest) {
    forall x {:trigger LeadsTo(reg, m, x)} :: LeadsTo(reg, m, x) ==> RefsOkAt(reg, x)
  }

  ghost predicate RefsOkAt(reg: Registry, x: AgentManifest) {
    forall ref :: ref in AgentRefs(x) ==> Child(reg, ref, false).Ok?
  }

  lemma BelowStep(reg: Registry, m: AgentManifest)
    ensures RefsOkBelow(reg, m) <==>
            RefsOkAt(reg, m) && forall child :: Delegates(reg, m, child) ==> RefsOkBelow(reg, child)
  {
    hide RefsOkAt, Delegates;
    forall x
      ensures LeadsTo(reg, m, x) <==> x == m || exists child :: Delegates(reg, m, child) && LeadsTo(reg, child, x)
    {
      LeadsStep(reg, m, x);
    }
    if RefsOkBelow(reg, m) {
      LeadsToSelf(reg, m);
      forall child, x | Delegates(reg, m, child) && LeadsTo(reg, child, x) ensures RefsOkAt(reg, x) {
        assert LeadsTo(reg, m, x);
      }
    }
  }

  lemma {:induction false} RefsCompileIff(reg: Registry, refs: seq<Ref>, ancestry: set<Id>)
    ensures CompileRefs(reg, false, refs, ancestry).Ok? <==>
            forall ref :: ref in refs ==>
              Child(reg, ref, false).Ok? && Compile(reg, false, Child(reg, ref, false).value, ancestry).Ok?
  {
    hide Child, Compile;
    if refs != [] {
      RefsCompileIff(reg, refs[1..], ancestry);
      assert forall ref :: ref in refs <==> ref == refs[0] || ref in refs[1..];
    }
  }

  lemma {:induction false} CompileIff(reg: Registry, m: AgentManifest, ancestry: set<Id>)
    ensures Compile(reg, false, m, ancestry).Ok? <==> NoneTwice(reg, m, ancestry) && RefsOkBelow(reg, m)
    decreases |Names(reg) - ancestry|, if m.identity.id in Names(reg) then 0 else 2
  {
    hide Names, CompileRefs, Child, AgentRefs, NoneTwice, RefsOkBelow;
    var id, refs := m.identity.id, AgentRefs(m);
    TwiceStep(reg, m, ancestry);
    BelowStep(reg, m);
    if id !in ancestry {
      RefsCompileIff(reg, refs, ancestry + {id});
      FewerLeft(reg, ancestry, id);
      forall ref | ref in refs && Child(reg, ref, false).Ok?
        ensures var child := Child(reg, ref, false).value;
                && Delegates(reg, m, child)
                && (Compile(reg, false, child, ancestry + {id}).Ok? <==>
                    NoneTwice(reg, child, ancestry + {id}) && RefsOkBelow(reg, child))
      {
        ChildNamed(reg, ref, false);
        CompileIff(reg, Child(reg, ref, false).value, ancestry + {id});
      }
      DelegatesAreChildren(reg, m);
    }
  }

  lemma DelegatesAreChildren(reg: Registry, m: AgentManifest)
    ensures RefsOkAt(reg, m) ==>
              forall child :: Delegates(reg, m, child) ==>
                exists ref :: ref in AgentRefs(m) && Child(reg, ref, false) == Ok(child)
  {
    hide AgentRefs;
    if RefsOkAt(reg, m) {
      forall child | Delegates(reg, m, child)
        ensures exists ref :: ref in AgentRefs(m) && Child(reg, ref, false) == Ok(child)
      {
        var ref :| ref in AgentRefs(m) && ref.agentId in reg.manifests && reg.manifests[ref.agentId] == child;
        ChildNamed(reg, ref, false);
      }
    }
  }

  lemma TreeOkIff(reg: Registry, m: AgentManifest)
    ensures TreeOk(reg, m) <==> RefsOkBelow(reg, m) && AllAdmitted(reg, m)
  {
    hide LeadsTo, Child, AgentRefs, SubAgentOk;
    forall x ensures AgentOk(reg, x) <==> RefsOkAt(reg, x) && Admitted(reg, x) {
      ChildrenIff(reg, x);
    }
  }

  /** An agent compiles exactly when no chain of delegations comes back to an identity, and
      every agent below it is in order. */
  lemma CheckedMeans(reg: Registry, m: AgentManifest)
    ensures Checked(reg, m, {}).Ok? <==> NoneTwice(reg, m, {}) && TreeOk(reg, m)
  {
    hide *;
    CheckedIff(reg, m, {});
    CompileIff(reg, m, {});
    TreeOkIff(reg, m);
  }

  /** Preflight asks in addition, in development mode too, that every file found has the
      identity it was found under. */
  lemma PreflightMeans(reg: Registry, m: AgentManifest)
    ensures PreflightPasses(reg, m) <==>
            && NoneTwice(reg, m, {})
            && TreeOk(reg, m)
            && forall x, p :: LeadsTo(reg, m, x) && p in x.providers && p.SubAgent? && p.agentId in reg.manifests ==>
                                reg.manifests[p.agentId].identity.id == p.agentId
  {
    hide *;
    PreflightPassesIff(reg, m);
    CheckedMeans(reg, m);
    IdentitiesIff(reg, m);
  }

  lemma IdentitiesIff(reg: Registry, m: AgentManifest)
    ensures IdentitiesMatch(reg, m) <==>
            forall x, p :: LeadsTo(reg, m, x) && p in x.providers && p.SubAgent? && p.agentId in reg.manifests ==>
                             reg.manifests[p.agentId].identity.id == p.agentId
  {
    hide ProviderRefs;
    forall x ensures RefsMatch(reg, x) <==>
                     forall p :: p in x.providers && p.SubAgent? && p.agentId in reg.manifests ==>
                                   reg.manifests[p.agentId].identity.id == p.agentId {
      MatchIff(reg, x);
    }
    if IdentitiesMatch(reg, m) {
      forall x | LeadsTo(reg, m, x) ensures RefsMatch(reg, x) {
        var ms :| IsChain(reg, ms) && ms[0] == m && ms[|ms| - 1] == x;
      }
    }
    if forall x :: LeadsTo(reg, m, x) ==> RefsMatch(reg, x) {
      forall ms | IsChain(reg, ms) && ms[0] == m ensures RefsMatch(reg, ms[|ms| - 1]) {
        assert LeadsTo(reg, m, ms[|ms| - 1]);
      }
    }
  }

  lemma MatchIff(reg: Registry, x: AgentManifest)
    ensures RefsMatch(reg, x) <==>
            forall p :: p in x.providers && p.SubAgent? && p.agentId in reg.manifests ==>
                          reg.manifests[p.agentId].identity.id == p.agentId
  {
    hide ProviderRefs;
    forall p | p in x.providers && p.SubAgent? ensures Ref(p.agentId, p.pin) in AgentRefs(x) {
      RefsAreSubAgents(x.providers, Ref(p.agentId, p.pin));
    }
    forall ref | ref in AgentRefs(x)
      ensures exists p :: p in x.providers && p.SubAgent? && ref == Ref(p.agentId, p.pin)
    {
      RefsAreSubAgents(x.providers, ref);
    }
  }

  // ----- every refusal has its reason in the files

  /** A subagent entry of an agent that the root leads to. */
  ghost predicate HasSubAgent(reg: Registry, root: AgentManifest, x: AgentManifest, p: Provider) {
    LeadsTo(reg, root, x) && p in x.providers && p.SubAgent?
  }

  ghost predicate ComesBack(reg: Registry, root: AgentManifest, ms: seq<AgentManifest>, id: Id) {
    && IsChain(reg, ms) && ms[0] == root && ms[|ms| - 1].identity.id == id
    && exists i :: 0 <= i < |ms| - 1 && ms[i].identity.id == id
  }

  /** What each error says of the registry. */
  ghost predicate Justified(reg: Registry, root: AgentManifest, e: DelegationError) {
    match e
    case UnknownAgent(id) =>
      exists x, p :: HasSubAgent(reg, root, x, p) && p.agentId == id && id !in reg.manifests
    case Untrusted(id) =>
      && !reg.development && id in reg.manifests
      && (id !in reg.trusted || reg.manifests[id].identity.id != id)
      && exists x, p :: HasSubAgent(reg, root, x, p) && p.agentId == id
    case WrongAgent(id) =>
      && id in reg.manifests && reg.manifests[id].identity.id != id
      && exists x, p :: HasSubAgent(reg, root, x, p) && p.agentId == id
    case Unpinned(id) =>
      !reg.development && exists x, p :: HasSubAgent(reg, root, x, p) && p.agentId == id && p.pin.None?
    case ChangedAgent(id) =>
      && id in reg.manifests
      && exists x, p :: HasSubAgent(reg, root, x, p) && p.agentId == id && p.pin.Some?
                        && p.pin.value != reg.checks.hash(AgentArtifact(reg.manifests[id]))
    case InvalidAgent(id) =>
      && id in reg.manifests && !ManifestOk(reg.checks, reg.manifests[id])
      && exists x, p :: HasSubAgent(reg, root, x, p) && p.agentId == id
    case Unapproved(id) =>
      && !reg.development && !reg.approved
      && exists x, p :: LeadsTo(reg, root, x) && x.identity.id == id && p in x.providers && !p.SubAgent?
    case DelegationCycle(id) => exists ms :: ComesBack(reg, root, ms, id)
    case ChangedSinceCompilation(_) => false
  }

  /** The identities of the agents of a chain. */
  ghost function IdsOf(ms: seq<AgentManifest>): set<Id> {
    set m | m in ms :: m.identity.id
  }

  lemma IdsGrow(ms: seq<AgentManifest>)
    requires |ms| > 0
    ensures IdsOf(ms) == IdsOf(ms[..|ms| - 1]) + {ms[|ms| - 1].identity.id}
  {
    assert ms == ms[..|ms| - 1] + [ms[|ms| - 1]];
    assert forall m :: m in ms <==> m == ms[|ms| - 1] || m in ms[..|ms| - 1];
  }

  ghost predicate ChainFrom(reg: Registry, root: AgentManifest, ms: seq<AgentManifest>) {
    IsChain(reg, ms) && ms[0] == root
  }

  lemma ReferenceJustified(reg: Registry, root: AgentManifest, ms: seq<AgentManifest>, ref: Ref, preflight: bool)
    requires ChainFrom(reg, root, ms) && ref in AgentRefs(ms[|ms| - 1])
    ensures var child := Child(reg, ref, preflight);
            && (child.Err? ==> Justified(reg, root, child.error) && (preflight || !child.error.WrongAgent?))
            && (child.Ok? ==> ChainFrom(reg, root, ms + [child.value])
                              && (ms + [child.value])[|ms|] == child.value && (ms + [child.value])[..|ms|] == ms)
  {
    hide ManifestOk, ProviderRefs;
    var x := ms[|ms| - 1];
    RefsAreSubAgents(x.providers, ref);
    var p :| p in x.providers && p.SubAgent? && ref == Ref(p.agentId, p.pin);
    assert LeadsTo(reg, root, x);
    assert HasSubAgent(reg, root, x, p);
    if Child(reg, ref, preflight).Ok? {
      var child := Child(reg, ref, preflight).value;
      assert Delegates(reg, x, child);
      ChainSnoc(reg, ms, child);
    }
  }

  lemma ChainSnoc(reg: Registry, ms: seq<AgentManifest>, child: AgentManifest)
    requires IsChain(reg, ms) && Delegates(reg, ms[|ms| - 1], child)
    ensures IsChain(reg, ms + [child]) && (ms + [child])[0] == ms[0]
  {
    var cs := ms + [child];
    forall i | 0 <= i < |cs| - 1 ensures Delegates(reg, cs[i], cs[i + 1]) {
      if i < |ms| - 1 {
        assert cs[i] == ms[i] && cs[i + 1] == ms[i + 1];
      }
    }
  }

  lemma CycleIsReal(reg: Registry, root: AgentManifest, ms: seq<AgentManifest>)
    requires ChainFrom(reg, root, ms) && ms[|ms| - 1].identity.id in IdsOf(ms[..|ms| - 1])
    ensures Justified(reg, root, DelegationCycle(ms[|ms| - 1].identity.id))
  {
    var id := ms[|ms| - 1].identity.id;
    var m :| m in ms[..|ms| - 1] && m.identity.id == id;
    var i :| 0 <= i < |ms| - 1 && ms[..|ms| - 1][i] == m;
    assert ms[i].identity.id == id;
    assert ComesBack(reg, root, ms, id);
  }

  lemma RefusalIsReal(reg: Registry, root: AgentManifest, ms: seq<AgentManifest>)
    requires ChainFrom(reg, root, ms) && !Admitted(reg, ms[|ms| - 1])
    ensures Justified(reg, root, Unapproved(ms[|ms| - 1].identity.id))
  {
    assert LeadsTo(reg, root, ms[|ms| - 1]);
  }

  /** Compilation, at the end of a chain of delegations. */
  lemma {:induction false} CheckedJustified(reg: Registry, root: AgentManifest, ms: seq<AgentManifest>)
    requires |ms| > 0 && ChainFrom(reg, root, ms)
    ensures var out := Checked(reg, ms[|ms| - 1], IdsOf(ms[..|ms| - 1]));
            out.Err? ==> Justified(reg, root, out.error) && !out.error.WrongAgent?
    decreases |Names(reg) - IdsOf(ms[..|ms| - 1])|, if ms[|ms| - 1].identity.id in Names(reg) then 0 else 2, 0
  {
    hide IsChain, Justified, AgentRefs, Names, Admitted, CheckedRefs;
    var m, above := ms[|ms| - 1], IdsOf(ms[..|ms| - 1]);
    IdsGrow(ms);
    FewerLeft(reg, above, m.identity.id);
    if m.identity.id in above {
      CycleIsReal(reg, root, ms);
    } else if !Admitted(reg, m) {
      RefusalIsReal(reg, root, ms);
    } else {
      CheckedRefsJustified(reg, root, ms, AgentRefs(m));
    }
  }

  lemma {:induction false} CheckedRefsJustified(reg: Registry, root: AgentManifest, ms: seq<AgentManifest>,
                                                refs: seq<Ref>)
    requires |ms| > 0 && ChainFrom(reg, root, ms) && forall ref :: ref in refs ==> ref in AgentRefs(ms[|ms| - 1])
    ensures var out := CheckedRefs(reg, refs, IdsOf(ms));
            out.Err? ==> Justified(reg, root, out.error) && !out.error.WrongAgent?
    decreases |Names(reg) - IdsOf(ms)|, 1, |refs|
  {
    hide IsChain, Justified, AgentRefs, Names, Child, Checked;
    if refs != [] {
      assert refs[0] in refs && forall ref :: ref in refs[1..] ==> ref in refs;
      ReferenceJustified(reg, root, ms, refs[0], false);
      if Child(reg, refs[0], false).Ok? {
        ChildNamed(reg, refs[0], false);
        CheckedJustified(reg, root, ms + [Child(reg, refs[0], false).value]);
        CheckedRefsJustified(reg, root, ms, refs[1..]);
      }
    }
  }

  /** The preflight walk, whatever it has finished. */
  lemma {:induction false} VisitJustified(reg: Registry, root: AgentManifest, ms: seq<AgentManifest>, closure: Compiled)
    requires |ms| > 0 && ChainFrom(reg, root, ms)
    ensures var out := Visit(reg, ms[|ms| - 1], IdsOf(ms[..|ms| - 1]), closure);
            out.Err? ==> Justified(reg, root, out.error) && !out.error.Unapproved?
    decreases |Names(reg) - IdsOf(ms[..|ms| - 1])|, if ms[|ms| - 1].identity.id in Names(reg) then 0 else 2, 0
  {
    hide IsChain, Justified, AgentRefs, Names, VisitRefs;
    var m, above := ms[|ms| - 1], IdsOf(ms[..|ms| - 1]);
    IdsGrow(ms);
    FewerLeft(reg, above, m.identity.id);
    if m.identity.id in above {
      CycleIsReal(reg, root, ms);
    } else if m.identity.id !in closure {
      VisitRefsJustified(reg, root, ms, AgentRefs(m), closure);
    }
  }

  lemma {:induction false} VisitRefsJustified(reg: Registry, root: AgentManifest, ms: seq<AgentManifest>,
                                              refs: seq<Ref>, closure: Compiled)
    requires |ms| > 0 && ChainFrom(reg, root, ms) && forall ref :: ref in refs ==> ref in AgentRefs(ms[|ms| - 1])
    ensures var out := VisitRefs(reg, refs, IdsOf(ms), closure);
            out.Err? ==> Justified(reg, root, out.error) && !out.error.Unapproved?
    decreases |Names(reg) - IdsOf(ms)|, 1, |refs|
  {
    hide IsChain, Justified, AgentRefs, Names, Visit;
    if refs != [] {
      assert refs[0] in refs && forall ref :: ref in refs[1..] ==> ref in refs;
      ReferenceJustified(reg, root, ms, refs[0], true);
      ChildErrors(reg, refs[0]);
      if Child(reg, refs[0], true).Ok? {
        ChildNamed(reg, refs[0], true);
        var child := Child(reg, refs[0], true).value;
        VisitJustified(reg, root, ms + [child], closure);
        var below := Visit(reg, child, IdsOf(ms), closure);
        if below.Ok? {
          VisitRefsJustified(reg, root, ms, refs[1..], below.value);
        }
      }
    }
  }

  lemma ChildErrors(reg: Registry, ref: Ref)
    ensures Child(reg, ref, true).Err? ==> !Child(reg, ref, true).error.Unapproved?
  {
  }

  /** Whatever refuses an agent, at compilation or in preflight, says something true of an
      agent it leads to, or of a subagent entry there. */
  lemma RefusalMeans(reg: Registry, m: AgentManifest)
    ensures Checked(reg, m, {}).Err? ==>
              Justified(reg, m, Checked(reg, m, {}).error) && !Checked(reg, m, {}).error.WrongAgent?
    ensures Preflight(reg, m).Err? ==> Justified(reg, m, Preflight(reg, m).error)
  {
    hide Justified, Checked, Visit;
    assert ChainFrom(reg, m, [m]) && [m][..0] == [] && IdsOf([]) == {};
    CheckedJustified(reg, m, [m]);
    VisitJustified(reg, m, [m], map[]);
  }
}
