/** Whether the depth limit stops a release depends on the order of its references. */
module ReferenceOrder {
  import opened Wrappers
  import opened Graphs
  import opened WorkflowDag
  import opened Manifests
  import opened Releases
  import opened ReleaseBuilder

  // ----- the same release with its references in another order

  /** The same agent, apart from pins and the order of its providers. */
  predicate SameAgent(a: AgentManifest, b: AgentManifest) {
    && b == a.(providers := b.providers)
    && multiset(ErasePins(b.providers)) == multiset(ErasePins(a.providers))
  }

  function ErasePinsOf(steps: seq<Step>): seq<Step> {
    seq(|steps|, i requires 0 <= i < |steps| => steps[i].(pin := None))
  }

  /** The same workflow, apart from pins and the order of its steps. */
  predicate SameWorkflow(a: WorkflowManifest, b: WorkflowManifest) {
    && b == a.(steps := b.steps)
    && multiset(ErasePinsOf(b.steps)) == multiset(ErasePinsOf(a.steps))
  }

  ghost predicate SameAgents(a: Agents, b: Agents) {
    b.Keys == a.Keys && forall id :: id in a ==> SameAgent(a[id].manifest, b[id].manifest)
  }

  /** The same release in another order; digests and pins follow from the order. */
  ghost predicate Reordered(r: Release, o: Release) {
    && o.identity == r.identity && o.entry.kind == r.entry.kind && o.entry.id == r.entry.id
    && SameAgents(r.agents, o.agents)
    && (r.workflow.Some? <==> o.workflow.Some?)
    && (r.workflow.Some? ==> SameWorkflow(r.workflow.value.manifest, o.workflow.value.manifest))
  }

  /** Every check of the validator passes, except that a walk may be stopped by the depth
      limit: digests, schemas, identities and pins are right, and the graph is sealed. */
  ghost predicate Consistent(w: Checks, r: Release) {
    && 1 <= |r.agents| <= MAX_AGENTS
    && (forall id :: id in r.agents ==> AgentOk(w, id, r.agents[id]))
    && EntryOk(w, r) && Sealed(r)
  }

  /** Only the walk separates a consistent release from a valid one. */
  lemma ConsistentIff(w: Checks, r: Release)
    ensures ValidRelease(w, r) <==> Consistent(w, r) && EntryWalk(r) == Ok(r.agents.Keys)
  {
    if ValidRelease(w, r) {
      var order := AcceptedIsSealed(w, r);
    }
  }

  // ----- the order does not change the graph

  predicate RefersTo(p: Provider, id: Id) {
    p.SubAgent? && p.agentId == id
  }

  ghost predicate Lists(ps: seq<Provider>, id: Id) {
    exists q :: q in ps && RefersTo(q, id)
  }

  lemma ListsCons(p: Provider, ps: seq<Provider>, id: Id)
    ensures Lists([p] + ps, id) <==> RefersTo(p, id) || Lists(ps, id)
  {
    if RefersTo(p, id) {
      assert p in [p] + ps;
    }
    if q :| q in ps && RefersTo(q, id) {
      assert q in [p] + ps;
    }
  }

  lemma {:induction false} TargetIn(ps: seq<Provider>, id: Id)
    ensures id in Targets(ProviderRefs(ps)) <==> Lists(ErasePins(ps), id)
  {
    hide Lists;
    if ps == [] {
      NothingListed(id);
    } else {
      TargetIn(ps[1..], id);
      ListsCons(ErasePin(ps[0]), ErasePins(ps[1..]), id);
      var first := if ps[0].SubAgent? then [Ref(ps[0].agentId, ps[0].pin)] else [];
      assert ErasePins(ps) == [ErasePin(ps[0])] + ErasePins(ps[1..]);
      assert Targets(ProviderRefs(ps)) == Targets(first) + Targets(ProviderRefs(ps[1..]));
      assert Targets(first) == if ps[0].SubAgent? then [ps[0].agentId] else [];
    }
  }

  lemma NothingListed(id: Id)
    ensures !Lists([], id)
  {
  }

  /** Two graphs with the same edges. */
  ghost predicate SameEdges(g: Graph, h: Graph) {
    forall a, b :: Edge(g, a, b) <==> Edge(h, a, b)
  }

  lemma SamePaths(g: Graph, h: Graph, p: seq<Id>)
    requires SameEdges(g, h)
    ensures IsPath(g, p) <==> IsPath(h, p)
  {
  }

  lemma ReorderedEdges(a: Agents, b: Agents)
    requires SameAgents(a, b)
    ensures SameEdges(RefGraph(a), RefGraph(b))
  {
    forall x, y ensures Edge(RefGraph(a), x, y) <==> Edge(RefGraph(b), x, y) {
      if x in a {
        var ps, qs := a[x].manifest.providers, b[x].manifest.providers;
        TargetIn(ps, y);
        TargetIn(qs, y);
        assert SameAgent(a[x].manifest, b[x].manifest);
        SameMembers(ErasePins(ps), ErasePins(qs));
      }
    }
  }

  lemma SameMembers<T>(s: seq<T>, t: seq<T>)
    requires multiset(s) == multiset(t)
    ensures (forall x :: x in s <==> x in t) && |s| == |t|
  {
    assert |multiset(s)| == |s| && |multiset(t)| == |t|;
    forall x ensures x in s <==> x in t {
      assert x in s <==> x in multiset(s);
      assert x in t <==> x in multiset(t);
    }
  }

  lemma SameShallow(g: Graph, h: Graph, a: Id, base: nat)
    requires SameEdges(g, h) && Shallow(g, a, base)
    ensures Shallow(h, a, base)
  {
    forall p | PathFrom(h, a, p) ensures |p| - 1 + base <= MAX_DEPTH {
      SamePaths(g, h, p);
      assert PathFrom(g, a, p);
    }
  }

  lemma SameReach(g: Graph, h: Graph, a: Id, b: Id)
    requires SameEdges(g, h) && Reach(g, a, b)
    ensures Reach(h, a, b)
  {
    var p :| PathFrom(g, a, p) && p[|p| - 1] == b;
    SamePaths(g, h, p);
    assert PathFrom(h, a, p);
  }

  lemma SameAcyclic(g: Graph, h: Graph)
    requires SameEdges(g, h) && Acyclic(g)
    ensures Acyclic(h)
  {
    forall p ensures !IsCycle(h, p) {
      SamePaths(g, h, p);
      assert !IsCycle(g, p);
    }
  }

  predicate HasWorkflow(r: Release) {
    r.entry.kind.WorkflowKind? ==> r.workflow.Some?
  }

  lemma RootsOfSteps(steps: seq<Step>, a: Id)
    ensures (exists i :: 0 <= i < |steps| && steps[i].agentId == a) <==>
            (exists s :: s in ErasePinsOf(steps) && s.agentId == a)
  {
    if i :| 0 <= i < |steps| && steps[i].agentId == a {
      assert ErasePinsOf(steps)[i] in ErasePinsOf(steps);
    }
    if s :| s in ErasePinsOf(steps) && s.agentId == a {
      var i :| 0 <= i < |steps| && ErasePinsOf(steps)[i] == s;
      assert steps[i].agentId == a;
    }
  }

  lemma ReorderedRoots(r: Release, o: Release)
    requires HasWorkflow(r) && Reordered(r, o)
    ensures HasWorkflow(o) && Roots(o) == Roots(r) && BaseDepth(o) == BaseDepth(r)
  {
    if r.entry.kind.WorkflowKind? {
      var s, t := r.workflow.value.manifest.steps, o.workflow.value.manifest.steps;
      SameMembers(ErasePinsOf(s), ErasePinsOf(t));
      forall a ensures a in Roots(r) <==> a in Roots(o) {
        RootsOfSteps(s, a);
        RootsOfSteps(t, a);
      }
    }
  }

  // ----- an order in which the walk follows a given path

  function ToFront<T>(s: seq<T>, i: nat): (t: seq<T>)
    requires i < |s|
    ensures multiset(t) == multiset(s) && t[0] == s[i]
  {
    assert s == s[..i] + [s[i]] + s[i + 1..];
    [s[i]] + s[..i] + s[i + 1..]
  }

  /** The manifest with a reference to `target` listed first, if it has one. */
  ghost function Fronted(m: AgentManifest, target: Id): AgentManifest {
    if exists i :: 0 <= i < |m.providers| && RefersTo(m.providers[i], target) then
      var i :| 0 <= i < |m.providers| && RefersTo(m.providers[i], target);
      m.(providers := ToFront(m.providers, i))
    else m
  }

  lemma FrontedFirst(agents: Agents, id: Id, target: Id)
    requires Edge(RefGraph(agents), id, target)
    ensures var refs := AgentRefs(Fronted(agents[id].manifest, target)); refs != [] && refs[0].agentId == target
  {
    var ps := agents[id].manifest.providers;
    TargetIn(ps, target);
    var q :| q in ErasePins(ps) && RefersTo(q, target);
    var i := ErasedAt(ps, q);
    assert RefersTo(ps[i], target);
  }

  lemma {:induction false} ErasedAt(ps: seq<Provider>, q: Provider) returns (i: nat)
    requires q in ErasePins(ps)
    ensures i < |ps| && ErasePin(ps[i]) == q
  {
    if ErasePin(ps[0]) == q {
      i := 0;
    } else {
      var k := ErasedAt(ps[1..], q);
      i := k + 1;
    }
  }

  lemma {:induction false} EraseJoin(a: seq<Provider>, b: seq<Provider>)
    ensures ErasePins(a + b) == ErasePins(a) + ErasePins(b)
  {
    if a == [] {
      assert a + b == b;
    } else {
      var first, rest := ErasePin(a[0]), ErasePins(a[1..]);
      EraseJoin(a[1..], b);
      assert (a + b)[0] == a[0] && (a + b)[1..] == a[1..] + b;
      assert ErasePins(a + b) == [first] + (rest + ErasePins(b));
      assert ErasePins(a) == [first] + rest;
      assert [first] + (rest + ErasePins(b)) == ([first] + rest) + ErasePins(b);
    }
  }

  lemma EraseToFront(ps: seq<Provider>, i: nat)
    requires i < |ps|
    ensures multiset(ErasePins(ToFront(ps, i))) == multiset(ErasePins(ps))
  {
    hide ErasePins, ToFront;
    var a, p, b := FrontParts(ps, i);
    EraseThree(a, p, b);
    EraseThree(p, a, b);
    Swap(ErasePins(a), ErasePins(p), ErasePins(b));
  }

  lemma FrontParts<T>(s: seq<T>, i: nat) returns (a: seq<T>, p: seq<T>, b: seq<T>)
    requires i < |s|
    ensures s == a + p + b && ToFront(s, i) == p + a + b
  {
    a, p, b := s[..i], [s[i]], s[i + 1..];
  }

  lemma EraseThree(a: seq<Provider>, b: seq<Provider>, c: seq<Provider>)
    ensures ErasePins(a + b + c) == ErasePins(a) + ErasePins(b) + ErasePins(c)
  {
    hide ErasePins;
    EraseJoin(a + b, c);
    EraseJoin(a, b);
  }

  lemma Swap<T>(a: seq<T>, p: seq<T>, b: seq<T>)
    ensures multiset(p + a + b) == multiset(a + p + b)
  {
  }

  lemma FrontedIsSame(m: AgentManifest, target: Id)
    ensures SameAgent(m, Fronted(m, target)) && multiset(Fronted(m, target).providers) == multiset(m.providers)
  {
    hide ToFront, ErasePins;
    forall i | 0 <= i < |m.providers|
      ensures multiset(ErasePins(ToFront(m.providers, i))) == multiset(ErasePins(m.providers))
    {
      EraseToFront(m.providers, i);
    }
  }

  /** Every agent on the path lists its successor on the path first. */
  ghost function Led(agents: Agents, p: seq<Id>): Agents {
    if |p| <= 1 || p[0] !in agents then agents
    else Led(agents, p[1..])[p[0] := agents[p[0]].(manifest := Fronted(agents[p[0]].manifest, p[1]))]
  }

  ghost predicate Leads(agents: Agents, p: seq<Id>) {
    forall k :: 0 <= k < |p| - 1 ==> FirstRefIs(agents, p[k], p[k + 1])
  }

  ghost predicate FirstRefIs(agents: Agents, id: Id, target: Id) {
    id in agents && RefsOf(agents, id) != [] && RefsOf(agents, id)[0].agentId == target
  }

  /** Only the order of providers differs. */
  ghost predicate Shuffled(a: Agents, b: Agents) {
    b.Keys == a.Keys && forall id :: id in a ==> ShuffledAgent(a[id].manifest, b[id].manifest)
  }

  predicate ShuffledAgent(a: AgentManifest, b: AgentManifest) {
    SameAgent(a, b) && multiset(b.providers) == multiset(a.providers)
  }

  lemma {:induction false} LedAlong(agents: Agents, p: seq<Id>)
    requires IsPath(RefGraph(agents), p) && Distinct(p)
    ensures Shuffled(agents, Led(agents, p)) && Leads(Led(agents, p), p)
    ensures forall id :: id in agents && id !in p ==> Led(agents, p)[id] == agents[id]
    decreases |p|
  {
    hide Fronted, ShuffledAgent, AgentRefs;
    if |p| <= 1 {
      forall id | id in agents ensures ShuffledAgent(agents[id].manifest, agents[id].manifest) {
        SameSelf(agents[id].manifest);
      }
    } else {
      PathSlice(RefGraph(agents), p, 1, |p|);
      LedAlong(agents, p[1..]);
      EdgeOfPath(RefGraph(agents), p);
      FrontedFirst(agents, p[0], p[1]);
      FrontedIsShuffled(agents[p[0]].manifest, p[1]);
      LeadsOn(agents, Led(agents, p[1..]), p);
    }
  }

  lemma EdgeOfPath(g: Graph, p: seq<Id>)
    requires IsPath(g, p) && |p| > 1
    ensures Edge(g, p[0], p[1]) && p[0] in g
  {
  }

  /** One more agent of the path, in front of those that lead already. */
  lemma LeadsOn(agents: Agents, rest: Agents, p: seq<Id>)
    requires |p| > 1 && Distinct(p) && Leads(rest, p[1..]) && p[0] in agents
    requires var refs := AgentRefs(Fronted(agents[p[0]].manifest, p[1])); refs != [] && refs[0].agentId == p[1]
    ensures Leads(rest[p[0] := agents[p[0]].(manifest := Fronted(agents[p[0]].manifest, p[1]))], p)
  {
    hide Fronted, AgentRefs;
    var led := rest[p[0] := agents[p[0]].(manifest := Fronted(agents[p[0]].manifest, p[1]))];
    forall k | 0 <= k < |p| - 1 ensures FirstRefIs(led, p[k], p[k + 1]) {
      if k > 0 {
        assert FirstRefIs(rest, p[1..][k - 1], p[1..][k]);
      }
    }
  }

  lemma FrontedIsShuffled(m: AgentManifest, target: Id)
    ensures ShuffledAgent(m, Fronted(m, target))
  {
    FrontedIsSame(m, target);
  }

  lemma SameSelf(m: AgentManifest)
    ensures ShuffledAgent(m, m)
  {
  }

  // ----- no agent check looks at the order

  lemma {:induction false} ChecksByMember(w: Checks, ps: seq<Provider>, credentials: set<Id>)
    ensures ProvidersSchema(w, ps) <==> forall p :: p in ps ==> ProviderSchema(w, p)
    ensures ProductionProviders(w, ps) <==> forall p :: p in ps ==> ProductionProvider(w, p)
    ensures BindingsWithin(ps, credentials) <==>
            forall p :: p in ps ==> p.Mcp? ==> p.credentialBindings.Values <= credentials
    ensures DeclaredCredentials(ps) == set p | p in ps && p.Credential? :: p.id
    ensures Elems(ProviderIds(ps)) == set p | p in ps :: p.id
  {
    if ps != [] {
      ChecksByMember(w, ps[1..], credentials);
      assert ps == [ps[0]] + ps[1..];
      assert ProviderIds(ps) == [ps[0].id] + ProviderIds(ps[1..]);
      assert Elems(ProviderIds(ps)) == {ps[0].id} + Elems(ProviderIds(ps[1..]));
    }
  }

  lemma ShuffledIsOk(w: Checks, a: AgentManifest, b: AgentManifest)
    requires b == a.(providers := b.providers) && multiset(b.providers) == multiset(a.providers)
    requires ManifestOk(w, a) && ProductionOk(w, a)
    ensures ManifestOk(w, b) && ProductionOk(w, b)
  {
    SameMembers(a.providers, b.providers);
    var credentials := DeclaredCredentials(a.providers);
    ChecksByMember(w, a.providers, credentials);
    ChecksByMember(w, b.providers, credentials);
    assert DeclaredCredentials(b.providers) == credentials;
    assert Elems(ProviderIds(b.providers)) == Elems(ProviderIds(a.providers));
  }

  // ----- the digests and pins of the new order

  /** The digests with which the references' targets are recorded. */
  function Pins(done: Agents, refs: seq<Ref>): (pins: seq<Digest>)
    ensures |pins| == |refs|
  {
    seq(|refs|, i requires 0 <= i < |refs| => if refs[i].agentId in done then done[refs[i].agentId].sha256 else "")
  }

  /** The manifests of `from` with pins and digests of their own, children first. */
  ghost function Reseal(f: Files, from: Agents, order: seq<Id>): Agents {
    if order == [] then map[]
    else
      var id, done := order[|order| - 1], Reseal(f, from, order[..|order| - 1]);
      if id !in from then done
      else done[id := Lock(f, from[id].manifest, Pins(done, RefsOf(from, id)))]
  }

  ghost predicate Sealable(f: Files, from: Agents, id: Id) {
    && id in from && IsIdentifier(id) && from[id].manifest.identity.id == id
    && ManifestOk(f.checks, from[id].manifest) && ProductionOk(f.checks, from[id].manifest)
  }

  lemma PinsAreOf(f: Files, done: Agents, refs: seq<Ref>)
    requires AllLocked(f, done) && forall ref :: ref in refs ==> ref.agentId in done
    ensures PinsOf(done, refs, Pins(done, refs))
  {
    forall i | 0 <= i < |refs| ensures PinOf(done, refs[i].agentId, Pins(done, refs)[i]) {
      assert refs[i] in refs;
      assert Locked(f, done, refs[i].agentId);
    }
  }

  /** Locking changes nothing but pins, and the first reference stays the first. */
  lemma LockIsSame(f: Files, m: AgentManifest, pins: seq<Digest>)
    requires |pins| == |AgentRefs(m)|
    ensures SameAgent(m, Lock(f, m, pins).manifest)
    ensures var refs := AgentRefs(Lock(f, m, pins).manifest);
            |refs| == |AgentRefs(m)| && (refs != [] ==> refs[0].agentId == AgentRefs(m)[0].agentId)
  {
    PinProvidersErase(m.providers, pins);
    LockRefs(f, m, pins);
  }

  ghost predicate SameFirst(a: Agents, b: Agents, id: Id) {
    && id in a && id in b && SameAgent(a[id].manifest, b[id].manifest)
    && |RefsOf(b, id)| == |RefsOf(a, id)|
    && (RefsOf(a, id) != [] ==> RefsOf(b, id)[0].agentId == RefsOf(a, id)[0].agentId)
  }

  lemma {:induction false} Resealed(f: Files, from: Agents, order: seq<Id>)
    requires Topo(RefGraph(from), order) && forall id :: id in order ==> Sealable(f, from, id)
    ensures AllLocked(f, Reseal(f, from, order)) && Reseal(f, from, order).Keys == Elems(order)
    ensures forall id :: id in order ==> SameFirst(from, Reseal(f, from, order), id)
    decreases |order|
  {
    hide AllLocked, Sealable, SameFirst, Lock, Topo, RefGraph;
    if order == [] {
      NothingLocked(f);
    } else {
      var before, id := order[..|order| - 1], order[|order| - 1];
      TopoPrefix(RefGraph(from), order);
      Resealed(f, from, before);
      assert order == before + [id] && id in order;
      SealableIn(f, from, id);
      ResealLast(f, from, order);
      var done, now := Reseal(f, from, before), Reseal(f, from, order);
      forall x | x in order ensures SameFirst(from, now, x) {
        if x != id {
          FirstKept(from, done, now, x);
        }
      }
    }
  }

  lemma SealableIn(f: Files, from: Agents, id: Id)
    requires Sealable(f, from, id)
    ensures id in from
  {
  }

  lemma FirstKept(from: Agents, done: Agents, now: Agents, id: Id)
    requires SameFirst(from, done, id) && id in now && now[id] == done[id]
    ensures SameFirst(from, now, id)
  {
  }

  lemma NothingLocked(f: Files)
    ensures AllLocked(f, map[])
  {
  }

  lemma TopoPrefix(g: Graph, order: seq<Id>)
    requires Topo(g, order) && order != []
    ensures Topo(g, order[..|order| - 1])
    ensures var before, id := order[..|order| - 1], order[|order| - 1];
            id in g && id !in before && forall b :: b in g[id] ==> b in before
  {
    var before := order[..|order| - 1];
    forall i, b | 0 <= i < |before| && b in g[before[i]] ensures b in before[..i] {
      assert before[i] == order[i] && before[..i] == order[..i];
    }
  }

  lemma ResealLast(f: Files, from: Agents, order: seq<Id>)
    requires order != [] && Sealable(f, from, order[|order| - 1])
    requires var before, id := order[..|order| - 1], order[|order| - 1];
             var done := Reseal(f, from, before);
             && AllLocked(f, done) && done.Keys == Elems(before) && id !in before
             && forall b :: b in RefGraph(from)[id] ==> b in before
    ensures var id, now := order[|order| - 1], Reseal(f, from, order);
            AllLocked(f, now) && id in now && SameFirst(from, now, id)
  {
    hide AllLocked, AllResolved, ManifestOk, ProductionOk, AgentOk, SameAgent;
    var before, id := order[..|order| - 1], order[|order| - 1];
    var done, m := Reseal(f, from, before), from[id].manifest;
    var refs := AgentRefs(m);
    forall ref | ref in refs ensures ref.agentId in done {
      var i :| 0 <= i < |refs| && refs[i] == ref;
      assert Targets(refs)[i] in RefGraph(from)[id];
      assert ref.agentId in Elems(before);
    }
    PinsAreOf(f, done, refs);
    LockIsOk(f, m, Pins(done, refs));
    LockRefs(f, m, Pins(done, refs));
    PinsResolve(done, refs, Pins(done, refs));
    assert id !in Elems(before);
    AddLocked(f, done, id, Lock(f, m, Pins(done, refs)));
    LockIsSame(f, m, Pins(done, refs));
  }

  // ----- the walk over the new order

  /** A walk that is led along a path goes as deep as the path does. */
  lemma {:induction false} Descends(agents: Agents, p: seq<Id>, i: nat, base: nat, active: set<Id>)
    requires Closure(agents) && Distinct(p) && Leads(agents, p) && i < |p| && p[i] in agents
    requires base + |p| - 1 == MAX_DEPTH + 1 && active == Elems(p[..i])
    ensures Walk(agents, p[i], base + i, active, {}) == Err(TooDeep)
    decreases |p| - i
  {
    if i < |p| - 1 {
      var id, refs := p[i], RefsOf(agents, p[i]);
      assert FirstRefIs(agents, p[i], p[i + 1]) && AllResolved(agents, refs) && Resolved(agents, refs[0]);
      assert p[..i + 1] == p[..i] + [id];
      assert id !in p[..i];
      Descends(agents, p, i + 1, base, active + {id});
    }
  }

  lemma AcyclicDistinct(g: Graph, p: seq<Id>)
    requires Acyclic(g) && IsPath(g, p)
    ensures Distinct(p)
  {
    forall i, j | 0 <= i < j < |p| ensures p[i] != p[j] {
      if p[i] == p[j] {
        RepeatIsCycle(g, p, i, j);
      }
    }
  }

  /** The beginning of a path that is too deep. */
  lemma TooLong(g: Graph, a: Id, base: nat) returns (p: seq<Id>)
    requires base <= MAX_DEPTH && !Shallow(g, a, base)
    ensures PathFrom(g, a, p) && base + |p| - 1 == MAX_DEPTH + 1
  {
    var q :| PathFrom(g, a, q) && |q| - 1 + base > MAX_DEPTH;
    PathSlice(g, q, 0, MAX_DEPTH + 2 - base);
    p := q[0..MAX_DEPTH + 2 - base];
  }

  lemma RootKnown(r: Release, a: Id)
    requires HasWorkflow(r) && EntryResolved(r) && a in Roots(r)
    ensures a in r.agents
  {
    if r.entry.kind.WorkflowKind? {
      var steps := r.workflow.value.manifest.steps;
      var i :| 0 <= i < |steps| && steps[i].agentId == a;
      assert Resolved(r.agents, StepRefs(steps)[i]);
    }
  }

  // ----- the agents of the new order

  lemma SameIsTransitive(a: AgentManifest, b: AgentManifest, c: AgentManifest)
    requires SameAgent(a, b) && SameAgent(b, c)
    ensures SameAgent(a, c)
  {
  }

  lemma TopoSame(g: Graph, h: Graph, order: seq<Id>)
    requires SameEdges(g, h) && g.Keys == h.Keys && Topo(g, order)
    ensures Topo(h, order)
  {
    forall i, b | 0 <= i < |order| && b in h[order[i]] ensures b in order[..i] {
      assert Edge(h, order[i], b) && Edge(g, order[i], b);
    }
  }

  lemma LedIsSealable(f: Files, r: Release, led: Agents, id: Id)
    requires Consistent(f.checks, r) && Shuffled(r.agents, led) && id in r.agents
    ensures Sealable(f, led, id)
  {
    assert AgentOk(f.checks, id, r.agents[id]) && ShuffledAgent(r.agents[id].manifest, led[id].manifest);
    ShuffledIsOk(f.checks, r.agents[id].manifest, led[id].manifest);
  }

  lemma LedEdges(a: Agents, led: Agents)
    requires Shuffled(a, led)
    ensures SameAgents(a, led) && SameEdges(RefGraph(a), RefGraph(led))
  {
    forall id | id in a ensures SameAgent(a[id].manifest, led[id].manifest) {
      assert ShuffledAgent(a[id].manifest, led[id].manifest);
    }
    ReorderedEdges(a, led);
  }

  /** The agents of the release, listing their successors on the path first, resealed. */
  lemma NewAgents(f: Files, r: Release, p: seq<Id>) returns (agents: Agents)
    requires Consistent(f.checks, r) && IsPath(RefGraph(r.agents), p)
    ensures AllLocked(f, agents) && SameAgents(r.agents, agents) && Leads(agents, p) && Distinct(p)
  {
    hide AllLocked, Sealable, Consistent, Shuffled, SameAgent, Led;
    ConsistentParts(f.checks, r);
    AcyclicDistinct(RefGraph(r.agents), p);
    var order := TopoOrder(RefGraph(r.agents));
    LedAlong(r.agents, p);
    var led := Led(r.agents, p);
    LedEdges(r.agents, led);
    TopoSame(RefGraph(r.agents), RefGraph(led), order);
    forall id | id in order ensures Sealable(f, led, id) {
      assert id in Elems(order);
      LedIsSealable(f, r, led, id);
    }
    Resealed(f, led, order);
    agents := Reseal(f, led, order);
    ResealedIsSame(r.agents, led, agents, order);
    ResealedLeads(led, agents, order, p);
  }

  lemma ResealedIsSame(a: Agents, led: Agents, agents: Agents, order: seq<Id>)
    requires SameAgents(a, led) && agents.Keys == Elems(order) == a.Keys
    requires forall id :: id in order ==> SameFirst(led, agents, id)
    ensures SameAgents(a, agents)
  {
    forall id | id in a ensures SameAgent(a[id].manifest, agents[id].manifest) {
      assert id in Elems(order) && SameFirst(led, agents, id);
      SameIsTransitive(a[id].manifest, led[id].manifest, agents[id].manifest);
    }
  }

  lemma ResealedLeads(led: Agents, agents: Agents, order: seq<Id>, p: seq<Id>)
    requires Leads(led, p) && led.Keys == Elems(order)
    requires forall id :: id in order ==> SameFirst(led, agents, id)
    ensures Leads(agents, p)
  {
    hide SameAgent, AgentRefs;
    forall k | 0 <= k < |p| - 1 ensures FirstRefIs(agents, p[k], p[k + 1]) {
      assert FirstRefIs(led, p[k], p[k + 1]) && p[k] in Elems(order);
      assert SameFirst(led, agents, p[k]);
    }
  }

  lemma ConsistentParts(w: Checks, r: Release)
    requires Consistent(w, r)
    ensures HasWorkflow(r) && Closure(r.agents) && Acyclic(RefGraph(r.agents)) && EntryResolved(r)
    ensures ClosedGraph(RefGraph(r.agents)) && RefGraph(r.agents).Keys == r.agents.Keys
  {
    forall a, b | a in r.agents && b in RefGraph(r.agents)[a] ensures b in r.agents {
      var refs := RefsOf(r.agents, a);
      var i :| 0 <= i < |refs| && Targets(refs)[i] == b;
      assert AllResolved(r.agents, refs) && Resolved(r.agents, refs[i]);
    }
  }

  // ----- the entry of the new order

  /** The workflow with a step for `first` listed first, if it has one. */
  ghost function FrontedSteps(m: WorkflowManifest, first: Id): WorkflowManifest {
    if exists i :: 0 <= i < |m.steps| && m.steps[i].agentId == first then
      var i :| 0 <= i < |m.steps| && m.steps[i].agentId == first;
      m.(steps := ToFront(m.steps, i))
    else m
  }

  lemma DistinctByCount(a: seq<Id>, b: seq<Id>)
    requires |a| == |b| && Elems(a) == Elems(b) && Distinct(a)
    ensures Distinct(b)
  {
    DistinctSize(a);
    DistinctSize(b);
  }

  lemma IdsAre(steps: seq<Step>)
    ensures Elems(Ids(steps)) == StepIds(steps)
  {
    forall id ensures id in Elems(Ids(steps)) <==> id in StepIds(steps) {
      if id in StepIds(steps) {
        var i :| 0 <= i < |steps| && steps[i].id == id;
        assert Ids(steps)[i] == id;
      }
    }
  }

  lemma StepsByMember(s: seq<Step>, t: seq<Step>)
    requires multiset(s) == multiset(t)
    ensures StepIds(s) == StepIds(t)
    ensures Distinct(Ids(s)) ==> Distinct(Ids(t)) && Dependencies(s) == Dependencies(t)
  {
    SameMembers(s, t);
    forall id ensures id in StepIds(s) <==> id in StepIds(t) {
      if id in StepIds(s) {
        assert s[IndexOf(s, id)] in t;
      }
      if id in StepIds(t) {
        assert t[IndexOf(t, id)] in s;
      }
    }
    if Distinct(Ids(s)) {
      IdsAre(s);
      IdsAre(t);
      DistinctByCount(Ids(s), Ids(t));
      forall id | id in StepIds(s) ensures Dependencies(s)[id] == Dependencies(t)[id] {
        var step := t[IndexOf(t, id)];
        assert step in s;
        var i :| 0 <= i < |s| && s[i] == step;
        DependenciesOf(s, i);
      }
    }
  }

  lemma ShuffledWorkflowOk(a: WorkflowManifest, b: WorkflowManifest)
    requires WorkflowOk(a) && b == a.(steps := b.steps) && multiset(b.steps) == multiset(a.steps)
    ensures WorkflowOk(b)
  {
    var s, t := a.steps, b.steps;
    SameMembers(s, t);
    StepsByMember(s, t);
    VerdictIsAccepted(s, a.output);
    VerdictIsAccepted(t, b.output);
    forall i, d | 0 <= i < |t| && d in t[i].dependsOn ensures d in StepIds(t) {
      assert t[i] in s;
      var k :| 0 <= k < |s| && s[k] == t[i];
    }
  }

  lemma FrontedStepsSame(m: WorkflowManifest, first: Id)
    ensures SameWorkflow(m, FrontedSteps(m, first)) && multiset(FrontedSteps(m, first).steps) == multiset(m.steps)
  {
    hide ToFront;
    forall i | 0 <= i < |m.steps| ensures multiset(ErasePinsOf(ToFront(m.steps, i))) == multiset(ErasePinsOf(m.steps)) {
      EraseStepsToFront(m.steps, i);
    }
    forall i | 0 <= i < |m.steps| ensures multiset(ToFront(m.steps, i)) == multiset(m.steps) {
      var t := ToFront(m.steps, i);
    }
  }

  lemma EraseStepsToFront(steps: seq<Step>, i: nat)
    requires i < |steps|
    ensures multiset(ErasePinsOf(ToFront(steps, i))) == multiset(ErasePinsOf(steps))
  {
    assert ErasePinsOf(ToFront(steps, i)) == ToFront(ErasePinsOf(steps), i);
  }

  lemma PinStepsErase(steps: seq<Step>, pins: seq<Digest>)
    requires |pins| == |steps|
    ensures ErasePinsOf(PinSteps(steps, pins)) == ErasePinsOf(steps)
  {
  }

  /** The release of the new order, with digests and pins of its own. */
  ghost function NewRelease(f: Files, r: Release, agents: Agents, first: Id): Release
    requires HasWorkflow(r) && (r.entry.kind.AgentKind? ==> r.entry.id in agents)
  {
    if r.entry.kind.AgentKind? then AgentRelease(r.identity, agents[r.entry.id], agents)
    else
      var m := FrontedSteps(r.workflow.value.manifest, first);
      WorkflowRelease(LockWorkflow(f, m, Pins(agents, StepRefs(m.steps))), agents)
  }

  lemma NewWorkflow(f: Files, raw: WorkflowManifest, agents: Agents, first: Id)
    requires WorkflowOk(raw) && AllLocked(f, agents)
    requires forall ref :: ref in StepRefs(raw.steps) ==> ref.agentId in agents
    requires exists s :: s in raw.steps && s.agentId == first
    ensures var m := FrontedSteps(raw, first);
            var record := LockWorkflow(f, m, Pins(agents, StepRefs(m.steps)));
            && WorkflowOk(record.manifest) && SameWorkflow(raw, record.manifest)
            && AllResolved(agents, StepRefs(record.manifest.steps))
            && record.manifest.steps[0].agentId == first
  {
    hide WorkflowOk, AllLocked, ToFront;
    var m := FrontedSteps(raw, first);
    FrontedStepsSame(raw, first);
    ShuffledWorkflowOk(raw, m);
    var pins := Pins(agents, StepRefs(m.steps));
    PinnedWorkflowOk(f, m, pins);
    PinStepsErase(m.steps, pins);
    StepTargets(raw.steps, m.steps);
    PinsAreOf(f, agents, StepRefs(m.steps));
    PinsResolve(agents, StepRefs(m.steps), pins);
    PinStepsRefs(m.steps, pins);
    FrontedStepsFirst(raw, first);
  }

  lemma FrontedStepsFirst(m: WorkflowManifest, first: Id)
    requires exists s :: s in m.steps && s.agentId == first
    ensures FrontedSteps(m, first).steps != [] && FrontedSteps(m, first).steps[0].agentId == first
  {
    var s :| s in m.steps && s.agentId == first;
    var i :| 0 <= i < |m.steps| && m.steps[i] == s;
  }

  lemma StepTargets(s: seq<Step>, t: seq<Step>)
    requires multiset(s) == multiset(t)
    ensures forall ref :: ref in StepRefs(t) ==> ref in StepRefs(s)
  {
    SameMembers(s, t);
    forall ref | ref in StepRefs(t) ensures ref in StepRefs(s) {
      var i :| 0 <= i < |t| && StepRefs(t)[i] == ref;
      assert t[i] in s;
      var k :| 0 <= k < |s| && s[k] == t[i];
      assert StepRefs(s)[k] == ref;
    }
  }

  /** The entry of the new release: the right digests, the same identity, everything resolved. */
  ghost predicate EntryFits(f: Files, r: Release, o: Release, agents: Agents, first: Id) {
    && o.agents == agents && EntryOk(f.checks, o) && Reordered(r, o) && HasWorkflow(o) && EntryResolved(o)
    && (o.entry.kind.WorkflowKind? ==> o.workflow.value.manifest.steps[0].agentId == first)
  }

  lemma NewEntry(f: Files, r: Release, agents: Agents, first: Id)
    requires Consistent(f.checks, r) && HasWorkflow(r) && first in Roots(r)
    requires AllLocked(f, agents) && SameAgents(r.agents, agents) && (r.entry.kind.AgentKind? ==> r.entry.id in agents)
    ensures EntryFits(f, r, NewRelease(f, r, agents, first), agents, first)
  {
    hide AllLocked, EntryFits, NewRelease, SameAgents, Sealed, EntryResolved, Roots;
    ConsistentParts(f.checks, r);
    if r.entry.kind.AgentKind? {
      NewAgentEntry(f, r, agents, first);
    } else {
      NewWorkflowEntry(f, r, agents, first);
    }
  }

  lemma NewAgentEntry(f: Files, r: Release, agents: Agents, first: Id)
    requires r.entry.kind.AgentKind? && EntryOk(f.checks, r) && SameAgents(r.agents, agents) && r.entry.id in agents
    ensures EntryFits(f, r, NewRelease(f, r, agents, first), agents, first)
  {
    hide WorkflowOk;
    assert SameAgent(r.agents[r.entry.id].manifest, agents[r.entry.id].manifest);
  }

  lemma NewWorkflowEntry(f: Files, r: Release, agents: Agents, first: Id)
    requires r.entry.kind.WorkflowKind? && EntryOk(f.checks, r) && EntryResolved(r) && first in Roots(r)
    requires AllLocked(f, agents) && SameAgents(r.agents, agents)
    ensures EntryFits(f, r, NewRelease(f, r, agents, first), agents, first)
  {
    hide AllLocked, WorkflowOk, SameAgent, ErasePinsOf, FrontedSteps, Roots;
    var raw := r.workflow.value.manifest;
    forall ref | ref in StepRefs(raw.steps) ensures ref.agentId in agents {
      var i :| 0 <= i < |raw.steps| && StepRefs(raw.steps)[i] == ref;
      assert Resolved(r.agents, StepRefs(raw.steps)[i]);
    }
    FirstIsStep(r, first);
    NewWorkflow(f, raw, agents, first);
  }

  lemma FirstIsStep(r: Release, first: Id)
    requires r.entry.kind.WorkflowKind? && r.workflow.Some? && first in Roots(r)
    ensures exists s :: s in r.workflow.value.manifest.steps && s.agentId == first
  {
    var steps := r.workflow.value.manifest.steps;
    var i :| 0 <= i < |steps| && steps[i].agentId == first;
    assert steps[i] in steps;
  }

  lemma NewIsConsistent(f: Files, r: Release, o: Release)
    requires Consistent(f.checks, r) && Reordered(r, o) && HasWorkflow(r)
    requires AllLocked(f, o.agents) && EntryOk(f.checks, o) && EntryResolved(o)
    ensures Consistent(f.checks, o)
  {
    hide SameAgent, SameWorkflow, WorkflowOk, AgentOk, Embedded, Closure, Acyclic, AllLocked, EntryResolved;
    ReorderedEdges(r.agents, o.agents);
    ReorderedRoots(r, o);
    SameAcyclic(RefGraph(r.agents), RefGraph(o.agents));
    SameEmbedded(r, o);
    LockedIsClosed(f, o.agents);
    assert |o.agents| == |o.agents.Keys| && |r.agents| == |r.agents.Keys|;
  }

  lemma LockedIsClosed(f: Files, agents: Agents)
    requires AllLocked(f, agents)
    ensures Closure(agents) && forall id :: id in agents ==> AgentOk(f.checks, id, agents[id])
  {
    forall id | id in agents ensures AgentOk(f.checks, id, agents[id]) && AllResolved(agents, RefsOf(agents, id)) {
      assert Locked(f, agents, id);
    }
  }

  lemma SameEmbedded(r: Release, o: Release)
    requires HasWorkflow(r) && HasWorkflow(o) && Roots(o) == Roots(r) && o.agents.Keys == r.agents.Keys
    requires SameEdges(RefGraph(r.agents), RefGraph(o.agents))
    requires forall id :: id in r.agents ==> Embedded(r, id)
    ensures forall id :: id in o.agents ==> Embedded(o, id)
  {
    var g, h := RefGraph(r.agents), RefGraph(o.agents);
    forall id | id in o.agents ensures Embedded(o, id) {
      assert Embedded(r, id);
      var a :| a in Roots(r) && Reach(g, a, id);
      SameReach(g, h, a, id);
    }
  }

  /** When a path from the entry is too long, some order of the references is stopped. */
  lemma SomeOrderTooDeep(w: Checks, r: Release, a: Id) returns (o: Release)
    requires Consistent(w, r) && HasWorkflow(r) && a in Roots(r) && !Shallow(RefGraph(r.agents), a, BaseDepth(r))
    ensures Consistent(w, o) && Reordered(r, o) && EntryWalk(o) == Err(TooDeep)
  {
    hide AllLocked, Consistent, Reordered, EntryOk, Roots, Walk, NewRelease, EntryResolved, Closure, EntryFits,
         EntryWalk, Shallow, RefGraph, Acyclic, ClosedGraph, Leads, SameAgents, IsPath;
    var f := Files(w, map[], map[]);
    var p := TooLong(RefGraph(r.agents), a, BaseDepth(r));
    ConsistentParts(w, r);
    RootKnown(r, a);
    var agents := NewAgents(f, r, p);
    KnownEntry(w, r, agents);
    NewEntry(f, r, agents, a);
    o := NewRelease(f, r, agents, a);
    EntryGives(f, r, o, agents, a);
    NewIsConsistent(f, r, o);
    SameShape(r, o);
    ConsistentParts(w, o);
    assert p[..0] == [] && Elems([]) == {};
    Descends(o.agents, p, 0, BaseDepth(r), {});
    EntryTooDeep(w, o, a);
  }

  lemma EntryGives(f: Files, r: Release, o: Release, agents: Agents, first: Id)
    requires EntryFits(f, r, o, agents, first)
    ensures o.agents == agents && EntryOk(f.checks, o) && Reordered(r, o) && HasWorkflow(o) && EntryResolved(o)
    ensures o.entry.kind.WorkflowKind? ==>
              o.workflow.value.manifest.steps != [] && o.workflow.value.manifest.steps[0].agentId == first
  {
  }

  lemma KnownEntry(w: Checks, r: Release, agents: Agents)
    requires Consistent(w, r) && SameAgents(r.agents, agents)
    ensures agents.Keys == r.agents.Keys && (r.entry.kind.AgentKind? ==> r.entry.id in agents)
  {
  }

  lemma SameShape(r: Release, o: Release)
    requires HasWorkflow(r) && Reordered(r, o)
    ensures HasWorkflow(o) && BaseDepth(o) == BaseDepth(r) && Roots(o) == Roots(r) && o.agents.Keys == r.agents.Keys
  {
    ReorderedRoots(r, o);
  }

  lemma EntryTooDeep(w: Checks, o: Release, first: Id)
    requires Consistent(w, o) && HasWorkflow(o) && first in Roots(o) && first in o.agents
    requires o.entry.kind.WorkflowKind? ==> o.workflow.value.manifest.steps[0].agentId == first
    requires Walk(o.agents, first, BaseDepth(o), {}, {}) == Err(TooDeep)
    ensures EntryWalk(o) == Err(TooDeep)
  {
    hide Walk, Closure, Acyclic, Embedded, WorkflowOk;
    if o.entry.kind.WorkflowKind? {
      var refs := StepRefs(o.workflow.value.manifest.steps);
      assert Resolved(o.agents, refs[0]) && refs[0].agentId == first;
    }
  }

  /** Take a release that passes every check, apart perhaps from the depth limit. It passes
      in every order of its references, each with digests and pins of its own, exactly when
      no path from the entry is longer than the limit. */
  lemma EveryOrderValidIff(w: Checks, r: Release)
    requires Consistent(w, r)
    ensures (forall o :: Consistent(w, o) && Reordered(r, o) ==> ValidRelease(w, o)) <==>
            (forall a :: a in Roots(r) ==> Shallow(RefGraph(r.agents), a, BaseDepth(r)))
  {
    hide Consistent, Reordered, Roots, Shallow, RefGraph, ValidRelease, EntryWalk;
    ConsistentParts(w, r);
    if forall a :: a in Roots(r) ==> Shallow(RefGraph(r.agents), a, BaseDepth(r)) {
      forall o | Consistent(w, o) && Reordered(r, o) ensures ValidRelease(w, o) {
        ShallowIsValid(w, r, o);
      }
    } else {
      var a :| a in Roots(r) && !Shallow(RefGraph(r.agents), a, BaseDepth(r));
      var o := SomeOrderTooDeep(w, r, a);
      ConsistentIff(w, o);
    }
  }

  lemma ShallowIsValid(w: Checks, r: Release, o: Release)
    requires HasWorkflow(r) && Consistent(w, o) && Reordered(r, o)
    requires forall a :: a in Roots(r) ==> Shallow(RefGraph(r.agents), a, BaseDepth(r))
    ensures ValidRelease(w, o)
  {
    hide SameAgent, SameWorkflow, WorkflowOk, AgentOk, Roots, Shallow;
    ReorderedRoots(r, o);
    ReorderedEdges(r.agents, o.agents);
    forall a | a in Roots(o) ensures Shallow(RefGraph(o.agents), a, BaseDepth(o)) {
      SameShallow(RefGraph(r.agents), RefGraph(o.agents), a, BaseDepth(r));
    }
    SealedIsAccepted(o);
    ConsistentIff(w, o);
  }
}
