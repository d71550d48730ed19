/** The validator's depth limit bounds the descent of a depth-first walk, which stops at
    finished agents; it does not bound the longest path. */
module DepthLimit {
  import opened Wrappers
  import opened Graphs
  import opened Manifests
  import opened Releases
  import opened ReferenceOrder

  // ----- an accepted release with a path longer than the limit

  function Letter(k: nat): char
    requires k < 16
  {
    'a' + k as char
  }

  /** 256 different identifiers. */
  function Name(i: nat): Id
    requires i < MAX_AGENTS
  {
    ['c', Letter(i / 16), Letter(i % 16)]
  }

  lemma NamesDiffer(i: nat, j: nat)
    requires i < MAX_AGENTS && j < MAX_AGENTS && i != j
    ensures Name(i) != Name(j)
  {
    assert Name(i)[1] == Letter(i / 16) && Name(j)[1] == Letter(j / 16);
    assert Name(i)[2] == Letter(i % 16) && Name(j)[2] == Letter(j % 16);
  }

  /** The environment of the example: the checks, and content that they accept for every
      agent with a well-formed identifier. */
  datatype Setting = Setting(w: Checks, details: string, body: string)

  ghost predicate Suitable(e: Setting) {
    forall id :: IsArtifactId(id) ==> e.w.bodyOk(Identity(id, e.details), e.body)
  }

  /** Agent `i` of a chain: it delegates to agent `i - 1`, pinned to its digest. */
  function Link(e: Setting, i: nat): AgentManifest
    requires i < MAX_AGENTS
    decreases i, 0
  {
    AgentManifest(Identity(Name(i), e.details), if i == 0 then [] else [Hop(e, i - 1)], e.body)
  }

  function Hop(e: Setting, i: nat): Provider
    requires i < MAX_AGENTS
    decreases i, 1
  {
    SubAgent(Name(i), Name(i), Some(e.w.hash(AgentArtifact(Link(e, i)))), None)
  }

  function LinkRecord(e: Setting, i: nat): AgentRecord
    requires i < MAX_AGENTS
  {
    AgentRecord(e.w.hash(AgentArtifact(Link(e, i))), Link(e, i))
  }

  /** Far enough apart that a descent between them stays within the limit. */
  const STRIDE := 60

  /** The next agent of the chain that the entry refers to, when `k` are below those before. */
  function Mark(k: nat, n: nat): (j: nat)
    requires k < n
    ensures k <= j < n && j < k + STRIDE && (j == n - 1 || j == k + STRIDE - 1)
  {
    if k + STRIDE < n then k + STRIDE - 1 else n - 1
  }

  /** References to every 60th agent of the chain and to the last, deepest first. */
  function Hops(e: Setting, k: nat, n: nat): seq<Provider>
    requires k <= n <= MAX_AGENTS
    decreases n - k
  {
    if k == n then [] else [Hop(e, Mark(k, n))] + Hops(e, Mark(k, n) + 1, n)
  }

  const ROOT := "r"

  /** The entry delegates to a few agents of the chain. */
  function RootRecord(e: Setting, n: nat): AgentRecord
    requires n < MAX_AGENTS
  {
    var m := AgentManifest(Identity(ROOT, e.details), Hops(e, 0, n), e.body);
    AgentRecord(e.w.hash(AgentArtifact(m)), m)
  }

  function Links(e: Setting, n: nat): (agents: Agents)
    requires n < MAX_AGENTS
    ensures |agents| <= n
  {
    if n == 0 then map[] else Links(e, n - 1)[Name(n - 1) := LinkRecord(e, n - 1)]
  }

  function LongRelease(e: Setting, n: nat): Release
    requires n < MAX_AGENTS
  {
    var root := RootRecord(e, n);
    Release(root.manifest.identity, Entry(AgentKind, ROOT, root.sha256), Links(e, n)[ROOT := root], None)
  }

  /** The names of the first `k` agents of the chain. */
  function Below(k: nat): set<Id>
    requires k <= MAX_AGENTS
  {
    if k == 0 then {} else Below(k - 1) + {Name(k - 1)}
  }

  lemma {:induction false} BelowHas(k: nat, i: nat)
    requires k <= MAX_AGENTS && i < MAX_AGENTS
    ensures Name(i) in Below(k) <==> i < k
  {
    if k > 0 {
      BelowHas(k - 1, i);
      if i != k - 1 {
        NamesDiffer(i, k - 1);
      }
    }
  }

  lemma {:induction false} RootNotBelow(k: nat)
    requires k <= MAX_AGENTS
    ensures ROOT !in Below(k)
  {
    if k > 0 {
      RootNotBelow(k - 1);
      assert |Name(k - 1)| == 3;
    }
  }

  lemma {:induction false} LinksAt(e: Setting, n: nat)
    requires n < MAX_AGENTS
    ensures Links(e, n).Keys == Below(n)
    ensures forall i :: 0 <= i < n ==> Name(i) in Links(e, n) && Links(e, n)[Name(i)] == LinkRecord(e, i)
  {
    hide LinkRecord, Name;
    if n > 0 {
      LinksAt(e, n - 1);
      forall i | 0 <= i < n - 1 ensures Name(i) != Name(n - 1) {
        NamesDiffer(i, n - 1);
      }
    }
  }

  // ----- every agent of it passes its checks

  predicate OnlySubAgents(ps: seq<Provider>) {
    forall p :: p in ps ==> p.SubAgent? && IsProviderId(p.id) && IsArtifactId(p.agentId) && p.purpose.None?
  }

  lemma {:induction false} SubAgentsOk(w: Checks, ps: seq<Provider>, credentials: set<Id>)
    requires OnlySubAgents(ps)
    ensures BindingsWithin(ps, credentials) && ProductionProviders(w, ps) && ProvidersSchema(w, ps)
  {
    if ps != [] {
      assert ps[0] in ps;
      SubAgentsOk(w, ps[1..], credentials);
    }
  }

  lemma {:induction false} HopsAre(e: Setting, k: nat, n: nat)
    requires k <= n <= MAX_AGENTS
    ensures OnlySubAgents(Hops(e, k, n)) && STRIDE * |Hops(e, k, n)| < n - k + STRIDE
    decreases n - k
  {
    if k < n {
      HopsAre(e, Mark(k, n) + 1, n);
      NameOk(Mark(k, n));
    }
  }

  lemma {:induction false} HopIdFrom(e: Setting, k: nat, n: nat, id: Id)
    requires k <= n <= MAX_AGENTS && id in ProviderIds(Hops(e, k, n))
    ensures exists i: nat :: k <= i < n && id == Name(i)
    decreases n - k
  {
    var j := Mark(k, n);
    if id == Name(j) {
      assert k <= j < n;
    } else {
      assert ProviderIds(Hops(e, k, n)) == [Name(j)] + ProviderIds(Hops(e, j + 1, n));
      HopIdFrom(e, j + 1, n, id);
    }
  }

  lemma {:induction false} HopIdsDistinct(e: Setting, k: nat, n: nat)
    requires k <= n <= MAX_AGENTS
    ensures Distinct(ProviderIds(Hops(e, k, n)))
    decreases n - k
  {
    if k < n {
      var j := Mark(k, n);
      HopIdsDistinct(e, j + 1, n);
      if Name(j) in ProviderIds(Hops(e, j + 1, n)) {
        HopIdFrom(e, j + 1, n, Name(j));
        var i: nat :| j + 1 <= i < n && Name(j) == Name(i);
        NamesDiffer(i, j);
        assert false;
      }
    }
  }

  lemma HopsDistinct(e: Setting, n: nat)
    requires n <= MAX_AGENTS
    ensures |Elems(ProviderIds(Hops(e, 0, n)))| == |Hops(e, 0, n)|
  {
    HopIdsDistinct(e, 0, n);
    DistinctSize(ProviderIds(Hops(e, 0, n)));
  }

  lemma NameOk(i: nat)
    requires i < MAX_AGENTS
    ensures IsArtifactId(Name(i)) && IsProviderId(Name(i)) && IsArtifactId(ROOT) && Name(i) != ROOT
  {
    assert |Name(i)| == 3;
  }

  lemma LinkOk(e: Setting, i: nat)
    requires Suitable(e) && i < MAX_AGENTS
    ensures AgentOk(e.w, Name(i), LinkRecord(e, i))
  {
    NameOk(i);
    var ps := Link(e, i).providers;
    if i > 0 {
      NameOk(i - 1);
      assert ps == [Hop(e, i - 1)];
    }
    SubAgentsOk(e.w, ps, DeclaredCredentials(ps));
    DistinctSize(ProviderIds(ps));
    assert Distinct(ProviderIds(ps));
  }

  lemma RootOkay(e: Setting, n: nat)
    requires Suitable(e) && n < MAX_AGENTS
    ensures AgentOk(e.w, ROOT, RootRecord(e, n))
  {
    NameOk(0);
    HopsAre(e, 0, n);
    HopsDistinct(e, n);
    var ps := RootRecord(e, n).manifest.providers;
    SubAgentsOk(e.w, ps, DeclaredCredentials(ps));
  }

  lemma AllAgentsOk(e: Setting, n: nat, id: Id)
    requires Suitable(e) && n < MAX_AGENTS && id in LongRelease(e, n).agents
    ensures AgentOk(e.w, id, LongRelease(e, n).agents[id])
  {
    LinksAt(e, n);
    RootNotBelow(n);
    if id == ROOT {
      RootOkay(e, n);
    } else {
      var i := IndexBelow(n, id);
      LinkOk(e, i);
    }
  }

  lemma {:induction false} IndexBelow(k: nat, id: Id) returns (i: nat)
    requires k <= MAX_AGENTS && id in Below(k)
    ensures i < k && Name(i) == id
  {
    if id == Name(k - 1) {
      i := k - 1;
    } else {
      i := IndexBelow(k - 1, id);
    }
  }

  // ----- the walk over it never goes deeper than two

  /** The references of the example are resolved. */
  lemma HopResolved(e: Setting, n: nat, k: nat)
    requires k < n < MAX_AGENTS
    ensures var agents := LongRelease(e, n).agents;
            && Name(k) in agents && agents[Name(k)] == LinkRecord(e, k)
            && Resolved(agents, Ref(Name(k), Hop(e, k).pin))
  {
    LinksAt(e, n);
    NameOk(k);
  }

  lemma LinkRefs(e: Setting, k: nat)
    requires k < MAX_AGENTS
    ensures AgentRefs(Link(e, k)) == if k == 0 then [] else [Ref(Name(k - 1), Hop(e, k - 1).pin)]
  {
    if k > 0 {
      assert ProviderRefs(Link(e, k).providers[1..]) == [];
    }
  }

  lemma HopRefs(e: Setting, k: nat, n: nat)
    requires k < n <= MAX_AGENTS
    ensures var j := Mark(k, n);
            ProviderRefs(Hops(e, k, n)) == [Ref(Name(j), Hop(e, j).pin)] + ProviderRefs(Hops(e, j + 1, n))
  {
    assert Hops(e, k, n)[0] == Hop(e, Mark(k, n)) && Hops(e, k, n)[1..] == Hops(e, Mark(k, n) + 1, n);
  }

  lemma NewNames(k: nat, i: nat)
    requires k <= i < MAX_AGENTS
    ensures Name(i) !in Below(k) && Below(i + 1) == Below(i) + {Name(i)}
    ensures i > 0 && i == k ==> Name(i - 1) in Below(k)
    ensures i == 0 ==> Below(k) == Below(i)
  {
    BelowHas(k, i);
    if i > 0 {
      BelowHas(k, i - 1);
    }
  }

  /** From agent `i` a walk descends to the finished part of the chain and finishes what
      lies between. */
  lemma {:induction false} ChainWalk(e: Setting, n: nat, k: nat, i: nat, depth: nat, active: set<Id>)
    requires k <= i < n < MAX_AGENTS && depth + i - k < MAX_DEPTH
    requires forall x: nat :: x <= i ==> Name(x) !in active
    ensures Name(i) in LongRelease(e, n).agents
    ensures Walk(LongRelease(e, n).agents, Name(i), depth, active, Below(k)) == Ok(Below(i + 1))
    decreases i - k
  {
    hide LongRelease, Link, Hop, Name, Below, IsIdentifier;
    var agents := LongRelease(e, n).agents;
    var active' := active + {Name(i)};
    HopResolved(e, n, i);
    LinkRefs(e, i);
    NewNames(k, i);
    assert Name(i) !in active;
    if i > 0 {
      var refs := RefsOf(agents, Name(i));
      HopResolved(e, n, i - 1);
      forall x: nat | x <= i - 1 ensures Name(x) !in active' {
        NamesDiffer(x, i);
      }
      if i > k {
        ChainWalk(e, n, k, i - 1, depth + 1, active');
      } else {
        assert Walk(agents, Name(i - 1), depth + 1, active', Below(k)) == Ok(Below(k));
      }
      assert CheckRefs(agents, refs[1..], depth, active', Below(i)) == Ok(Below(i));
    }
  }

  lemma {:induction false} RootWalk(e: Setting, n: nat, k: nat)
    requires k <= n < MAX_AGENTS
    ensures CheckRefs(LongRelease(e, n).agents, ProviderRefs(Hops(e, k, n)), 0, {ROOT}, Below(k)) == Ok(Below(n))
    decreases n - k
  {
    hide Walk, LongRelease, Link, Hop, Hops, Name, Below, ProviderRefs, IsIdentifier;
    if k == n {
      NoHops(e, n);
    } else {
      var j := Mark(k, n);
      HopResolved(e, n, j);
      HopRefs(e, k, n);
      forall x: nat | x <= j ensures Name(x) !in {ROOT} {
        NameOk(x);
      }
      ChainWalk(e, n, k, j, 1, {ROOT});
      RootWalk(e, n, j + 1);
      assert ProviderRefs(Hops(e, k, n))[1..] == ProviderRefs(Hops(e, j + 1, n));
    }
  }

  lemma NoHops(e: Setting, n: nat)
    requires n <= MAX_AGENTS
    ensures ProviderRefs(Hops(e, n, n)) == []
  {
  }

  lemma LongEntry(e: Setting, n: nat)
    requires n < MAX_AGENTS
    ensures var r := LongRelease(e, n);
            && r.agents.Keys == Below(n) + {ROOT} && 1 <= |r.agents| <= MAX_AGENTS && EntryOk(e.w, r)
            && r.entry == Entry(AgentKind, ROOT, RootRecord(e, n).sha256)
            && RefsOf(r.agents, ROOT) == ProviderRefs(Hops(e, 0, n))
  {
    LinksAt(e, n);
    assert ROOT in LongRelease(e, n).agents;
  }

  lemma LongReleaseIsValid(e: Setting, n: nat)
    requires Suitable(e) && n < MAX_AGENTS
    ensures ValidRelease(e.w, LongRelease(e, n))
  {
    hide CheckRefs, AgentOk, EntryOk, LongRelease, Hops, ProviderRefs, RefsOf;
    var r := LongRelease(e, n);
    forall id | id in r.agents ensures AgentOk(e.w, id, r.agents[id]) {
      AllAgentsOk(e, n, id);
    }
    LongEntry(e, n);
    RootWalk(e, n, 0);
    assert {} + {ROOT} == {ROOT};
  }

  // ----- its longest path has as many references as the chain has agents

  function Down(k: nat): (p: seq<Id>)
    requires k <= MAX_AGENTS
    ensures |p| == k && (k > 0 ==> p[0] == Name(k - 1))
  {
    if k == 0 then [] else [Name(k - 1)] + Down(k - 1)
  }

  lemma {:induction false} DownIsPath(e: Setting, n: nat, k: nat)
    requires 1 <= k <= n < MAX_AGENTS
    ensures IsPath(RefGraph(LongRelease(e, n).agents), Down(k))
  {
    var agents := LongRelease(e, n).agents;
    if k > 1 {
      DownIsPath(e, n, k - 1);
      HopResolved(e, n, k - 1);
      LinkRefs(e, k - 1);
      RefEdge(agents, Name(k - 1), AgentRefs(Link(e, k - 1))[0]);
      PathPrepend(RefGraph(agents), Name(k - 1), Down(k - 1));
    }
  }

  lemma {:induction false} HopListed(e: Setting, k: nat, n: nat)
    requires k < n <= MAX_AGENTS
    ensures Ref(Name(n - 1), Hop(e, n - 1).pin) in ProviderRefs(Hops(e, k, n))
    decreases n - k
  {
    hide Hop, Hops, Name;
    HopRefs(e, k, n);
    if Mark(k, n) < n - 1 {
      HopListed(e, Mark(k, n) + 1, n);
    }
  }

  /** The limit does not bound paths: under any hash and any content the schema accepts,
      for every length below the agent limit there is a valid release with a path of that
      length; from 65 on it is longer than the depth limit. */
  lemma LongPathAccepted(e: Setting, n: nat) returns (r: Release, p: seq<Id>)
    requires Suitable(e) && 1 <= n < MAX_AGENTS
    ensures ValidRelease(e.w, r) && r.entry.kind.AgentKind?
    ensures PathFrom(RefGraph(r.agents), r.entry.id, p) && |p| - 1 == n
    ensures n > MAX_DEPTH ==> !Shallow(RefGraph(r.agents), r.entry.id, 0)
  {
    hide ValidRelease, Hops, Down;
    r := LongRelease(e, n);
    LongReleaseIsValid(e, n);
    DownIsPath(e, n, n);
    HopListed(e, 0, n);
    RefEdge(r.agents, ROOT, Ref(Name(n - 1), Hop(e, n - 1).pin));
    PathPrepend(RefGraph(r.agents), ROOT, Down(n));
    p := [ROOT] + Down(n);
  }

  /** So the order of the references alone can decide: two releases of the same agents, each
      with digests and pins of its own, of which one is valid and the other is refused. */
  lemma OrderDecides(e: Setting, n: nat) returns (r: Release, o: Release)
    requires Suitable(e) && MAX_DEPTH < n < MAX_AGENTS
    ensures ValidRelease(e.w, r) && Reordered(r, o) && Consistent(e.w, o) && !ValidRelease(e.w, o)
  {
    hide ValidRelease, Consistent, Reordered, Shallow, RefGraph;
    var p;
    r, p := LongPathAccepted(e, n);
    ConsistentIff(e.w, r);
    assert r.entry.id in Roots(r);
    o := SomeOrderTooDeep(e.w, r, r.entry.id);
    ConsistentIff(e.w, o);
  }
}
