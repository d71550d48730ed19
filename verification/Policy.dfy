/** Operator policy: what a release requests, whether a policy grants it, and the
    difference between what two releases request. */
module Policy {
  import opened Wrappers
  import opened Graphs
  import opened Manifests
  import opened Releases
  import opened Merkle

  datatype Binding = Binding(provider: Id, env: string, credential: Id)

  datatype Capabilities = Capabilities(
    images: set<string>, credentials: set<Id>, tools: map<Id, set<string>>,
    bindings: set<Binding>, domains: set<string>, endpoints: set<string>)

  datatype Grant = Grant(image: string, tools: set<string>, bindings: map<string, Id>)

  datatype OperatorPolicy = OperatorPolicy(allowedCredentials: set<Id>, providers: map<Id, Grant>)

  datatype Denial = NetworkAccess | Credentials(ids: set<Id>) | NoGrant(id: Id) | WrongImage(id: Id)
                  | ToolsDenied(id: Id) | BindingDenied(id: Id)

  // ----- what is requested

  function ProvidersOf(agents: Agents): set<Provider> {
    set id, p | id in agents && p in agents[id].manifest.providers :: p
  }

  function Bindings(p: Provider): set<Binding>
    requires p.Mcp?
  {
    set env | env in p.credentialBindings :: Binding(p.id, env, p.credentialBindings[env])
  }

  function ToolsFor(ps: set<Provider>, id: Id): set<string> {
    set p, t | p in ps && p.Mcp? && p.id == id && t in p.requiredTools :: t
  }

  /** The capabilities a set of providers requests. */
  function Requests(ps: set<Provider>): Capabilities {
    Capabilities(
      set p | p in ps && p.Mcp? && p.image.Some? :: p.image.value,
      (set p | p in ps && p.Credential? :: p.id)
      + (set p, c | p in ps && p.Mcp? && c in p.credentialBindings.Values :: c),
      map id | id in (set p | p in ps && p.Mcp? :: p.id) :: ToolsFor(ps, id),
      set p, b | p in ps && p.Mcp? && b in Bindings(p) :: b,
      set p, d | p in ps && p.Mcp? && d in p.allowedDomains :: d,
      set p | p in ps && p.Mcp? && p.uri.Some? :: p.uri.value)
  }

  function Requested(agents: Agents): Capabilities {
    Requests(ProvidersOf(agents))
  }

  /** The loop body of the inventory. */
  function AddProvider(c: Capabilities, p: Provider): Capabilities {
    match p
    case Credential(id, _) => c.(credentials := c.credentials + {id})
    case SubAgent(_, _, _, _) => c
    case Mcp(id, _, uri, image, requiredTools, allowedDomains, credentialBindings, _) =>
      Capabilities(
        if image.Some? then c.images + {image.value} else c.images,
        c.credentials + credentialBindings.Values,
        c.tools[id := (if id in c.tools then c.tools[id] else {}) + Elems(requiredTools)],
        c.bindings + Bindings(p),
        c.domains + Elems(allowedDomains),
        if uri.Some? then c.endpoints + {uri.value} else c.endpoints)
  }

  lemma AddSets(ps: set<Provider>, p: Provider)
    ensures var c, c' := AddProvider(Requests(ps), p), Requests(ps + {p});
            && c.images == c'.images && c.credentials == c'.credentials
            && c.domains == c'.domains && c.endpoints == c'.endpoints
  {
  }

  lemma AddBindings(ps: set<Provider>, p: Provider)
    ensures AddProvider(Requests(ps), p).bindings == Requests(ps + {p}).bindings
  {
  }

  lemma AddTools(ps: set<Provider>, p: Provider)
    ensures AddProvider(Requests(ps), p).tools == Requests(ps + {p}).tools
  {
    var t, t' := AddProvider(Requests(ps), p).tools, Requests(ps + {p}).tools;
    forall id | id in t || id in t' ensures id in t && id in t' && t[id] == t'[id] {
      assert p.Mcp? && p.id == id ==> ToolsFor(ps + {p}, id) == ToolsFor(ps, id) + Elems(p.requiredTools);
      assert !(p.Mcp? && p.id == id) ==> ToolsFor(ps + {p}, id) == ToolsFor(ps, id);
      if id !in Requests(ps).tools {
        assert ToolsFor(ps, id) == {};
      }
    }
  }

  lemma AddOne(ps: set<Provider>, p: Provider)
    ensures AddProvider(Requests(ps), p) == Requests(ps + {p})
  {
    AddSets(ps, p);
    AddBindings(ps, p);
    AddTools(ps, p);
    hide Requests, AddProvider;
  }

  lemma NothingRequested()
    ensures Requests({}) == Capabilities({}, {}, map[], {}, {}, {})
  {
  }

  method RequestedCapabilities(agents: Agents) returns (c: Capabilities)
    ensures c == Requested(agents)
  {
    hide Requests, AddProvider;
    NothingRequested();
    c := Capabilities({}, {}, map[], {}, {}, {});
    var todo := agents.Keys;
    ghost var seen: set<Provider> := {};
    while todo != {}
      invariant todo <= agents.Keys && c == Requests(seen)
      invariant seen == set id, p | id in agents.Keys - todo && p in agents[id].manifest.providers :: p
    {
      var id :| id in todo;
      var ps := agents[id].manifest.providers;
      ghost var before := seen;
      var n := 0;
      while n < |ps|
        invariant n <= |ps| && c == Requests(seen)
        invariant seen == before + set p | p in ps[..n]
      {
        AddOne(seen, ps[n]);
        c := AddProvider(c, ps[n]);
        seen := seen + {ps[n]};
        assert ps[..n + 1] == ps[..n] + [ps[n]];
        n := n + 1;
      }
      assert ps[..n] == ps;
      todo := todo - {id};
    }
    assert seen == ProvidersOf(agents);
  }

  // ----- whether it is granted

  predicate BindingGranted(grant: Grant, env: string, credential: Id) {
    env in grant.bindings && grant.bindings[env] == credential
  }

  /** A policy grants a provider. */
  predicate GrantsProvider(policy: OperatorPolicy, p: Provider) {
    p.Mcp? ==>
      && p.id in policy.providers
      && var grant := policy.providers[p.id];
      && p.image == Some(grant.image)
      && Elems(p.requiredTools) <= grant.tools
      && forall env :: env in p.credentialBindings ==> BindingGranted(grant, env, p.credentialBindings[env])
  }

  predicate Granted(agents: Agents, policy: OperatorPolicy) {
    && Requested(agents).domains == {} && Requested(agents).endpoints == {}
    && Requested(agents).credentials <= policy.allowedCredentials
    && forall p :: p in ProvidersOf(agents) ==> GrantsProvider(policy, p)
  }

  function ProviderDenial(policy: OperatorPolicy, p: Provider): Option<Denial> {
    if !p.Mcp? then None
    else if p.id !in policy.providers then Some(NoGrant(p.id))
    else
      var grant := policy.providers[p.id];
      if p.image != Some(grant.image) then Some(WrongImage(p.id))
      else if !(Elems(p.requiredTools) <= grant.tools) then Some(ToolsDenied(p.id))
      else if !(forall env :: env in p.credentialBindings ==> BindingGranted(grant, env, p.credentialBindings[env]))
           then Some(BindingDenied(p.id))
      else None
  }

  lemma DenialMeans(policy: OperatorPolicy, p: Provider)
    ensures ProviderDenial(policy, p).None? <==> GrantsProvider(policy, p)
  {
  }

  predicate GrantsAll(policy: OperatorPolicy, ps: seq<Provider>) {
    forall p :: p in ps ==> GrantsProvider(policy, p)
  }

  lemma InProviders(agents: Agents, id: Id, p: Provider)
    requires id in agents && p in agents[id].manifest.providers
    ensures p in ProvidersOf(agents)
  {
  }

  /** Accepts exactly the granted releases and returns what they request. */
  method CheckPolicy(agents: Agents, policy: OperatorPolicy) returns (r: Result<Capabilities, Denial>)
    ensures r.Ok? <==> Granted(agents, policy)
    ensures r.Ok? ==> r.value == Requested(agents)
    ensures r.Err? && r.error.Credentials? ==> r.error.ids == Requested(agents).credentials - policy.allowedCredentials
  {
    var requested := RequestedCapabilities(agents);
    if requested.domains != {} || requested.endpoints != {} {
      return Err(NetworkAccess);
    }
    var denied := requested.credentials - policy.allowedCredentials;
    if denied != {} {
      return Err(Credentials(denied));
    }
    assert requested.credentials <= policy.allowedCredentials by {
      forall c | c in requested.credentials ensures c in policy.allowedCredentials {
        assert c !in denied;
      }
    }
    hide GrantsProvider;
    var todo := agents.Keys;
    while todo != {}
      invariant todo <= agents.Keys
      invariant forall id :: id in agents.Keys - todo ==> GrantsAll(policy, agents[id].manifest.providers)
    {
      var id :| id in todo;
      var ps, n := agents[id].manifest.providers, 0;
      while n < |ps|
        invariant n <= |ps| && GrantsAll(policy, ps[..n])
      {
        DenialMeans(policy, ps[n]);
        var denial := ProviderDenial(policy, ps[n]);
        if denial.Some? {
          InProviders(agents, id, ps[n]);
          return Err(denial.value);
        }
        assert ps[..n + 1] == ps[..n] + [ps[n]];
        n := n + 1;
      }
      assert ps[..n] == ps;
      todo := todo - {id};
    }
    return Ok(requested);
  }

  // ----- what is requested and granted, provider by provider

  /** Some agent of the release lists the provider. */
  predicate Lists(agents: Agents, p: Provider) {
    exists id :: id in agents && p in agents[id].manifest.providers
  }

  lemma ListsIff(agents: Agents, p: Provider)
    ensures p in ProvidersOf(agents) <==> Lists(agents, p)
  {
  }

  /** The inventory has exactly what providers ask for. */
  lemma RequestedMeans(agents: Agents)
    ensures var c := Requested(agents);
            && (forall x :: x in c.images <==> exists p :: Lists(agents, p) && p.Mcp? && p.image == Some(x))
            && (forall x :: x in c.endpoints <==> exists p :: Lists(agents, p) && p.Mcp? && p.uri == Some(x))
            && (forall x :: x in c.domains <==> exists p :: Lists(agents, p) && p.Mcp? && x in p.allowedDomains)
            && (forall x :: x in c.credentials <==>
                  || (exists p :: Lists(agents, p) && p.Credential? && p.id == x)
                  || (exists p, env :: Lists(agents, p) && p.Mcp? && env in p.credentialBindings
                                       && p.credentialBindings[env] == x))
            && (forall x :: x in c.bindings <==>
                  exists p :: Lists(agents, p) && p.Mcp? && p.id == x.provider && x.env in p.credentialBindings
                              && p.credentialBindings[x.env] == x.credential)
            && (forall id :: id in c.tools <==> exists p :: Lists(agents, p) && p.Mcp? && p.id == id)
            && (forall id, t :: id in c.tools ==>
                  (t in c.tools[id] <==>
                   exists p :: Lists(agents, p) && p.Mcp? && p.id == id && t in p.requiredTools))
  {
    forall p ensures p in ProvidersOf(agents) <==> Lists(agents, p) {
      ListsIff(agents, p);
    }
    hide Lists, ProvidersOf;
    var ps, c := ProvidersOf(agents), Requested(agents);
    forall x ensures x in c.credentials <==>
                     || (exists p :: Lists(agents, p) && p.Credential? && p.id == x)
                     || (exists p, env :: Lists(agents, p) && p.Mcp? && env in p.credentialBindings
                                          && p.credentialBindings[env] == x) {
      CredentialsAre(ps, x);
    }
    forall x: Binding
      ensures x in c.bindings <==>
              exists p :: Lists(agents, p) && p.Mcp? && p.id == x.provider && x.env in p.credentialBindings
                          && p.credentialBindings[x.env] == x.credential {
      BindingsAre(ps, x);
    }
  }

  lemma CredentialsAre(ps: set<Provider>, x: Id)
    ensures x in Requests(ps).credentials <==>
            || (exists p :: p in ps && p.Credential? && p.id == x)
            || (exists p, env :: p in ps && p.Mcp? && env in p.credentialBindings && p.credentialBindings[env] == x)
  {
    if p, env :| p in ps && p.Mcp? && env in p.credentialBindings && p.credentialBindings[env] == x {
      assert x in p.credentialBindings.Values;
    }
  }

  lemma BindingsAre(ps: set<Provider>, x: Binding)
    ensures x in Requests(ps).bindings <==>
            exists p :: p in ps && p.Mcp? && p.id == x.provider && x.env in p.credentialBindings
                        && p.credentialBindings[x.env] == x.credential
  {
    if p :| p in ps && p.Mcp? && p.id == x.provider && x.env in p.credentialBindings
            && p.credentialBindings[x.env] == x.credential {
      assert x in Bindings(p);
    }
  }

  lemma AsksForNetwork(agents: Agents, p: Provider)
    requires Lists(agents, p) && p.Mcp?
    ensures p.uri.Some? ==> Requested(agents).endpoints != {}
    ensures p.allowedDomains != [] ==> Requested(agents).domains != {}
  {
    RequestedMeans(agents);
    hide Requested, Lists;
    if p.uri.Some? {
      assert p.uri.value in Requested(agents).endpoints;
    }
    if p.allowedDomains != [] {
      assert p.allowedDomains[0] in Requested(agents).domains;
    }
  }

  /** A release is granted exactly when every provider in it is: no network, only allowed
      credentials, and for a tool server the granted image, tools and bindings. */
  lemma GrantedMeans(agents: Agents, policy: OperatorPolicy)
    ensures Granted(agents, policy) <==>
            forall p :: Lists(agents, p) ==>
              && (p.Credential? ==> p.id in policy.allowedCredentials)
              && (p.Mcp? ==>
                    && p.uri == None && |p.allowedDomains| == 0
                    && p.id in policy.providers && p.image == Some(policy.providers[p.id].image)
                    && (forall t :: t in p.requiredTools ==> t in policy.providers[p.id].tools)
                    && forall env :: env in p.credentialBindings ==>
                         && p.credentialBindings[env] in policy.allowedCredentials
                         && env in policy.providers[p.id].bindings
                         && policy.providers[p.id].bindings[env] == p.credentialBindings[env])
  {
    RequestedMeans(agents);
    hide Requested;
    forall p ensures p in ProvidersOf(agents) <==> Lists(agents, p) {
      ListsIff(agents, p);
    }
    hide Lists, ProvidersOf;
    if Granted(agents, policy) {
      forall p | Lists(agents, p) && p.Mcp?
        ensures p.uri == None && |p.allowedDomains| == 0
        ensures forall t :: t in p.requiredTools ==> t in policy.providers[p.id].tools
      {
        assert GrantsProvider(policy, p);
        AsksForNetwork(agents, p);
        assert forall t :: t in p.requiredTools ==> t in Elems(p.requiredTools);
      }
    }
  }

  /** A policy that grants at least as much. */
  predicate Extends(policy: OperatorPolicy, wider: OperatorPolicy) {
    && policy.allowedCredentials <= wider.allowedCredentials
    && forall id :: id in policy.providers ==>
         && id in wider.providers
         && WiderGrant(policy.providers[id], wider.providers[id])
  }

  predicate WiderGrant(grant: Grant, wider: Grant) {
    && wider.image == grant.image && grant.tools <= wider.tools
    && forall env :: env in grant.bindings ==> env in wider.bindings && wider.bindings[env] == grant.bindings[env]
  }

  /** Widening a policy never withdraws an acceptance. */
  lemma PolicyMonotone(agents: Agents, policy: OperatorPolicy, wider: OperatorPolicy)
    requires Granted(agents, policy) && Extends(policy, wider)
    ensures Granted(agents, wider)
  {
    forall p | p in ProvidersOf(agents) ensures GrantsProvider(wider, p) {
      assert GrantsProvider(policy, p);
    }
  }

  /** Providers of one id agree on their image and on each credential binding. */
  ghost predicate Coherent(agents: Agents) {
    forall p, q :: p in ProvidersOf(agents) && q in ProvidersOf(agents) && p.Mcp? && q.Mcp? && p.id == q.id ==>
      p.image.Some? && p.image == q.image && Agree(p.credentialBindings, q.credentialBindings)
  }

  predicate Agree(a: map<string, Id>, b: map<string, Id>) {
    forall env :: env in a && env in b ==> a[env] == b[env]
  }

  ghost function SomeProvider(ps: set<Provider>, id: Id): Provider
    requires exists p :: p in ps && p.Mcp? && p.id == id
  {
    var p :| p in ps && p.Mcp? && p.id == id;
    p
  }

  /** The least grant for the providers of one id. */
  ghost function LeastGrant(ps: set<Provider>, id: Id): Grant
    requires exists p :: p in ps && p.Mcp? && p.id == id
  {
    var p := SomeProvider(ps, id);
    Grant(if p.image.Some? then p.image.value else "", ToolsFor(ps, id),
          map env | env in (set p, e | p in ps && p.Mcp? && p.id == id && e in p.credentialBindings :: e) ::
              BindingOf(ps, id, env))
  }

  ghost function BindingOf(ps: set<Provider>, id: Id, env: string): Id
    requires exists p :: p in ps && p.Mcp? && p.id == id && env in p.credentialBindings
  {
    var p :| p in ps && p.Mcp? && p.id == id && env in p.credentialBindings;
    p.credentialBindings[env]
  }

  ghost function LeastPolicy(agents: Agents): OperatorPolicy {
    var ps := ProvidersOf(agents);
    OperatorPolicy(Requested(agents).credentials,
                   map id | id in (set p | p in ps && p.Mcp? :: p.id) :: LeastGrant(ps, id))
  }

  lemma LeastGrants(agents: Agents, p: Provider)
    requires Coherent(agents) && p in ProvidersOf(agents)
    ensures GrantsProvider(LeastPolicy(agents), p)
  {
    if p.Mcp? {
      var ps := ProvidersOf(agents);
      var grant := LeastGrant(ps, p.id);
      assert LeastPolicy(agents).providers[p.id] == grant;
      var q := SomeProvider(ps, p.id);
      forall env | env in p.credentialBindings ensures env in grant.bindings
          && grant.bindings[env] == p.credentialBindings[env] {
        var b :| b in ps && b.Mcp? && b.id == p.id && env in b.credentialBindings
            && BindingOf(ps, p.id, env) == b.credentialBindings[env];
        assert Agree(b.credentialBindings, p.credentialBindings);
      }
    }
  }

  /** What the policy schema asks: images of the pinned form, and no empty names. */
  ghost predicate PolicySchema(imageOk: string -> bool, policy: OperatorPolicy) {
    && "" !in policy.allowedCredentials
    && forall id :: id in policy.providers ==> GrantSchema(imageOk, policy.providers[id])
  }

  predicate GrantSchema(imageOk: string -> bool, grant: Grant) {
    imageOk(grant.image) && "" !in grant.tools && "" !in grant.bindings.Values
  }

  /** Everything requested has a form that the policy schema can name. */
  predicate Nameable(imageOk: string -> bool, agents: Agents) {
    var requested := Requested(agents);
    && (forall image :: image in requested.images ==> imageOk(image))
    && "" !in requested.credentials
    && forall id :: id in requested.tools ==> "" !in requested.tools[id]
  }

  lemma LeastFollowsSchema(imageOk: string -> bool, agents: Agents)
    requires Coherent(agents) && Nameable(imageOk, agents)
    ensures PolicySchema(imageOk, LeastPolicy(agents))
  {
    var ps, policy := ProvidersOf(agents), LeastPolicy(agents);
    forall id | id in policy.providers ensures GrantSchema(imageOk, policy.providers[id]) {
      var p := SomeProvider(ps, id);
      var grant := LeastGrant(ps, id);
      assert p.image.value in Requested(agents).images;
      assert Requested(agents).tools[id] == ToolsFor(ps, id);
      forall env | env in grant.bindings ensures grant.bindings[env] != "" {
        var b :| b in ps && b.Mcp? && b.id == id && env in b.credentialBindings
                 && BindingOf(ps, id, env) == b.credentialBindings[env];
        assert b.credentialBindings[env] in b.credentialBindings.Values;
        assert b.credentialBindings[env] in Requested(agents).credentials;
      }
    }
  }

  lemma GrantedIsNameable(imageOk: string -> bool, agents: Agents, policy: OperatorPolicy)
    requires PolicySchema(imageOk, policy) && Granted(agents, policy)
    ensures Nameable(imageOk, agents)
  {
    var ps, requested := ProvidersOf(agents), Requested(agents);
    forall image | image in requested.images ensures imageOk(image) {
      var p :| p in ps && p.Mcp? && p.image.Some? && p.image.value == image;
      assert GrantsProvider(policy, p) && GrantSchema(imageOk, policy.providers[p.id]);
    }
    forall id | id in requested.tools ensures "" !in requested.tools[id] {
      forall tool | tool in requested.tools[id] ensures tool != "" {
        var p :| p in ps && p.Mcp? && p.id == id && tool in p.requiredTools;
        assert GrantsProvider(policy, p) && tool in Elems(p.requiredTools);
        assert GrantSchema(imageOk, policy.providers[p.id]);
      }
    }
  }

  lemma GrantedIsCoherent(agents: Agents, policy: OperatorPolicy)
    requires Granted(agents, policy)
    ensures Coherent(agents)
  {
    forall p, q | p in ProvidersOf(agents) && q in ProvidersOf(agents) && p.Mcp? && q.Mcp? && p.id == q.id
      ensures p.image.Some? && p.image == q.image && Agree(p.credentialBindings, q.credentialBindings)
    {
      assert GrantsProvider(policy, p) && GrantsProvider(policy, q);
    }
  }

  lemma LeastGranted(agents: Agents)
    requires Requested(agents).domains == {} && Requested(agents).endpoints == {} && Coherent(agents)
    ensures Granted(agents, LeastPolicy(agents))
  {
    forall p | p in ProvidersOf(agents) ensures GrantsProvider(LeastPolicy(agents), p) {
      LeastGrants(agents, p);
    }
  }

  /** Some policy that follows the schema grants a release exactly when it wants no
      network, its providers of one id are coherent, and the schema can name all it asks. */
  lemma GrantableIff(imageOk: string -> bool, agents: Agents)
    ensures (exists policy :: PolicySchema(imageOk, policy) && Granted(agents, policy)) <==>
            && Requested(agents).domains == {} && Requested(agents).endpoints == {}
            && Coherent(agents) && Nameable(imageOk, agents)
  {
    hide PolicySchema, Coherent, Nameable, LeastPolicy;
    if policy :| PolicySchema(imageOk, policy) && Granted(agents, policy) {
      GrantedIsNameable(imageOk, agents, policy);
      GrantedIsCoherent(agents, policy);
    }
    if Requested(agents).domains == {} && Requested(agents).endpoints == {} && Coherent(agents)
      && Nameable(imageOk, agents) {
      LeastFollowsSchema(imageOk, agents);
      LeastGranted(agents);
    }
  }

  // ----- differences

  function ToolDifference(left: map<Id, set<string>>, right: map<Id, set<string>>): map<Id, set<string>> {
    map id | id in left && left[id] - (if id in right then right[id] else {}) != {} ::
      left[id] - (if id in right then right[id] else {})
  }

  function Difference(left: Capabilities, right: Capabilities): Capabilities {
    Capabilities(left.images - right.images, left.credentials - right.credentials,
                 ToolDifference(left.tools, right.tools),
                 left.bindings - right.bindings, left.domains - right.domains, left.endpoints - right.endpoints)
  }

  /** A difference lists exactly what is on the left and not on the right. */
  lemma DifferenceMeans(left: Capabilities, right: Capabilities)
    ensures var d := Difference(left, right);
            && (forall x :: x in d.images <==> x in left.images && x !in right.images)
            && (forall x :: x in d.credentials <==> x in left.credentials && x !in right.credentials)
            && (forall x :: x in d.bindings <==> x in left.bindings && x !in right.bindings)
            && (forall x :: x in d.domains <==> x in left.domains && x !in right.domains)
            && (forall x :: x in d.endpoints <==> x in left.endpoints && x !in right.endpoints)
            && (forall id, t :: id in d.tools && t in d.tools[id] <==>
                  id in left.tools && t in left.tools[id] && !(id in right.tools && t in right.tools[id]))
            && (forall id :: id in d.tools ==> exists t :: t in d.tools[id])
  {
    var d := Difference(left, right);
    forall id | id in d.tools ensures exists t :: t in d.tools[id] {
      assert d.tools[id] != {};
    }
    forall id, t
      ensures id in d.tools && t in d.tools[id] <==>
              id in left.tools && t in left.tools[id] && !(id in right.tools && t in right.tools[id])
    {
      if id in left.tools && t in left.tools[id] && !(id in right.tools && t in right.tools[id]) {
        assert t in left.tools[id] - (if id in right.tools then right.tools[id] else {});
      }
    }
  }

  function ToolsAt(tools: map<Id, set<string>>, id: Id): set<string> {
    if id in tools then tools[id] else {}
  }

  /** Take away, then add; a provider left without tools disappears. */
  function ApplyTools(prior: map<Id, set<string>>, removed: map<Id, set<string>>,
                      added: map<Id, set<string>>): map<Id, set<string>> {
    map id | id in prior.Keys + added.Keys && (ToolsAt(prior, id) - ToolsAt(removed, id)) + ToolsAt(added, id) != {} ::
      (ToolsAt(prior, id) - ToolsAt(removed, id)) + ToolsAt(added, id)
  }

  function ApplyDiff(prior: Capabilities, removed: Capabilities, added: Capabilities): Capabilities {
    Capabilities(prior.images - removed.images + added.images,
                 prior.credentials - removed.credentials + added.credentials,
                 ApplyTools(prior.tools, removed.tools, added.tools),
                 prior.bindings - removed.bindings + added.bindings,
                 prior.domains - removed.domains + added.domains, prior.endpoints - removed.endpoints + added.endpoints)
  }

  lemma ToolChange(a: map<Id, set<string>>, b: map<Id, set<string>>, id: Id)
    ensures (ToolsAt(a, id) - ToolsAt(ToolDifference(a, b), id)) + ToolsAt(ToolDifference(b, a), id) == ToolsAt(b, id)
  {
    assert ToolsAt(ToolDifference(a, b), id) == ToolsAt(a, id) - ToolsAt(b, id);
    assert ToolsAt(ToolDifference(b, a), id) == ToolsAt(b, id) - ToolsAt(a, id);
  }

  /** The difference loses nothing exactly when no provider of the new release is
      listed without tools. */
  lemma DiffLossless(before: Capabilities, after: Capabilities)
    ensures ApplyDiff(before, Difference(before, after), Difference(after, before)) == after <==>
            forall id :: id in after.tools ==> after.tools[id] != {}
  {
    var r := ApplyDiff(before, Difference(before, after), Difference(after, before));
    assert r.images == after.images && r.credentials == after.credentials && r.bindings == after.bindings;
    assert r.domains == after.domains && r.endpoints == after.endpoints;
    forall id ensures id in r.tools <==> id in after.tools && after.tools[id] != {} {
      ToolChange(before.tools, after.tools, id);
    }
    forall id | id in r.tools ensures r.tools[id] == after.tools[id] {
      ToolChange(before.tools, after.tools, id);
    }
    if forall id :: id in after.tools ==> after.tools[id] != {} {
      assert r.tools == after.tools;
    }
  }

  lemma {:induction false} ProductionTools(w: Checks, ps: seq<Provider>, p: Provider)
    requires ProductionProviders(w, ps) && p in ps
    ensures ProductionProvider(w, p)
  {
    if p != ps[0] {
      ProductionTools(w, ps[1..], p);
    }
  }

  lemma ValidProvider(w: Checks, r: Release, p: Provider)
    requires ValidRelease(w, r) && p in ProvidersOf(r.agents)
    ensures ProductionProvider(w, p)
  {
    var id :| id in r.agents && p in r.agents[id].manifest.providers;
    assert AgentOk(w, id, r.agents[id]);
    ProductionTools(w, r.agents[id].manifest.providers, p);
  }

  /** For validated releases the difference is lossless, and no network is requested. */
  lemma ReleaseDiffLossless(w: Checks, prior: Release, next: Release)
    requires ValidRelease(w, prior) && ValidRelease(w, next)
    ensures var before, after := Requested(prior.agents), Requested(next.agents);
            && ApplyDiff(before, Difference(before, after), Difference(after, before)) == after
            && after.domains == {} && after.endpoints == {}
  {
    var ps, after := ProvidersOf(next.agents), Requested(next.agents);
    forall p | p in ps ensures ProductionProvider(w, p) {
      ValidProvider(w, next, p);
    }
    forall id | id in after.tools ensures after.tools[id] != {} {
      var p :| p in ps && p.Mcp? && p.id == id;
      assert p.requiredTools[0] in p.requiredTools && p.requiredTools[0] in ToolsFor(ps, id);
    }
    DiffLossless(Requested(prior.agents), after);
  }

  /** A diff that reports an unchanged entry has nothing to report. */
  lemma UnchangedEntryUnchangedRelease(w: Checks, prior: Release, next: Release)
    requires ValidRelease(w, prior) && ValidRelease(w, next) && NoCollision(w, prior, next) && prior.entry == next.entry
    ensures prior.agents == next.agents
    ensures Difference(Requested(prior.agents), Requested(next.agents)) == Capabilities({}, {}, map[], {}, {}, {})
  {
    EntryDeterminesRelease(w, prior, next);
  }

  /** An agent the diff does not list as changed is the same, together with every agent
      it can reach. */
  lemma UnchangedAgentUnchangedClosure(w: Checks, prior: Release, next: Release, id: Id, below: Id)
    requires ValidRelease(w, prior) && ValidRelease(w, next) && NoCollision(w, prior, next)
    requires id in prior.agents && id in next.agents && prior.agents[id].sha256 == next.agents[id].sha256
    requires Reach(RefGraph(prior.agents), id, below)
    ensures below in prior.agents && below in next.agents && prior.agents[below] == next.agents[below]
  {
    hide ValidRelease, NoCollision, Closure, Hashed;
    ValidIsSealed(w, prior);
    ValidIsSealed(w, next);
    var p :| PathFrom(RefGraph(prior.agents), id, p) && p[|p| - 1] == below;
    SameAlong(w, prior, next, p);
  }
}
