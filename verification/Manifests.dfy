/** Agent and workflow manifests, their references and the pins on them. */
module Manifests {
  import opened Wrappers
  import opened Graphs
  import opened WorkflowDag

  datatype Identity = Identity(id: Id, details: string)

  datatype Provider =
    | Mcp(id: Id, transport: string, uri: Option<string>, image: Option<string>, requiredTools: seq<string>,
          allowedDomains: seq<string>, credentialBindings: map<string, Id>, launch: string)
    | Credential(id: Id, kind: string)
    | SubAgent(id: Id, agentId: Id, pin: Option<Digest>, purpose: Option<string>)

  /** `body` stands for the fields without references: capabilities, runtime, contracts, limits. */
  datatype AgentManifest = AgentManifest(identity: Identity, providers: seq<Provider>, body: string)

  datatype WorkflowManifest = WorkflowManifest(identity: Identity, steps: seq<Step>, output: Option<Id>)

  datatype Artifact = AgentArtifact(agent: AgentManifest) | WorkflowArtifact(workflow: WorkflowManifest)

  /** The parts of the environment a release is built from and checked in: the
      content hash, and the schema checks that no reference pin can influence. */
  datatype Checks = Checks(
    hash: Artifact -> Digest,
    bodyOk: (Identity, string) -> bool,
    providerOk: Provider -> bool,
    stdioOk: Provider -> bool)

  // ----- identifiers

  predicate IdStart(c: char) {
    'a' <= c <= 'z' || '0' <= c <= '9'
  }

  predicate IsIdentifier(id: Id) {
    id != "" && IdStart(id[0]) && forall i :: 1 <= i < |id| ==> IdStart(id[i]) || id[i] == '_' || id[i] == '-'
  }

  const MAX_ARTIFACT_ID := 128

  /** Identifiers of agents, workflows and releases; they also name files. */
  predicate IsArtifactId(id: Id) {
    IsIdentifier(id) && |id| <= MAX_ARTIFACT_ID
  }

  /** Identifiers of providers also admit capital letters. */
  predicate IsProviderId(id: Id) {
    && 1 <= |id| <= MAX_ARTIFACT_ID && (IdStart(id[0]) || 'A' <= id[0] <= 'Z')
    && forall c :: c in id ==> IdStart(c) || 'A' <= c <= 'Z' || c == '_' || c == '-'
  }

  // ----- references

  datatype Ref = Ref(agentId: Id, pin: Option<Digest>)

  function ProviderRefs(ps: seq<Provider>): (r: seq<Ref>)
    ensures |r| <= |ps|
  {
    if ps == [] then []
    else (if ps[0].SubAgent? then [Ref(ps[0].agentId, ps[0].pin)] else []) + ProviderRefs(ps[1..])
  }

  function StepRefs(steps: seq<Step>): (r: seq<Ref>)
    ensures |r| == |steps|
  {
    seq(|steps|, i requires 0 <= i < |steps| => Ref(steps[i].agentId, steps[i].pin))
  }

  function AgentRefs(m: AgentManifest): seq<Ref> {
    ProviderRefs(m.providers)
  }

  function Targets(refs: seq<Ref>): (r: seq<Id>)
    ensures |r| == |refs|
  {
    seq(|refs|, i requires 0 <= i < |refs| => refs[i].agentId)
  }

  // ----- pins

  function PinProviders(ps: seq<Provider>, pins: seq<Digest>): (r: seq<Provider>)
    requires |pins| == |ProviderRefs(ps)|
    ensures |r| == |ps|
  {
    if ps == [] then []
    else if ps[0].SubAgent? then [ps[0].(pin := Some(pins[0]))] + PinProviders(ps[1..], pins[1..])
    else [ps[0]] + PinProviders(ps[1..], pins)
  }

  function PinAgent(m: AgentManifest, pins: seq<Digest>): AgentManifest
    requires |pins| == |AgentRefs(m)|
  {
    m.(providers := PinProviders(m.providers, pins))
  }

  function PinSteps(steps: seq<Step>, pins: seq<Digest>): (r: seq<Step>)
    requires |pins| == |steps|
    ensures |r| == |steps|
  {
    seq(|steps|, i requires 0 <= i < |steps| => steps[i].(pin := Some(pins[i])))
  }

  /** The same references carrying the given pins. */
  function WithPins(refs: seq<Ref>, pins: seq<Digest>): (r: seq<Ref>)
    requires |refs| == |pins|
    ensures |r| == |refs|
  {
    if refs == [] then [] else [Ref(refs[0].agentId, Some(pins[0]))] + WithPins(refs[1..], pins[1..])
  }

  lemma {:induction false} WithPinsAt(refs: seq<Ref>, pins: seq<Digest>)
    requires |refs| == |pins|
    ensures forall i :: 0 <= i < |refs| ==> WithPins(refs, pins)[i] == Ref(refs[i].agentId, Some(pins[i]))
  {
    if refs != [] {
      WithPinsAt(refs[1..], pins[1..]);
      forall i | 0 <= i < |refs| ensures WithPins(refs, pins)[i] == Ref(refs[i].agentId, Some(pins[i])) {
        if i > 0 {
          assert WithPins(refs, pins)[i] == WithPins(refs[1..], pins[1..])[i - 1];
        }
      }
    }
  }

  function ErasePin(p: Provider): Provider {
    if p.SubAgent? then p.(pin := None) else p
  }

  function ErasePins(ps: seq<Provider>): (r: seq<Provider>)
    ensures |r| == |ps|
  {
    if ps == [] then [] else [ErasePin(ps[0])] + ErasePins(ps[1..])
  }

  /** Pinning replaces the pins of the references, in order, and changes nothing else. */
  lemma {:induction false} PinProvidersRefs(ps: seq<Provider>, pins: seq<Digest>)
    requires |pins| == |ProviderRefs(ps)|
    ensures ProviderRefs(PinProviders(ps, pins)) == WithPins(ProviderRefs(ps), pins)
  {
    if ps == [] {
    } else if ps[0].SubAgent? {
      PinProvidersRefs(ps[1..], pins[1..]);
      assert PinProviders(ps, pins)[1..] == PinProviders(ps[1..], pins[1..]);
      assert ProviderRefs(ps)[1..] == ProviderRefs(ps[1..]);
    } else {
      assert ProviderRefs(ps) == ProviderRefs(ps[1..]);
      PinProvidersRefs(ps[1..], pins);
      assert PinProviders(ps, pins)[1..] == PinProviders(ps[1..], pins);
      assert ProviderRefs(PinProviders(ps, pins)) == ProviderRefs(PinProviders(ps[1..], pins));
    }
  }

  lemma {:induction false} PinProvidersErase(ps: seq<Provider>, pins: seq<Digest>)
    requires |pins| == |ProviderRefs(ps)|
    ensures ErasePins(PinProviders(ps, pins)) == ErasePins(ps)
  {
    if ps != [] {
      var rest := if ps[0].SubAgent? then pins[1..] else pins;
      PinProvidersErase(ps[1..], rest);
      assert PinProviders(ps, pins)[1..] == PinProviders(ps[1..], rest);
    }
  }

  /** Pinning with the pins already present changes nothing. */
  lemma {:induction false} PinProvidersSame(ps: seq<Provider>, pins: seq<Digest>)
    requires |pins| == |ProviderRefs(ps)|
    requires forall i :: 0 <= i < |pins| ==> ProviderRefs(ps)[i].pin == Some(pins[i])
    ensures PinProviders(ps, pins) == ps
  {
    if ps == [] {
    } else if ps[0].SubAgent? {
      var refs := ProviderRefs(ps);
      assert refs[1..] == ProviderRefs(ps[1..]);
      forall i | 0 <= i < |pins[1..]| ensures ProviderRefs(ps[1..])[i].pin == Some(pins[1..][i]) {
        assert refs[i + 1].pin == Some(pins[i + 1]);
      }
      PinProvidersSame(ps[1..], pins[1..]);
      assert refs[0].pin == Some(pins[0]);
      assert ps == [ps[0]] + ps[1..];
    } else {
      PinProvidersSame(ps[1..], pins);
      assert ps == [ps[0]] + ps[1..];
    }
  }

  lemma PinStepsRefs(steps: seq<Step>, pins: seq<Digest>)
    requires |pins| == |steps|
    ensures StepRefs(PinSteps(steps, pins)) == WithPins(StepRefs(steps), pins)
  {
    WithPinsAt(StepRefs(steps), pins);
  }

  lemma PinStepsSame(steps: seq<Step>, pins: seq<Digest>)
    requires |pins| == |steps|
    requires forall i :: 0 <= i < |pins| ==> StepRefs(steps)[i].pin == Some(pins[i])
    ensures PinSteps(steps, pins) == steps
  {
    forall i | 0 <= i < |steps| ensures PinSteps(steps, pins)[i] == steps[i] {
      assert StepRefs(steps)[i].pin == Some(pins[i]);
    }
  }

  // ----- manifest checks

  function ProviderIds(ps: seq<Provider>): (r: seq<Id>)
    ensures |r| == |ps|
  {
    if ps == [] then [] else [ps[0].id] + ProviderIds(ps[1..])
  }

  function DeclaredCredentials(ps: seq<Provider>): set<Id> {
    if ps == [] then {}
    else (if ps[0].Credential? then {ps[0].id} else {}) + DeclaredCredentials(ps[1..])
  }

  /** Credential bindings name credentials declared by the same agent. */
  predicate BindingsWithin(ps: seq<Provider>, credentials: set<Id>) {
    ps == [] ||
    ((ps[0].Mcp? ==> ps[0].credentialBindings.Values <= credentials) && BindingsWithin(ps[1..], credentials))
  }

  const MAX_PROVIDERS := 64

  /** The schema of one provider. For tools and credentials it looks at no reference. */
  predicate ProviderSchema(w: Checks, p: Provider) {
    if p.SubAgent? then IsProviderId(p.id) && IsArtifactId(p.agentId) && p.purpose != Some("")
    else w.providerOk(p)
  }

  predicate ProvidersSchema(w: Checks, ps: seq<Provider>) {
    ps == [] || (ProviderSchema(w, ps[0]) && ProvidersSchema(w, ps[1..]))
  }

  predicate ManifestOk(w: Checks, m: AgentManifest) {
    && IsArtifactId(m.identity.id) && w.bodyOk(m.identity, m.body)
    && |m.providers| <= MAX_PROVIDERS && ProvidersSchema(w, m.providers)
    && |Elems(ProviderIds(m.providers))| == |m.providers|
    && BindingsWithin(m.providers, DeclaredCredentials(m.providers))
  }

  /** What a production release admits: local pinned images without network, and
      explicitly enumerated tools. */
  predicate ProductionProvider(w: Checks, p: Provider) {
    p.Mcp? ==>
      && p.transport == "stdio" && p.uri.None?
      && p.image.Some? && p.allowedDomains == [] && w.stdioOk(p)
      && p.requiredTools != [] && "*" !in p.requiredTools
  }

  predicate ProductionProviders(w: Checks, ps: seq<Provider>) {
    ps == [] || (ProductionProvider(w, ps[0]) && ProductionProviders(w, ps[1..]))
  }

  predicate ProductionOk(w: Checks, m: AgentManifest) {
    ProductionProviders(w, m.providers) && BindingsWithin(m.providers, DeclaredCredentials(m.providers))
  }

  /** Everything a production release admits, provider by provider. */
  lemma ProductionMeans(w: Checks, m: AgentManifest)
    ensures ProductionOk(w, m) <==>
            forall p :: p in m.providers && p.Mcp? ==>
              && p.transport == "stdio" && p.uri == None && p.image.Some?
              && |p.allowedDomains| == 0 && |p.requiredTools| > 0 && (forall t :: t in p.requiredTools ==> t != "*")
              && w.stdioOk(p)
              && forall env :: env in p.credentialBindings ==> Declares(m, p.credentialBindings[env])
  {
    ProductionEach(w, m.providers);
    BindingsEach(m.providers, DeclaredCredentials(m.providers));
    forall id ensures id in DeclaredCredentials(m.providers) <==> Declares(m, id) {
      DeclaredIff(m.providers, id);
    }
    forall p | p in m.providers && p.Mcp?
      ensures p.credentialBindings.Values <= DeclaredCredentials(m.providers) <==>
              forall env :: env in p.credentialBindings ==> Declares(m, p.credentialBindings[env])
    {
      assert forall env :: env in p.credentialBindings ==> p.credentialBindings[env] in p.credentialBindings.Values;
    }
  }

  predicate Declares(m: AgentManifest, id: Id) {
    exists p :: p in m.providers && p.Credential? && p.id == id
  }

  lemma {:induction false} ProductionEach(w: Checks, ps: seq<Provider>)
    ensures ProductionProviders(w, ps) <==> forall p :: p in ps ==> ProductionProvider(w, p)
  {
    if ps != [] {
      ProductionEach(w, ps[1..]);
      assert forall p :: p in ps <==> p == ps[0] || p in ps[1..];
    }
  }

  lemma {:induction false} BindingsEach(ps: seq<Provider>, credentials: set<Id>)
    ensures BindingsWithin(ps, credentials) <==>
            forall p :: p in ps && p.Mcp? ==> p.credentialBindings.Values <= credentials
  {
    if ps != [] {
      BindingsEach(ps[1..], credentials);
      assert forall p :: p in ps <==> p == ps[0] || p in ps[1..];
    }
  }

  lemma {:induction false} DeclaredIff(ps: seq<Provider>, id: Id)
    ensures id in DeclaredCredentials(ps) <==> exists p :: p in ps && p.Credential? && p.id == id
  {
    if ps != [] {
      DeclaredIff(ps[1..], id);
      assert forall p :: p in ps <==> p == ps[0] || p in ps[1..];
    }
  }

  /** A valid manifest: a name that can be a file name, up to 64 providers under different
      ids, each of them in form, and credentials bound only where they are declared. */
  lemma ManifestMeans(w: Checks, m: AgentManifest)
    ensures ManifestOk(w, m) <==>
            && FileName(m.identity.id) && w.bodyOk(m.identity, m.body)
            && |m.providers| <= 64
            && (forall i, j :: 0 <= i < j < |m.providers| ==> m.providers[i].id != m.providers[j].id)
            && (forall p :: p in m.providers && !p.SubAgent? ==> w.providerOk(p))
            && (forall p :: p in m.providers && p.SubAgent? ==>
                  ProviderName(p.id) && FileName(p.agentId) && p.purpose != Some(""))
            && forall p :: p in m.providers && p.Mcp? ==>
                 forall env :: env in p.credentialBindings ==> Declares(m, p.credentialBindings[env])
  {
    hide DeclaredCredentials, BindingsWithin, ProviderIds, FileName, ProviderName, IsArtifactId, IsProviderId;
    FileNameIff(m.identity.id);
    forall p | p in m.providers && p.SubAgent?
      ensures (FileName(p.agentId) <==> IsArtifactId(p.agentId)) && (ProviderName(p.id) <==> IsProviderId(p.id))
    {
      FileNameIff(p.agentId);
      ProviderNameIff(p.id);
    }
    SchemaEach(w, m.providers);
    IdsInOrder(m.providers);
    DistinctSize(ProviderIds(m.providers));
    BindingsEach(m.providers, DeclaredCredentials(m.providers));
    forall id ensures id in DeclaredCredentials(m.providers) <==> Declares(m, id) {
      DeclaredIff(m.providers, id);
    }
    forall p | p in m.providers && p.Mcp?
      ensures p.credentialBindings.Values <= DeclaredCredentials(m.providers) <==>
              forall env :: env in p.credentialBindings ==> Declares(m, p.credentialBindings[env])
    {
      assert forall env :: env in p.credentialBindings ==> p.credentialBindings[env] in p.credentialBindings.Values;
    }
  }

  /** Small letters, digits and the two separators. */
  predicate InName(c: char) {
    'a' <= c <= 'z' || '0' <= c <= '9' || c == '-' || c == '_'
  }

  /** Up to 128 such characters, of which the first is no separator. */
  ghost predicate FileName(id: Id) {
    1 <= |id| <= 128 && id[0] != '-' && id[0] != '_' && forall c :: c in id ==> InName(c)
  }

  /** The same with capital letters. */
  ghost predicate ProviderName(id: Id) {
    1 <= |id| <= 128 && id[0] != '-' && id[0] != '_' && forall c :: c in id ==> InName(c) || 'A' <= c <= 'Z'
  }

  lemma ProviderNameIff(id: Id)
    ensures ProviderName(id) <==> IsProviderId(id)
  {
    if |id| > 0 {
      assert id[0] in id;
    }
  }

  lemma FileNameIff(id: Id)
    ensures FileName(id) <==> IsArtifactId(id)
  {
    if FileName(id) {
      assert forall i :: 0 <= i < |id| ==> id[i] in id;
    }
  }

  lemma {:induction false} SchemaEach(w: Checks, ps: seq<Provider>)
    ensures ProvidersSchema(w, ps) <==> forall p :: p in ps ==> ProviderSchema(w, p)
  {
    if ps != [] {
      SchemaEach(w, ps[1..]);
      assert forall p :: p in ps <==> p == ps[0] || p in ps[1..];
    }
  }

  lemma {:induction false} IdsInOrder(ps: seq<Provider>)
    ensures forall i :: 0 <= i < |ps| ==> ProviderIds(ps)[i] == ps[i].id
  {
    if ps != [] {
      IdsInOrder(ps[1..]);
    }
  }

  /** The references are the subagents, each with its pin. */
  lemma {:induction false} RefsAreSubAgents(ps: seq<Provider>, ref: Ref)
    ensures ref in ProviderRefs(ps) <==> exists p :: p in ps && p.SubAgent? && ref == Ref(p.agentId, p.pin)
  {
    if ps != [] {
      RefsAreSubAgents(ps[1..], ref);
      assert forall p :: p in ps <==> p == ps[0] || p in ps[1..];
      if ps[0].SubAgent? {
        assert forall r :: r in ProviderRefs(ps) <==> r == Ref(ps[0].agentId, ps[0].pin) || r in ProviderRefs(ps[1..]);
      } else {
        assert ProviderRefs(ps) == ProviderRefs(ps[1..]);
      }
    }
  }

  /** No check looks at a pin. */
  lemma PinningKeepsChecks(w: Checks, m: AgentManifest, pins: seq<Digest>)
    requires |pins| == |AgentRefs(m)|
    ensures PinAgent(m, pins).identity == m.identity
    ensures ManifestOk(w, m) <==> ManifestOk(w, PinAgent(m, pins))
    ensures ProductionOk(w, m) <==> ProductionOk(w, PinAgent(m, pins))
  {
    var ps, qs := m.providers, PinAgent(m, pins).providers;
    PinProvidersErase(ps, pins);
    SameButPins(w, ps, qs, DeclaredCredentials(ps));
  }

  lemma {:induction false} SameButPins(w: Checks, ps: seq<Provider>, qs: seq<Provider>, credentials: set<Id>)
    requires |ps| == |qs| && ErasePins(ps) == ErasePins(qs)
    ensures ProviderIds(ps) == ProviderIds(qs)
    ensures DeclaredCredentials(ps) == DeclaredCredentials(qs)
    ensures BindingsWithin(ps, credentials) <==> BindingsWithin(qs, credentials)
    ensures ProductionProviders(w, ps) <==> ProductionProviders(w, qs)
    ensures ProvidersSchema(w, ps) <==> ProvidersSchema(w, qs)
  {
    if ps != [] {
      assert ErasePins(ps)[0] == ErasePins(qs)[0];
      assert ErasePins(ps[1..]) == ErasePins(ps)[1..] && ErasePins(qs[1..]) == ErasePins(qs)[1..];
      SameButPins(w, ps[1..], qs[1..], credentials);
    }
  }
}
