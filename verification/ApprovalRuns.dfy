/** Every interleaving of approvals, their crashes, edits of the stored files and of
    policies, new signers and revocations. Only an approval writes approval records. */
module ApprovalRuns {
  import opened Wrappers
  import opened Graphs
  import opened WorkflowDag
  import opened Manifests
  import opened Releases
  import opened Policy
  import opened Approval

  /** An approval whose release and policy have passed their checks. */
  datatype Clearance = Clearance(data: Release, path: Path, policy: OperatorPolicy)

  /** The store, the releases approvals have vetted, and their clearances. */
  datatype System = System(store: Store, vetted: set<Release>, cleared: set<Clearance>)

  datatype Change =
    | Bind(id: Id, file: KeyFile)
    | Revoke(id: Id)
    | PutPolicy(path: Path, policy: Option<OperatorPolicy>)
    | Edit(digest: Digest, folder: Folder)
    | Vet(data: Release, signature: Option<Signature>)
    | Clear(clearance: Clearance)
    | Step(digest: Digest, write: Write)
    | Commit(digest: Digest, clearance: Clearance)

  const START := System(EMPTY_STORE, {}, {})

  function RecordOf(v: Crypto, c: Clearance): Record {
    Record(v.hashRelease(c.data), c.path, v.hashPolicy(c.policy))
  }

  /** When a change can happen. Edits and steps write anything except records. */
  ghost predicate Enabled(v: Crypto, m: System, c: Change) {
    match c
    case Bind(id, _) => id !in m.store.trusted
    case Revoke(id) => id in m.store.trusted && m.store.trusted[id].Key?
    case PutPolicy(_, _) => true
    case Edit(digest, folder) => folder.approval == FolderOf(m.store, digest).approval
    case Vet(data, signature) => TrustFailure(v, m.store, data, signature).None? && ValidRelease(v.checks, data)
    case Clear(t) => t.data in m.vetted && t.path in m.store.policies && m.store.policies[t.path] == t.policy
                     && Granted(t.data.agents, t.policy)
    case Step(_, write) => !write.WriteRecord?
    case Commit(digest, t) => t in m.cleared && digest == v.hashRelease(t.data)
  }

  function Apply(v: Crypto, m: System, c: Change): System {
    var s := m.store;
    match c
    case Bind(id, file) => m.(store := s.(trusted := s.trusted[id := file]))
    case Revoke(id) =>
      if id in s.trusted && s.trusted[id].Key?
      then m.(store := s.(revoked := s.revoked + {s.trusted[id].fingerprint}))
      else m
    case PutPolicy(path, policy) =>
      m.(store := s.(policies := if policy.Some? then s.policies[path := policy.value] else s.policies - {path}))
    case Edit(digest, folder) => m.(store := PutFolder(s, digest, folder))
    case Vet(data, _) => m.(vetted := m.vetted + {data})
    case Clear(t) => m.(cleared := m.cleared + {t})
    case Step(digest, write) => m.(store := PutFolder(s, digest, Written(FolderOf(s, digest), write)))
    case Commit(digest, t) =>
      m.(store := PutFolder(s, digest, Written(FolderOf(s, digest), WriteRecord(RecordOf(v, t)))))
  }

  function After(v: Crypto, h: seq<Change>): System {
    if h == [] then START else Apply(v, After(v, h[..|h| - 1]), h[|h| - 1])
  }

  ghost predicate Legal(v: Crypto, h: seq<Change>) {
    h == [] || (Legal(v, h[..|h| - 1]) && Enabled(v, After(v, h[..|h| - 1]), h[|h| - 1]))
  }

  lemma {:induction false} LegalPrefix(v: Crypto, h: seq<Change>, k: nat)
    requires Legal(v, h) && k <= |h|
    ensures Legal(v, h[..k])
    ensures k < |h| ==> Enabled(v, After(v, h[..k]), h[k])
    decreases |h|
  {
    if k == |h| {
      assert h[..k] == h;
    } else if k < |h| - 1 {
      LegalPrefix(v, h[..|h| - 1], k);
      assert h[..|h| - 1][..k] == h[..k];
    }
  }

  // ----- where a record comes from

  lemma {:induction false} RecordCommitted(v: Crypto, h: seq<Change>, digest: Digest) returns (k: nat)
    requires Legal(v, h) && FolderOf(After(v, h).store, digest).approval.Some?
    ensures k < |h| && h[k].Commit? && h[k].digest == digest
    ensures FolderOf(After(v, h).store, digest).approval == Some(RecordOf(v, h[k].clearance))
    decreases |h|
  {
    var before, last := h[..|h| - 1], h[|h| - 1];
    if last.Commit? && last.digest == digest {
      k := |h| - 1;
    } else {
      assert FolderOf(After(v, h).store, digest).approval == FolderOf(After(v, before).store, digest).approval;
      k := RecordCommitted(v, before, digest);
    }
  }

  lemma {:induction false} ClearedAt(v: Crypto, h: seq<Change>, t: Clearance) returns (i: nat)
    requires t in After(v, h).cleared
    ensures i < |h| && h[i] == Clear(t)
    decreases |h|
  {
    if h[|h| - 1] == Clear(t) {
      i := |h| - 1;
    } else {
      i := ClearedAt(v, h[..|h| - 1], t);
    }
  }

  lemma {:induction false} VettedAt(v: Crypto, h: seq<Change>, data: Release) returns (j: nat)
    requires data in After(v, h).vetted
    ensures j < |h| && h[j].Vet? && h[j].data == data
    decreases |h|
  {
    if h[|h| - 1].Vet? && h[|h| - 1].data == data {
      j := |h| - 1;
    } else {
      j := VettedAt(v, h[..|h| - 1], data);
    }
  }

  /** At `j` an approval vets a release, at `i` it clears it against the policy on file
      at that moment, and at `k` it commits it. */
  ghost predicate CommittedBy(v: Crypto, h: seq<Change>, j: nat, i: nat, k: nat) {
    && j < i < k < |h| && h[j].Vet? && h[i].Clear? && h[k].Commit?
    && h[k].clearance == h[i].clearance && h[i].clearance.data == h[j].data
    && TrustFailure(v, After(v, h[..j]).store, h[j].data, h[j].signature).None? && ValidRelease(v.checks, h[j].data)
    && var t, policies := h[i].clearance, After(v, h[..i]).store.policies;
       t.path in policies && policies[t.path] == t.policy && Granted(t.data.agents, t.policy)
  }

  lemma CommitHasApproval(v: Crypto, h: seq<Change>, k: nat) returns (j: nat, i: nat)
    requires Legal(v, h) && k < |h| && h[k].Commit?
    ensures CommittedBy(v, h, j, i, k) && h[k].digest == v.hashRelease(h[k].clearance.data)
  {
    hide TrustFailure, ValidRelease, Granted, After, Legal;
    LegalPrefix(v, h, k);
    i := ClearedAt(v, h[..k], h[k].clearance);
    LegalPrefix(v, h, i);
    assert h[..k][i] == h[i];
    j := VettedAt(v, h[..i], h[i].clearance.data);
    LegalPrefix(v, h, j);
    assert h[..i][j] == h[j];
  }

  /** What a successful load has checked now. */
  ghost predicate PassesNow(v: Crypto, s: Store, digest: Digest, a: Approved) {
    var f := FolderOf(s, digest);
    && f.release == Some(a.data) && f.approval.Some?
    && f.approval.value == Record(digest, f.approval.value.policyPath, v.hashPolicy(a.policy))
       && digest == v.hashRelease(a.data)
    && f.approval.value.policyPath in s.policies && s.policies[f.approval.value.policyPath] == a.policy
    && TrustFailure(v, s, a.data, f.signature).None? && ValidRelease(v.checks, a.data)
    && Granted(a.data.agents, a.policy) && SnapshotsIntact(v, f, a.data) && WorkflowIntact(v, f, a.data)
  }

  /** A load succeeds exactly when everything it rechecks holds now. */
  lemma LoadMeans(v: Crypto, s: Store, digest: Digest)
    ensures Load(v, s, digest).Ok? <==> exists a :: PassesNow(v, s, digest, a)
    ensures Load(v, s, digest).Ok? ==> PassesNow(v, s, digest, Load(v, s, digest).value)
  {
    hide ValidRelease, Granted, SnapshotsIntact, WorkflowIntact, TrustFailure, FolderOf;
    if a :| PassesNow(v, s, digest, a) {
      assert Load(v, s, digest) == Ok(a);
    }
    if Load(v, s, digest).Ok? {
      assert PassesNow(v, s, digest, Load(v, s, digest).value);
    }
  }

  /** The files kept for one digest, in order: the release file with that digest, signed under
      a key bound to its identity and not revoked; the record with that digest and the digest
      of the policy it names, which grants the release; every snapshot with the digest that
      the release gives it. */
  ghost predicate InOrder(v: Crypto, s: Store, f: Folder, digest: Digest, a: Approved) {
    && f.release == Some(a.data) && v.hashRelease(a.data) == digest && ValidRelease(v.checks, a.data)
    && IsArtifactId(a.data.identity.id) && a.data.identity.id in s.trusted && s.trusted[a.data.identity.id].Key?
    && s.trusted[a.data.identity.id].fingerprint !in s.revoked
    && f.signature.Some? && v.signed(a.data, f.signature.value, s.trusted[a.data.identity.id].fingerprint)
    && f.approval.Some? && f.approval.value.release == digest
    && f.approval.value.policyPath in s.policies && s.policies[f.approval.value.policyPath] == a.policy
    && v.hashPolicy(a.policy) == f.approval.value.policyDigest && Granted(a.data.agents, a.policy)
    && (forall id :: id in a.data.agents ==>
          id in f.agents && v.checks.hash(f.agents[id]) == a.data.agents[id].sha256)
    && (a.data.workflow.Some? ==>
          f.workflow.Some? && v.checks.hash(f.workflow.value) == a.data.workflow.value.sha256)
  }

  lemma LoadIff(v: Crypto, s: Store, digest: Digest, a: Approved)
    ensures Load(v, s, digest) == Ok(a) <==> digest in s.folders && InOrder(v, s, s.folders[digest], digest, a)
  {
    hide Granted, Walk, IsArtifactId;
    LoadMeans(v, s, digest);
    assert Load(v, s, digest) == Ok(a) <==> PassesNow(v, s, digest, a);
  }

  /** What each reason for distrust says of the keys. */
  ghost predicate DistrustJustified(v: Crypto, s: Store, data: Release, signature: Option<Signature>, e: TrustError) {
    var id := data.identity.id;
    match e
    case BadIdentity => !IsArtifactId(id)
    case NoTrustedKey => id !in s.trusted
    case UnreadableKey => id in s.trusted && s.trusted[id] == Torn
    case RevokedKey => exists key :: key in s.revoked && id in s.trusted && s.trusted[id] == Key(key)
    case Unsigned => signature.None?
    case BadSignature =>
      exists key :: id in s.trusted && s.trusted[id] == Key(key) && signature.Some?
                    && !v.signed(data, signature.value, key)
  }

  /** What each error of a load says of the files kept for the digest. */
  ghost predicate RefusalJustified(v: Crypto, s: Store, f: Folder, digest: Digest, e: LoadError) {
    if e.Unreadable? then f.release.None?
    else
      && f.release.Some?
      && var data := f.release.value;
         match e
         case Untrusted(why) => DistrustJustified(v, s, data, f.signature, why)
         case InvalidRelease => !ValidRelease(v.checks, data)
         case DigestMismatch => v.hashRelease(data) != digest
         case BadRecord => f.approval.Some? ==> f.approval.value.release != digest
         case PolicyUnreadable => f.approval.Some? && f.approval.value.policyPath !in s.policies
         case PolicyChanged =>
           && f.approval.Some? && f.approval.value.policyPath in s.policies
           && v.hashPolicy(s.policies[f.approval.value.policyPath]) != f.approval.value.policyDigest
         case PolicyDenied =>
           && f.approval.Some? && f.approval.value.policyPath in s.policies
           && !Granted(data.agents, s.policies[f.approval.value.policyPath])
         case SnapshotChanged =>
           exists id :: id in data.agents && (id in f.agents ==> v.checks.hash(f.agents[id]) != data.agents[id].sha256)
         case WorkflowChanged =>
           data.workflow.Some? && (f.workflow.Some? ==> v.checks.hash(f.workflow.value) != data.workflow.value.sha256)
  }

  lemma LoadRefusalMeans(v: Crypto, s: Store, digest: Digest)
    requires Load(v, s, digest).Err?
    ensures RefusalJustified(v, s, if digest in s.folders then s.folders[digest] else EMPTY_FOLDER, digest,
                             Load(v, s, digest).error)
  {
    hide Granted, Walk, IsArtifactId, AgentOk, WorkflowOk;
    var f := FolderOf(s, digest);
    if f.release.Some? && TrustFailure(v, s, f.release.value, f.signature).Some? {
      DistrustMeans(v, s, f.release.value, f.signature);
    }
  }

  lemma DistrustMeans(v: Crypto, s: Store, data: Release, signature: Option<Signature>)
    requires TrustFailure(v, s, data, signature).Some?
    ensures DistrustJustified(v, s, data, signature, TrustFailure(v, s, data, signature).value)
  {
    var id := data.identity.id;
    if id in s.trusted && s.trusted[id].Key? {
      assert s.trusted[id] == Key(s.trusted[id].fingerprint);
    }
  }

  /** A load succeeds only for a release that some approval vetted, cleared against a
      policy and then committed, in that order; what is loaded has the digests of what
      was approved, under the approved policy path, and passes every check now. */
  lemma LoadMatchesApproval(v: Crypto, h: seq<Change>, digest: Digest) returns (j: nat, i: nat, k: nat)
    requires Legal(v, h) && Load(v, After(v, h).store, digest).Ok?
    ensures CommittedBy(v, h, j, i, k)
    ensures var t, s, a := h[k].clearance, After(v, h).store, Load(v, After(v, h).store, digest).value;
            && v.hashRelease(a.data) == v.hashRelease(t.data) == digest
               && v.hashPolicy(a.policy) == v.hashPolicy(t.policy)
            && t.path in s.policies && s.policies[t.path] == a.policy
            && PassesNow(v, s, digest, a)
  {
    hide Load, TrustFailure, ValidRelease, Granted, SnapshotsIntact, WorkflowIntact, After, Legal, FolderOf,
         CommittedBy;
    LoadMeans(v, After(v, h).store, digest);
    k := RecordCommitted(v, h, digest);
    j, i := CommitHasApproval(v, h, k);
  }

  /** Without collisions between the two releases and the two policies, what is loaded
      is what was approved. */
  lemma LoadIsApproved(v: Crypto, h: seq<Change>, digest: Digest)
    requires Legal(v, h) && Load(v, After(v, h).store, digest).Ok?
    requires forall x, y :: v.hashRelease(x) == v.hashRelease(y) ==> x == y
    requires forall x, y :: v.hashPolicy(x) == v.hashPolicy(y) ==> x == y
    ensures exists k :: 0 <= k < |h| && h[k].Commit? &&
              var a := Load(v, After(v, h).store, digest).value;
              a.data == h[k].clearance.data && a.policy == h[k].clearance.policy
  {
    hide Load, After, Legal, PassesNow;
    var j, i, k := LoadMatchesApproval(v, h, digest);
  }

  // ----- trust and revocation only grow

  ghost predicate TrustWithin(s: Store, next: Store) {
    && s.revoked <= next.revoked
    && forall id :: id in s.trusted ==> id in next.trusted && next.trusted[id] == s.trusted[id]
  }

  lemma TrustStep(v: Crypto, m: System, c: Change)
    requires Enabled(v, m, c)
    ensures TrustWithin(m.store, Apply(v, m, c).store)
  {
    hide TrustFailure, ValidRelease, Granted, FolderOf, Written;
  }

  /** Bindings are never replaced or dropped and revocations never withdrawn. */
  lemma {:induction false} TrustGrows(v: Crypto, h: seq<Change>, k: nat)
    requires Legal(v, h) && k <= |h|
    ensures TrustWithin(After(v, h[..k]).store, After(v, h).store)
    decreases |h|
  {
    hide Enabled, Apply;
    if k == |h| {
      assert h[..k] == h;
    } else {
      TrustGrows(v, h[..|h| - 1], k);
      TrustStep(v, After(v, h[..|h| - 1]), h[|h| - 1]);
      assert h[..|h| - 1][..k] == h[..k];
    }
  }

  /** After a revocation no release of any identifier bound to that key ever loads
      again, whatever is approved, edited or trusted afterwards, and whether the
      identifier was bound before the revocation or after it. */
  lemma RevokedForever(v: Crypto, h: seq<Change>, k: nat, digest: Digest)
    requires Legal(v, h) && k < |h| && h[k].Revoke? && Load(v, After(v, h).store, digest).Ok?
    ensures var s, end := After(v, h[..k]).store, After(v, h).store;
            && h[k].id in s.trusted && s.trusted[h[k].id].Key?
            && var id := Load(v, end, digest).value.data.identity.id;
               id != h[k].id && id in end.trusted && end.trusted[id] != s.trusted[h[k].id]
  {
    hide Load, ValidRelease, Granted, SnapshotsIntact, WorkflowIntact, After, Legal;
    LegalPrefix(v, h, k);
    LegalPrefix(v, h, k + 1);
    TrustGrows(v, h, k);
    TrustGrows(v, h, k + 1);
    RevokeStep(v, h, k);
    LoadMeans(v, After(v, h).store, digest);
  }

  lemma RevokeStep(v: Crypto, h: seq<Change>, k: nat)
    requires Legal(v, h) && k < |h| && h[k].Revoke?
    ensures After(v, h[..k + 1]) == Apply(v, After(v, h[..k]), h[k])
  {
    assert h[..k + 1][..k] == h[..k];
  }

  /** A key file torn while it was written blocks its identifier for good. */
  lemma TornKeyBlocks(v: Crypto, h: seq<Change>, k: nat, digest: Digest)
    requires Legal(v, h) && k < |h| && h[k].Bind? && h[k].file.Torn? && Load(v, After(v, h).store, digest).Ok?
    ensures Load(v, After(v, h).store, digest).value.data.identity.id != h[k].id
  {
    hide Load, ValidRelease, Granted, SnapshotsIntact, WorkflowIntact, Legal;
    TrustGrows(v, h, k + 1);
    assert h[..k + 1][..k] == h[..k];
    LoadMeans(v, After(v, h).store, digest);
  }

  // ----- the script's approval is one of these histories

  function ChangeOf(digest: Digest, t: Clearance, w: Write): Change {
    if w.WriteRecord? then Commit(digest, t) else Change.Step(digest, w)
  }

  /** The changes an approval of `q` makes when it stops after `n` writes. */
  function Changes(v: Crypto, q: Request, policy: OperatorPolicy, n: nat): (h: seq<Change>)
    requires Elems(q.order) <= q.data.agents.Keys && n <= |ApprovalWrites(v, q, policy)|
    ensures |h| == n + 2
  {
    var t := Clearance(q.data, q.policyPath, policy);
    if n == 0 then [Vet(q.data, q.signature), Clear(t)]
    else Changes(v, q, policy, n - 1) + [ChangeOf(v.hashRelease(q.data), t, ApprovalWrites(v, q, policy)[n - 1])]
  }

  lemma AfterSnoc(v: Crypto, h: seq<Change>, c: Change)
    ensures After(v, h + [c]) == Apply(v, After(v, h), c)
    ensures Legal(v, h) && Enabled(v, After(v, h), c) ==> Legal(v, h + [c])
  {
    assert (h + [c])[..|h|] == h;
  }

  lemma ChecksEnabled(v: Crypto, h: seq<Change>, q: Request)
    requires Legal(v, h) && Approvable(v, After(v, h).store, q)
    ensures var t := Clearance(q.data, q.policyPath, After(v, h).store.policies[q.policyPath]);
            var more := h + [Vet(q.data, q.signature), Clear(t)];
            Legal(v, more) && After(v, more).store == After(v, h).store && t in After(v, more).cleared
  {
    hide TrustFailure, ValidRelease, Granted, Legal, After;
    var s := After(v, h).store;
    var t := Clearance(q.data, q.policyPath, s.policies[q.policyPath]);
    AfterSnoc(v, h, Vet(q.data, q.signature));
    AfterSnoc(v, h + [Vet(q.data, q.signature)], Clear(t));
    assert h + [Vet(q.data, q.signature), Clear(t)] == h + [Vet(q.data, q.signature)] + [Clear(t)];
  }

  lemma WriteKind(v: Crypto, q: Request, policy: OperatorPolicy, n: nat)
    requires WellFormed(q) && n < |ApprovalWrites(v, q, policy)|
    ensures ApprovalWrites(v, q, policy)[n].WriteRecord? ==>
              ApprovalWrites(v, q, policy)[n].record == RecordOf(v, Clearance(q.data, q.policyPath, policy))
  {
  }

  /** Every run of the approval method, stopped after any number of writes, is a legal
      history from any reachable state, and leaves the folder the method leaves. */
  lemma {:induction false} ApproveIsAHistory(v: Crypto, h: seq<Change>, q: Request, n: nat)
    requires Legal(v, h) && WellFormed(q) && Approvable(v, After(v, h).store, q)
    requires n <= |ApprovalWrites(v, q, After(v, h).store.policies[q.policyPath])|
    ensures var s, digest := After(v, h).store, v.hashRelease(q.data);
            var policy := s.policies[q.policyPath];
            var more := h + Changes(v, q, policy, n);
            && Legal(v, more)
            && Clearance(q.data, q.policyPath, policy) in After(v, more).cleared
            && FolderOf(After(v, more).store, digest)
               == WrittenAll(FolderOf(s, digest), ApprovalWrites(v, q, policy)[..n])
            && (n > 0 ==> After(v, more).store == PutFolder(s, digest, FolderOf(After(v, more).store, digest)))
            && (n == 0 ==> After(v, more).store == s)
  {
    hide ValidRelease, Granted, TrustFailure, ApprovalWrites, Legal, After, Written;
    var s, digest := After(v, h).store, v.hashRelease(q.data);
    var policy := s.policies[q.policyPath];
    var t := Clearance(q.data, q.policyPath, policy);
    if n == 0 {
      ChecksEnabled(v, h, q);
    } else {
      ApproveIsAHistory(v, h, q, n - 1);
      var w := ApprovalWrites(v, q, policy)[n - 1];
      var before := h + Changes(v, q, policy, n - 1);
      WriteKind(v, q, policy, n - 1);
      AfterSnoc(v, before, ChangeOf(digest, t, w));
      assert h + Changes(v, q, policy, n) == before + [ChangeOf(digest, t, w)];
      assert ApprovalWrites(v, q, policy)[..n][..n - 1] == ApprovalWrites(v, q, policy)[..n - 1];
    }
  }

  /** From every reachable state an approval that passes its checks and is not disturbed
      leads to a state in which the release loads, with the policy just approved. */
  lemma ApprovedHistoryLoads(v: Crypto, h: seq<Change>, q: Request) returns (more: seq<Change>)
    requires Legal(v, h) && WellFormed(q) && Approvable(v, After(v, h).store, q) && q.reread == q.signature
    ensures Legal(v, h + more)
    ensures Load(v, After(v, h + more).store, v.hashRelease(q.data))
            == Ok(Approved(q.data, After(v, h).store.policies[q.policyPath]))
  {
    hide Legal, After, Load, ApprovalWrites, WrittenAll;
    var s, digest := After(v, h).store, v.hashRelease(q.data);
    var policy := s.policies[q.policyPath];
    var ws := ApprovalWrites(v, q, policy);
    more := Changes(v, q, policy, |ws|);
    ApproveIsAHistory(v, h, q, |ws|);
    WritesSomething(v, q, policy);
    assert ws[..|ws|] == ws;
    ApprovalLoads(v, s, q);
  }

  lemma WritesSomething(v: Crypto, q: Request, policy: OperatorPolicy)
    requires WellFormed(q)
    ensures |ApprovalWrites(v, q, policy)| > 0
  {
  }
}
