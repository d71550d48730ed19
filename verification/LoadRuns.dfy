/** A load whose file reads are interleaved with approvals, edits and revocations. */
module LoadRuns {
  import opened Wrappers
  import opened Graphs
  import opened WorkflowDag
  import opened Manifests
  import opened Releases
  import opened Policy
  import opened Approval
  import opened ApprovalRuns

  /** The state of the store that each read of one load sees. */
  datatype Views = Views(release: Store, key: Store, revocations: Store, signature: Store, record: Store,
                         policy: Store, snapshot: Id -> Store, workflow: Store)

  /** Why the signer is not authorized, as the reads see it. */
  function TrustSeen(v: Crypto, views: Views, data: Release, digest: Digest): Option<TrustError> {
    var id, signature := data.identity.id, FolderOf(views.signature, digest).signature;
    if !IsArtifactId(id) then Some(BadIdentity)
    else if id !in views.key.trusted then Some(NoTrustedKey)
    else if views.key.trusted[id].Torn? then Some(UnreadableKey)
    else if views.key.trusted[id].fingerprint in views.revocations.revoked then Some(RevokedKey)
    else if signature.None? then Some(Unsigned)
    else if !v.signed(data, signature.value, views.key.trusted[id].fingerprint) then Some(BadSignature)
    else None
  }

  predicate SnapshotsSeen(v: Crypto, views: Views, data: Release, digest: Digest) {
    forall id :: id in data.agents ==> SnapshotIntact(v, FolderOf(views.snapshot(id), digest), data, id)
  }

  /** The load, every read at its own time. */
  ghost function LoadSeen(v: Crypto, views: Views, digest: Digest): Result<Approved, LoadError> {
    var release, record := FolderOf(views.release, digest).release, FolderOf(views.record, digest).approval;
    if release.None? then Err(Unreadable)
    else
      var data := release.value;
      var distrust := TrustSeen(v, views, data, digest);
      if distrust.Some? then Err(Untrusted(distrust.value))
      else if !ValidRelease(v.checks, data) then Err(InvalidRelease)
      else if v.hashRelease(data) != digest then Err(LoadError.DigestMismatch)
      else if record.None? || record.value.release != digest then Err(BadRecord)
      else if record.value.policyPath !in views.policy.policies then Err(PolicyUnreadable)
      else
        var policy := views.policy.policies[record.value.policyPath];
        if v.hashPolicy(policy) != record.value.policyDigest then Err(PolicyChanged)
        else if !Granted(data.agents, policy) then Err(PolicyDenied)
        else if !SnapshotsSeen(v, views, data, digest) then Err(SnapshotChanged)
        else if !WorkflowIntact(v, FolderOf(views.workflow, digest), data) then Err(WorkflowChanged)
        else Ok(Approved(data, policy))
  }

  /** Undisturbed, it is the load method's result. */
  lemma UndisturbedIsLoad(v: Crypto, s: Store, digest: Digest)
    ensures LoadSeen(v, Views(s, s, s, s, s, s, id => s, s), digest) == Load(v, s, digest)
  {
    hide ValidRelease, Granted, SnapshotIntact, WorkflowIntact;
  }

  /** When, in a history, the reads of one load happen. */
  datatype Times = Times(release: nat, key: nat, revocations: nat, signature: nat, record: nat, policy: nat,
                         snapshot: Id -> nat, workflow: nat)

  /** The program's order; the snapshots are read one by one between policy and workflow. */
  ghost predicate InOrder(t: Times, start: nat, end: nat) {
    && start <= t.release <= t.key <= t.revocations <= t.signature <= t.record <= t.policy <= t.workflow <= end
    && forall id :: t.policy <= t.snapshot(id) <= t.workflow
  }

  ghost function StoreAt(v: Crypto, h: seq<Change>, time: nat): Store {
    if time <= |h| then After(v, h[..time]).store else After(v, h).store
  }

  ghost function Seen(v: Crypto, h: seq<Change>, t: Times): Views {
    Views(StoreAt(v, h, t.release), StoreAt(v, h, t.key), StoreAt(v, h, t.revocations), StoreAt(v, h, t.signature),
          StoreAt(v, h, t.record), StoreAt(v, h, t.policy), id => StoreAt(v, h, t.snapshot(id)),
          StoreAt(v, h, t.workflow))
  }

  /** Trust only grows between any two moments of a history. */
  lemma GrowsBetween(v: Crypto, h: seq<Change>, a: nat, b: nat)
    requires Legal(v, h) && a <= b <= |h|
    ensures TrustWithin(StoreAt(v, h, a), StoreAt(v, h, b))
  {
    hide Legal, After, TrustWithin;
    LegalPrefix(v, h, b);
    TrustGrows(v, h[..b], a);
    assert h[..b][..a] == h[..a];
  }

  /** What a successful load has seen. */
  ghost predicate PassedSeen(v: Crypto, views: Views, digest: Digest, a: Approved, record: Record) {
    && FolderOf(views.release, digest).release == Some(a.data) && digest == v.hashRelease(a.data)
    && FolderOf(views.record, digest).approval == Some(record)
    && record == Record(digest, record.policyPath, v.hashPolicy(a.policy))
    && record.policyPath in views.policy.policies && views.policy.policies[record.policyPath] == a.policy
    && TrustSeen(v, views, a.data, digest).None? && ValidRelease(v.checks, a.data) && Granted(a.data.agents, a.policy)
    && SnapshotsSeen(v, views, a.data, digest) && WorkflowIntact(v, FolderOf(views.workflow, digest), a.data)
  }

  lemma SeenMeans(v: Crypto, views: Views, digest: Digest) returns (record: Record)
    requires LoadSeen(v, views, digest).Ok?
    ensures PassedSeen(v, views, digest, LoadSeen(v, views, digest).value, record)
  {
    hide ValidRelease, Granted, SnapshotsSeen, WorkflowIntact, TrustSeen;
    record := FolderOf(views.record, digest).approval.value;
  }

  /** However its reads interleave with other changes, a successful load goes back to an
      approval committed before it read the record, with the digests of what it returns. */
  lemma InterleavedLoadMatches(v: Crypto, h: seq<Change>, t: Times, start: nat, digest: Digest)
    returns (j: nat, i: nat, k: nat, record: Record)
    requires Legal(v, h) && InOrder(t, start, |h|) && LoadSeen(v, Seen(v, h, t), digest).Ok?
    ensures CommittedBy(v, h, j, i, k) && k < t.record && h[k].digest == digest && record == RecordOf(v, h[k].clearance)
    ensures var a, c := LoadSeen(v, Seen(v, h, t), digest).value, h[k].clearance;
            && v.hashRelease(a.data) == v.hashRelease(c.data) == digest
               && v.hashPolicy(a.policy) == v.hashPolicy(c.policy)
            && PassedSeen(v, Seen(v, h, t), digest, a, record)
  {
    hide LoadSeen, Legal, After, FolderOf, CommittedBy, ValidRelease, Granted, SnapshotsSeen, WorkflowIntact, TrustSeen;
    record := SeenMeans(v, Seen(v, h, t), digest);
    LegalPrefix(v, h, t.record);
    k := RecordCommitted(v, h[..t.record], digest);
    assert h[..t.record][k] == h[k];
    j, i := CommitHasApproval(v, h, k);
  }

  lemma SignerSeen(v: Crypto, views: Views, data: Release, digest: Digest)
    requires TrustSeen(v, views, data, digest).None?
    ensures var id := data.identity.id;
            && id in views.key.trusted && views.key.trusted[id].Key?
            && views.key.trusted[id].fingerprint !in views.revocations.revoked
  {
  }

  /** Nothing revoked before a load began is returned, however its reads interleave with
      other changes: the returned identifier stays bound to a key that was not revoked then. */
  lemma RevokedBeforeLoad(v: Crypto, h: seq<Change>, t: Times, start: nat, digest: Digest)
    requires Legal(v, h) && InOrder(t, start, |h|) && LoadSeen(v, Seen(v, h, t), digest).Ok?
    ensures var id, end := LoadSeen(v, Seen(v, h, t), digest).value.data.identity.id, After(v, h).store;
            && id in end.trusted && end.trusted[id].Key?
            && end.trusted[id].fingerprint !in After(v, h[..start]).store.revoked
  {
    hide LoadSeen, Legal, After, FolderOf, ValidRelease, Granted, SnapshotsSeen, WorkflowIntact, TrustSeen;
    var record := SeenMeans(v, Seen(v, h, t), digest);
    SignerSeen(v, Seen(v, h, t), LoadSeen(v, Seen(v, h, t), digest).value.data, digest);
    GrowsBetween(v, h, start, t.revocations);
    GrowsBetween(v, h, t.key, |h|);
    assert h[..|h|] == h;
  }

  /** In terms of revocations: none of a key that the returned identifier is or ever will be
      bound to had happened when the load began. */
  lemma InterleavedRevocation(v: Crypto, h: seq<Change>, t: Times, start: nat, k: nat, digest: Digest)
    requires Legal(v, h) && InOrder(t, start, |h|) && LoadSeen(v, Seen(v, h, t), digest).Ok?
    requires k < start && h[k].Revoke?
    ensures var s, end := After(v, h[..k]).store, After(v, h).store;
            && h[k].id in s.trusted && s.trusted[h[k].id].Key?
            && var id := LoadSeen(v, Seen(v, h, t), digest).value.data.identity.id;
               id != h[k].id && id in end.trusted && end.trusted[id] != s.trusted[h[k].id]
  {
    hide LoadSeen, Legal, After, Seen, InOrder;
    RevokedBeforeLoad(v, h, t, start, digest);
    OrderBounds(t, start, |h|);
    LegalPrefix(v, h, k);
    RevokeStep(v, h, k);
    GrowsBetween(v, h, k + 1, start);
    GrowsBetween(v, h, k, |h|);
    assert h[..|h|] == h;
  }

  lemma OrderBounds(t: Times, start: nat, end: nat)
    requires InOrder(t, start, end)
    ensures start <= end
  {
  }
}
