/** Approving a release: signer trust, revocation, and a store in which the approval
    record is the commit marker and every load checks everything again. */
module Approval {
  import opened Wrappers
  import opened Graphs
  import opened WorkflowDag
  import opened Manifests
  import opened Releases
  import opened Policy

  type Fingerprint = string
  type Path = string
  type Signature = string

  /** A key file is torn when its writer stopped between creating and filling it. */
  datatype KeyFile = Key(fingerprint: Fingerprint) | Torn

  datatype Record = Record(release: Digest, policyPath: Path, policyDigest: Digest)

  /** The files kept for one release digest; None is absent or unreadable. */
  datatype Folder = Folder(agents: map<Id, Artifact>, workflow: Option<Artifact>, release: Option<Release>,
                           signature: Option<Signature>, approval: Option<Record>)

  datatype Store = Store(trusted: map<Id, KeyFile>, revoked: set<Fingerprint>, policies: map<Path, OperatorPolicy>,
                         folders: map<Digest, Folder>)

  datatype Crypto = Crypto(
    checks: Checks,
    hashRelease: Release -> Digest,
    hashPolicy: OperatorPolicy -> Digest,
    signed: (Release, Signature, Fingerprint) -> bool)

  datatype Approved = Approved(data: Release, policy: OperatorPolicy)

  datatype TrustError = BadIdentity | NoTrustedKey | UnreadableKey | RevokedKey | Unsigned | BadSignature

  datatype LoadError = Unreadable | Untrusted(error: TrustError) | InvalidRelease | DigestMismatch | BadRecord
                     | PolicyUnreadable | PolicyChanged | PolicyDenied | SnapshotChanged | WorkflowChanged

  const EMPTY_FOLDER := Folder(map[], None, None, None, None)
  const EMPTY_STORE := Store(map[], {}, map[], map[])

  function FolderOf(s: Store, digest: Digest): Folder {
    if digest in s.folders then s.folders[digest] else EMPTY_FOLDER
  }

  // ----- trust

  /** Why data and signature are not authorized by the key approved for the identity. */
  function TrustFailure(v: Crypto, s: Store, data: Release, signature: Option<Signature>): Option<TrustError> {
    var id := data.identity.id;
    if !IsArtifactId(id) then Some(BadIdentity)
    else if id !in s.trusted then Some(NoTrustedKey)
    else if s.trusted[id].Torn? then Some(UnreadableKey)
    else if s.trusted[id].fingerprint in s.revoked then Some(RevokedKey)
    else if signature.None? then Some(Unsigned)
    else if !v.signed(data, signature.value, s.trusted[id].fingerprint) then Some(BadSignature)
    else None
  }

  // ----- loading

  predicate SnapshotsIntact(v: Crypto, f: Folder, data: Release) {
    forall id :: id in data.agents ==> SnapshotIntact(v, f, data, id)
  }

  predicate SnapshotIntact(v: Crypto, f: Folder, data: Release, id: Id)
    requires id in data.agents
  {
    id in f.agents && v.checks.hash(f.agents[id]) == data.agents[id].sha256
  }

  predicate WorkflowIntact(v: Crypto, f: Folder, data: Release) {
    data.entry.kind.WorkflowKind? ==>
      f.workflow.Some? && data.workflow.Some? && v.checks.hash(f.workflow.value) == data.workflow.value.sha256
  }

  /** The checks of a load, in their order. */
  ghost function Load(v: Crypto, s: Store, digest: Digest): Result<Approved, LoadError> {
    var f := FolderOf(s, digest);
    if f.release.None? then Err(Unreadable)
    else
      var data := f.release.value;
      var distrust := TrustFailure(v, s, data, f.signature);
      if distrust.Some? then Err(Untrusted(distrust.value))
      else if !ValidRelease(v.checks, data) then Err(InvalidRelease)
      else if v.hashRelease(data) != digest then Err(LoadError.DigestMismatch)
      else if f.approval.None? || f.approval.value.release != digest then Err(BadRecord)
      else if f.approval.value.policyPath !in s.policies then Err(PolicyUnreadable)
      else
        var policy := s.policies[f.approval.value.policyPath];
        if v.hashPolicy(policy) != f.approval.value.policyDigest then Err(PolicyChanged)
        else if !Granted(data.agents, policy) then Err(PolicyDenied)
        else if !SnapshotsIntact(v, f, data) then Err(SnapshotChanged)
        else if !WorkflowIntact(v, f, data) then Err(WorkflowChanged)
        else Ok(Approved(data, policy))
  }

  // ----- approving

  datatype Write = WriteAgent(id: Id, file: Artifact) | WriteWorkflow(file: Artifact) | WriteRelease(data: Release)
                 | WriteSignature(signature: Option<Signature>) | WriteRecord(record: Record)

  function Written(f: Folder, w: Write): Folder {
    match w
    case WriteAgent(id, file) => f.(agents := f.agents[id := file])
    case WriteWorkflow(file) => f.(workflow := Some(file))
    case WriteRelease(data) => f.(release := Some(data))
    case WriteSignature(signature) => f.(signature := signature)
    case WriteRecord(record) => f.(approval := Some(record))
  }

  function WrittenAll(f: Folder, ws: seq<Write>): Folder {
    if ws == [] then f else Written(WrittenAll(f, ws[..|ws| - 1]), ws[|ws| - 1])
  }

  /** One approval: the release file, its signature as first read and as read again for
      the copy, the policy path, and the order in which the file lists its agents. */
  datatype Request = Request(data: Release, signature: Option<Signature>, reread: Option<Signature>, policyPath: Path,
                             order: seq<Id>)

  ghost predicate WellFormed(q: Request) {
    Elems(q.order) == q.data.agents.Keys
  }

  function AgentWrites(q: Request): (ws: seq<Write>)
    requires Elems(q.order) <= q.data.agents.Keys
    ensures |ws| == |q.order|
  {
    seq(|q.order|, i requires 0 <= i < |q.order| =>
      assert q.order[i] in Elems(q.order); WriteAgent(q.order[i], AgentArtifact(q.data.agents[q.order[i]].manifest)))
  }

  function WorkflowWrites(q: Request): seq<Write> {
    if q.data.entry.kind.WorkflowKind? && q.data.workflow.Some?
    then [WriteWorkflow(WorkflowArtifact(q.data.workflow.value.manifest))] else []
  }

  /** Everything an approval writes; the record comes last. */
  function ApprovalWrites(v: Crypto, q: Request, policy: OperatorPolicy): seq<Write>
    requires Elems(q.order) <= q.data.agents.Keys
  {
    AgentWrites(q) + WorkflowWrites(q)
    + [WriteRelease(q.data), WriteSignature(q.reread),
       WriteRecord(Record(v.hashRelease(q.data), q.policyPath, v.hashPolicy(policy)))]
  }

  ghost predicate Approvable(v: Crypto, s: Store, q: Request) {
    && TrustFailure(v, s, q.data, q.signature).None? && ValidRelease(v.checks, q.data)
    && q.policyPath in s.policies && Granted(q.data.agents, s.policies[q.policyPath])
  }

  function PutFolder(s: Store, digest: Digest, f: Folder): Store {
    s.(folders := s.folders[digest := f])
  }

  // ----- the store as the program keeps it

  class ReleaseStore {
    const crypto: Crypto
    var trusted: map<Id, KeyFile>
    var revoked: set<Fingerprint>
    var policies: map<Path, OperatorPolicy>
    var folders: map<Digest, Folder>

    constructor (crypto: Crypto)
      ensures this.crypto == crypto && Contents() == EMPTY_STORE
    {
      this.crypto := crypto;
      trusted, revoked, policies, folders := map[], {}, map[], map[];
    }

    function Contents(): Store
      reads this
    {
      Store(trusted, revoked, policies, folders)
    }

    /** Binds a key to an identifier once; `crash` stops it while the file is written. */
    method TrustKey(id: Id, fingerprint: Fingerprint, crash: bool) returns (ok: bool)
      modifies this`trusted
      ensures trusted == if IsArtifactId(id) && fingerprint !in revoked && id !in old(trusted)
                         then old(trusted)[id := if crash then Torn else Key(fingerprint)] else old(trusted)
      ensures ok ==> id in trusted && trusted[id] == Key(fingerprint) && fingerprint !in revoked
      ensures ok <== && !crash && IsArtifactId(id) && fingerprint !in revoked
                     && (id in old(trusted) ==> old(trusted)[id] == Key(fingerprint))
    {
      if !IsArtifactId(id) || fingerprint in revoked {
        return false;
      }
      if id in trusted {
        return trusted[id] == Key(fingerprint);
      }
      trusted := trusted[id := Torn];
      if crash {
        return false;
      }
      trusted := trusted[id := Key(fingerprint)];
      return true;
    }

    method RevokeKey(id: Id) returns (done: bool)
      modifies this`revoked
      ensures done <==> id in trusted && trusted[id].Key?
      ensures revoked == old(revoked) + if done then {trusted[id].fingerprint} else {}
    {
      done := id in trusted && trusted[id].Key?;
      if done {
        revoked := revoked + {trusted[id].fingerprint};
      }
    }

    method LoadApproved(digest: Digest) returns (r: Result<Approved, LoadError>)
      ensures r == Load(crypto, Contents(), digest)
    {
      var f := FolderOf(Contents(), digest);
      if f.release.None? {
        return Err(Unreadable);
      }
      var data := f.release.value;
      var distrust := TrustFailure(crypto, Contents(), data, f.signature);
      if distrust.Some? {
        return Err(Untrusted(distrust.value));
      }
      var invalid := ValidateRelease(crypto.checks, data);
      if invalid.Some? {
        return Err(InvalidRelease);
      }
      if crypto.hashRelease(data) != digest {
        return Err(LoadError.DigestMismatch);
      }
      if f.approval.None? || f.approval.value.release != digest {
        return Err(BadRecord);
      }
      if f.approval.value.policyPath !in policies {
        return Err(PolicyUnreadable);
      }
      var policy := policies[f.approval.value.policyPath];
      if crypto.hashPolicy(policy) != f.approval.value.policyDigest {
        return Err(PolicyChanged);
      }
      var granted := CheckPolicy(data.agents, policy);
      if granted.Err? {
        return Err(PolicyDenied);
      }
      var intact := CheckSnapshots(f, data);
      if !intact {
        return Err(SnapshotChanged);
      }
      if !WorkflowIntact(crypto, f, data) {
        return Err(WorkflowChanged);
      }
      return Ok(Approved(data, policy));
    }

    method CheckSnapshots(f: Folder, data: Release) returns (intact: bool)
      ensures intact <==> SnapshotsIntact(crypto, f, data)
    {
      var todo := data.agents.Keys;
      while todo != {}
        invariant todo <= data.agents.Keys
        invariant forall id :: id in data.agents.Keys - todo ==> SnapshotIntact(crypto, f, data, id)
      {
        var id :| id in todo;
        if !SnapshotIntact(crypto, f, data, id) {
          return false;
        }
        todo := todo - {id};
      }
      return true;
    }

    /** Replace one file of a release folder. */
    method AtomicWrite(digest: Digest, w: Write)
      modifies this`folders
      ensures Contents() == PutFolder(old(Contents()), digest, Written(FolderOf(old(Contents()), digest), w))
    {
      folders := folders[digest := Written(FolderOf(Contents(), digest), w)];
    }

    /** Write files in order until the process stops. */
    method WriteAll(digest: Digest, writes: seq<Write>, crash: nat) returns (done: bool)
      modifies this`folders
      ensures done <==> crash >= |writes|
      ensures digest in folders && folders == old(folders)[digest := folders[digest]]
      ensures folders[digest] == WrittenAll(FolderOf(old(Contents()), digest), if done then writes else writes[..crash])
    {
      ghost var before := FolderOf(Contents(), digest);
      folders := folders[digest := FolderOf(Contents(), digest)];
      var n := 0;
      while n < |writes|
        invariant n <= |writes| && n <= crash
        invariant digest in folders && folders[digest] == WrittenAll(before, writes[..n])
        invariant folders == old(folders)[digest := folders[digest]]
      {
        if n == crash {
          return false;
        }
        AtomicWrite(digest, writes[n]);
        assert writes[..n + 1][..n] == writes[..n];
        n := n + 1;
      }
      assert writes[..n] == writes;
      return true;
    }

    /** Approve a release; `crash` files are written before the process stops. */
    method Approve(q: Request, crash: nat) returns (r: Option<Digest>)
      requires WellFormed(q)
      modifies this`folders
      ensures !old(Approvable(crypto, Contents(), q)) ==> r.None? && folders == old(folders)
      ensures old(Approvable(crypto, Contents(), q)) ==>
                var digest, ws := crypto.hashRelease(q.data), ApprovalWrites(crypto, q, policies[q.policyPath]);
                var written := if crash < |ws| then ws[..crash] else ws;
                && folders == old(folders)[digest := WrittenAll(FolderOf(old(Contents()), digest), written)]
                && r == if crash >= |ws| && Load(crypto, Contents(), digest).Ok? then Some(digest) else None
    {
      hide ValidRelease, Granted, Load, TrustFailure, ApprovalWrites, WrittenAll, FolderOf;
      if TrustFailure(crypto, Contents(), q.data, q.signature).Some? {
        return None;
      }
      var invalid := ValidateRelease(crypto.checks, q.data);
      if invalid.Some? || q.policyPath !in policies {
        return None;
      }
      var policy := policies[q.policyPath];
      var granted := CheckPolicy(q.data.agents, policy);
      if granted.Err? {
        return None;
      }
      var digest := crypto.hashRelease(q.data);
      var done := WriteAll(digest, ApprovalWrites(crypto, q, policy), crash);
      if !done {
        return None;
      }
      var loaded := LoadApproved(digest);
      return if loaded.Ok? then Some(digest) else None;
    }
  }

  // ----- approvals that nothing disturbs, and their partial writes

  datatype Part = AgentPart(id: Id) | WorkflowPart | ReleasePart | SignaturePart | RecordPart

  function PartOf(w: Write): Part {
    match w
    case WriteAgent(id, _) => AgentPart(id)
    case WriteWorkflow(_) => WorkflowPart
    case WriteRelease(_) => ReleasePart
    case WriteSignature(_) => SignaturePart
    case WriteRecord(_) => RecordPart
  }

  function ProperRecord(v: Crypto, q: Request, policy: OperatorPolicy): Record {
    Record(v.hashRelease(q.data), q.policyPath, v.hashPolicy(policy))
  }

  predicate ProperSignature(v: Crypto, q: Request, key: Fingerprint, signature: Option<Signature>) {
    signature.Some? && v.signed(q.data, signature.value, key)
  }

  /** A part of the folder is what this approval would write. */
  predicate PartOk(v: Crypto, q: Request, policy: OperatorPolicy, key: Fingerprint, f: Folder, part: Part) {
    match part
    case AgentPart(id) => id in q.data.agents ==> SnapshotIntact(v, f, q.data, id)
    case WorkflowPart => WorkflowIntact(v, f, q.data)
    case ReleasePart => f.release == Some(q.data)
    case SignaturePart => ProperSignature(v, q, key, f.signature)
    case RecordPart => f.approval == Some(ProperRecord(v, q, policy))
  }

  /** A write that leaves its part as this approval would. */
  predicate GoodWrite(v: Crypto, q: Request, policy: OperatorPolicy, key: Fingerprint, w: Write) {
    PartOk(v, q, policy, key, Written(EMPTY_FOLDER, w), PartOf(w))
  }

  lemma OneWrite(v: Crypto, q: Request, policy: OperatorPolicy, key: Fingerprint, f: Folder, w: Write, part: Part)
    requires GoodWrite(v, q, policy, key, w)
    requires PartOk(v, q, policy, key, f, part) || PartOf(w) == part
    ensures PartOk(v, q, policy, key, Written(f, w), part)
  {
  }

  ghost predicate AllGood(v: Crypto, q: Request, policy: OperatorPolicy, key: Fingerprint, ws: seq<Write>) {
    forall i :: 0 <= i < |ws| ==> GoodWrite(v, q, policy, key, ws[i])
  }

  /** Good writes keep the parts that are right and make those they touch right. */
  lemma {:induction false} Writes(v: Crypto, q: Request, policy: OperatorPolicy, key: Fingerprint, f: Folder,
                                  ws: seq<Write>, part: Part)
    requires AllGood(v, q, policy, key, ws)
    requires PartOk(v, q, policy, key, f, part) || exists i :: 0 <= i < |ws| && PartOf(ws[i]) == part
    ensures PartOk(v, q, policy, key, WrittenAll(f, ws), part)
    decreases |ws|
  {
    hide PartOk, GoodWrite, Written, PartOf;
    if ws != [] {
      var before, last := ws[..|ws| - 1], ws[|ws| - 1];
      if PartOf(last) != part {
        if !PartOk(v, q, policy, key, f, part) {
          var i :| 0 <= i < |ws| && PartOf(ws[i]) == part;
          assert before[i] == ws[i];
        }
        Writes(v, q, policy, key, f, before, part);
      }
      OneWrite(v, q, policy, key, WrittenAll(f, before), last, part);
    }
  }

  lemma {:induction false} RecordUntouched(f: Folder, ws: seq<Write>)
    requires forall w :: w in ws ==> !w.WriteRecord?
    ensures WrittenAll(f, ws).approval == f.approval
    decreases |ws|
  {
    if ws != [] {
      RecordUntouched(f, ws[..|ws| - 1]);
    }
  }

  lemma AgentWriteGood(v: Crypto, q: Request, policy: OperatorPolicy, key: Fingerprint, i: nat)
    requires ValidRelease(v.checks, q.data) && WellFormed(q) && i < |q.order|
    ensures GoodWrite(v, q, policy, key, AgentWrites(q)[i])
  {
    var id := q.order[i];
    assert id in Elems(q.order);
    assert AgentOk(v.checks, id, q.data.agents[id]);
  }

  lemma WorkflowWriteGood(v: Crypto, q: Request, policy: OperatorPolicy, key: Fingerprint)
    requires ValidRelease(v.checks, q.data)
    ensures forall w :: w in WorkflowWrites(q) ==> GoodWrite(v, q, policy, key, w)
    ensures q.data.entry.kind.WorkflowKind? ==> |WorkflowWrites(q)| == 1 && PartOf(WorkflowWrites(q)[0]) == WorkflowPart
  {
    assert EntryOk(v.checks, q.data);
  }

  lemma LastWritesGood(v: Crypto, q: Request, policy: OperatorPolicy, key: Fingerprint)
    requires ProperSignature(v, q, key, q.reread)
    ensures GoodWrite(v, q, policy, key, WriteRelease(q.data)) && GoodWrite(v, q, policy, key, WriteSignature(q.reread))
    ensures GoodWrite(v, q, policy, key, WriteRecord(ProperRecord(v, q, policy)))
  {
  }

  lemma AllWritesGood(v: Crypto, q: Request, policy: OperatorPolicy, key: Fingerprint)
    requires ValidRelease(v.checks, q.data) && WellFormed(q) && ProperSignature(v, q, key, q.reread)
    ensures AllGood(v, q, policy, key, ApprovalWrites(v, q, policy))
  {
    hide ValidRelease, GoodWrite, AgentWrites, WorkflowWrites, ProperSignature;
    var ws, a, b := ApprovalWrites(v, q, policy), AgentWrites(q), WorkflowWrites(q);
    WorkflowWriteGood(v, q, policy, key);
    LastWritesGood(v, q, policy, key);
    forall i | 0 <= i < |ws| ensures GoodWrite(v, q, policy, key, ws[i]) {
      if i < |a| {
        AgentWriteGood(v, q, policy, key, i);
        assert ws[i] == a[i];
      } else if i < |a| + |b| {
        assert ws[i] == b[i - |a|];
      }
    }
  }

  /** The index of the write that makes a part right. */
  lemma PartWritten(v: Crypto, q: Request, policy: OperatorPolicy, part: Part) returns (i: nat)
    requires WellFormed(q) && ValidRelease(v.checks, q.data)
    requires part.AgentPart? ==> part.id in q.data.agents
    requires part.WorkflowPart? ==> q.data.entry.kind.WorkflowKind?
    ensures i < |ApprovalWrites(v, q, policy)| && PartOf(ApprovalWrites(v, q, policy)[i]) == part
  {
    hide ValidRelease;
    var a, b := AgentWrites(q), WorkflowWrites(q);
    match part {
      case AgentPart(id) =>
        assert id in Elems(q.order);
        i :| 0 <= i < |q.order| && q.order[i] == id;
        assert ApprovalWrites(v, q, policy)[i] == a[i];
      case WorkflowPart =>
        WorkflowWriteGood(v, q, policy, "");
        i := |a|;
      case ReleasePart => i := |a| + |b|;
      case SignaturePart => i := |a| + |b| + 1;
      case RecordPart => i := |a| + |b| + 2;
    }
  }

  lemma PartRight(v: Crypto, q: Request, policy: OperatorPolicy, key: Fingerprint, f: Folder, part: Part)
    requires ValidRelease(v.checks, q.data) && WellFormed(q) && ProperSignature(v, q, key, q.reread)
    requires part.AgentPart? ==> part.id in q.data.agents
    requires part.WorkflowPart? ==> q.data.entry.kind.WorkflowKind?
    ensures PartOk(v, q, policy, key, WrittenAll(f, ApprovalWrites(v, q, policy)), part)
  {
    hide ApprovalWrites, ValidRelease, PartOk, GoodWrite, WrittenAll, PartOf, ProperSignature;
    AllWritesGood(v, q, policy, key);
    var i := PartWritten(v, q, policy, part);
    Writes(v, q, policy, key, f, ApprovalWrites(v, q, policy), part);
  }

  lemma WrittenMore(f: Folder, ws: seq<Write>, w: Write)
    ensures WrittenAll(f, ws + [w]) == Written(WrittenAll(f, ws), w)
  {
    assert (ws + [w])[..|ws|] == ws;
  }

  lemma ThreeMore(f: Folder, ws: seq<Write>, a: Write, b: Write, c: Write)
    ensures WrittenAll(f, ws + [a, b, c]) == Written(Written(Written(WrittenAll(f, ws), a), b), c)
  {
    hide WrittenAll, Written;
    WrittenMore(f, ws, a);
    WrittenMore(f, ws + [a], b);
    WrittenMore(f, ws + [a] + [b], c);
    assert ws + [a, b, c] == ws + [a] + [b] + [c];
  }

  lemma LastWrites(v: Crypto, q: Request, policy: OperatorPolicy, f: Folder)
    requires WellFormed(q)
    ensures WrittenAll(f, ApprovalWrites(v, q, policy)).signature == q.reread
    ensures WrittenAll(f, ApprovalWrites(v, q, policy)).release == Some(q.data)
  {
    hide AgentWrites, WorkflowWrites, WrittenAll;
    var first := AgentWrites(q) + WorkflowWrites(q);
    var release, signature := WriteRelease(q.data), WriteSignature(q.reread);
    var record := WriteRecord(ProperRecord(v, q, policy));
    ThreeMore(f, first, release, signature, record);
    assert ApprovalWrites(v, q, policy) == first + [release, signature, record];
  }

  ghost predicate Trusts(s: Store, id: Id, key: Fingerprint) {
    id in s.trusted && s.trusted[id] == Key(key)
  }

  /** Data is authorized exactly when its identifier is valid, a key is bound to it and
      not revoked, and the signature is that key's. */
  lemma TrustMeans(v: Crypto, s: Store, data: Release, signature: Option<Signature>)
    ensures TrustFailure(v, s, data, signature).None? <==>
            && IsArtifactId(data.identity.id) && signature.Some?
            && exists key ::
                 && Trusts(s, data.identity.id, key) && key !in s.revoked
                 && v.signed(data, signature.value, key)
  {
    if TrustFailure(v, s, data, signature).None? {
      var key := TrustOf(v, s, data, signature);
    }
  }

  lemma TrustOf(v: Crypto, s: Store, data: Release, signature: Option<Signature>) returns (key: Fingerprint)
    requires TrustFailure(v, s, data, signature).None?
    ensures IsArtifactId(data.identity.id) && Trusts(s, data.identity.id, key) && key !in s.revoked
    ensures signature.Some? && v.signed(data, signature.value, key)
  {
    key := s.trusted[data.identity.id].fingerprint;
  }

  lemma TrustSame(v: Crypto, s: Store, next: Store, q: Request, key: Fingerprint, signature: Option<Signature>)
    requires IsArtifactId(q.data.identity.id) && Trusts(s, q.data.identity.id, key) && key !in s.revoked
    requires next.trusted == s.trusted && next.revoked == s.revoked
    ensures TrustFailure(v, next, q.data, signature).None? <==> ProperSignature(v, q, key, signature)
  {
  }

  /** An approval that nothing disturbs ends with a release that loads as approved,
      exactly when the signature read the second time is the signer's as well. */
  lemma ApprovalLoads(v: Crypto, s: Store, q: Request)
    requires WellFormed(q) && Approvable(v, s, q)
    ensures var digest, policy := v.hashRelease(q.data), s.policies[q.policyPath];
            var next := PutFolder(s, digest, WrittenAll(FolderOf(s, digest), ApprovalWrites(v, q, policy)));
            && (Load(v, next, digest).Ok? <==> TrustFailure(v, s, q.data, q.reread).None?)
            && (Load(v, next, digest).Ok? ==> Load(v, next, digest).value == Approved(q.data, policy))
  {
    hide ValidRelease, Granted, TrustFailure, ApprovalWrites, WrittenAll, SnapshotIntact, WorkflowIntact,
         ProperSignature;
    var digest, policy := v.hashRelease(q.data), s.policies[q.policyPath];
    var f := WrittenAll(FolderOf(s, digest), ApprovalWrites(v, q, policy));
    var next := PutFolder(s, digest, f);
    var key := TrustOf(v, s, q.data, q.signature);
    LastWrites(v, q, policy, FolderOf(s, digest));
    TrustSame(v, s, s, q, key, q.reread);
    TrustSame(v, s, next, q, key, q.reread);
    assert FolderOf(next, digest) == f;
    if ProperSignature(v, q, key, q.reread) {
      PartRight(v, q, policy, key, FolderOf(s, digest), RecordPart);
      forall id | id in q.data.agents ensures SnapshotIntact(v, f, q.data, id) {
        PartRight(v, q, policy, key, FolderOf(s, digest), AgentPart(id));
      }
      AnyWorkflow(v, q, policy, key, FolderOf(s, digest));
    }
  }

  lemma AnyWorkflow(v: Crypto, q: Request, policy: OperatorPolicy, key: Fingerprint, f: Folder)
    requires ValidRelease(v.checks, q.data) && WellFormed(q) && ProperSignature(v, q, key, q.reread)
    ensures WorkflowIntact(v, WrittenAll(f, ApprovalWrites(v, q, policy)), q.data)
  {
    hide ValidRelease, ApprovalWrites, WrittenAll, ProperSignature;
    if q.data.entry.kind.WorkflowKind? {
      PartRight(v, q, policy, key, f, WorkflowPart);
    }
  }

  /** Approving a release again never makes it unloadable, wherever the new approval stops. */
  lemma ReapprovalKeepsLoadable(v: Crypto, s: Store, q: Request, k: nat)
    requires WellFormed(q) && Approvable(v, s, q) && TrustFailure(v, s, q.data, q.reread).None?
    requires var digest := v.hashRelease(q.data); Load(v, s, digest).Ok? && Load(v, s, digest).value.data == q.data
    requires k <= |ApprovalWrites(v, q, s.policies[q.policyPath])|
    ensures var digest, ws := v.hashRelease(q.data), ApprovalWrites(v, q, s.policies[q.policyPath]);
            var next := PutFolder(s, digest, WrittenAll(FolderOf(s, digest), ws[..k]));
            Load(v, next, digest).Ok? && Load(v, next, digest).value.data == q.data
  {
    hide ValidRelease, Granted, TrustFailure, ApprovalWrites, WrittenAll, SnapshotIntact, WorkflowIntact,
         ProperSignature, GoodWrite;
    var digest, policy := v.hashRelease(q.data), s.policies[q.policyPath];
    var ws, f := ApprovalWrites(v, q, policy), FolderOf(s, digest);
    if k == |ws| {
      assert ws[..k] == ws;
      ApprovalLoads(v, s, q);
    } else {
      var next := PutFolder(s, digest, WrittenAll(f, ws[..k]));
      assert FolderOf(next, digest) == WrittenAll(f, ws[..k]);
      var key := TrustOf(v, s, q.data, q.signature);
      TrustSame(v, s, s, q, key, q.reread);
      TrustSame(v, s, s, q, key, f.signature);
      AllWritesGood(v, q, policy, key);
      assert AllGood(v, q, policy, key, ws[..k]);
      EarlyWrites(v, q, policy, ws, k);
      RecordUntouched(f, ws[..k]);
      forall id | id in q.data.agents ensures SnapshotIntact(v, WrittenAll(f, ws[..k]), q.data, id) {
        Writes(v, q, policy, key, f, ws[..k], AgentPart(id));
      }
      Writes(v, q, policy, key, f, ws[..k], WorkflowPart);
      Writes(v, q, policy, key, f, ws[..k], ReleasePart);
      Writes(v, q, policy, key, f, ws[..k], SignaturePart);
      TrustSame(v, s, next, q, key, WrittenAll(f, ws[..k]).signature);
    }
  }

  lemma EarlyWrites(v: Crypto, q: Request, policy: OperatorPolicy, ws: seq<Write>, k: nat)
    requires WellFormed(q) && ws == ApprovalWrites(v, q, policy) && k < |ws|
    ensures forall w :: w in ws[..k] ==> !w.WriteRecord?
  {
  }
}
