/** Publishing one version: a draft is filled, verified, and only then made public.
    The remote keeps the releases that use the version's tag, and the tag itself. */
module Publication {
  import opened Wrappers

  type Sha = string
  type Name = string
  type Bytes = string
  type Hash = Bytes -> string

  datatype Asset = Asset(name: Name, bytes: Bytes)

  datatype GitObject = Commit(sha: Sha) | Annotated(sha: Sha, target: GitObject) | OtherObject(sha: Sha)

  datatype Release = Release(draft: bool, target: Sha, notes: string, assets: seq<Asset>)

  datatype Remote = Remote(releases: seq<Release>, tag: Option<GitObject>)

  /** One publication: the tested commit, its notes and the validated files in name order. */
  datatype Job = Job(sha: Sha, notes: string, files: seq<Asset>)

  datatype Reply = Done | LostReply | NotDone

  datatype UploadReply = Delivered | Cut(landed: seq<Asset>)

  /** What goes wrong during one run: it stops before checkpoint `stop`, and each
      command may fail before or after its effect; a cut upload leaves any assets
      behind, whole or truncated. */
  datatype Weather = Weather(stop: nat, create: Reply, upload: UploadReply, edit: Reply)

  datatype Refusal = InvalidTagObject | UnresolvedTag | TagElsewhere | SeveralReleases | NotesDiffer
                   | UnexpectedAssets | IncompleteAssets | AssetDiffers(name: Name)
                   | PublishedUntagged | DraftElsewhere | DraftChanged

  datatype Outcome = Published | AlreadyPublished | Refused(reason: Refusal) | Interrupted

  const CHECKPOINTS := 8
  const TAG_DEPTH := 5

  predicate Healthy(f: Weather) {
    f.stop >= CHECKPOINTS && f.create.Done? && f.upload.Delivered? && f.edit.Done?
  }

  predicate IsSha(sha: Sha) {
    |sha| == 40 && forall c :: c in sha ==> '0' <= c <= '9' || 'a' <= c <= 'f'
  }

  const HEX := "0123456789abcdef"

  /** The commit ids of Git: 40 hexadecimal digits in small letters. */
  lemma ShaMeans(sha: Sha)
    ensures IsSha(sha) <==> |sha| == 40 && forall c :: c in sha ==> c in HEX
  {
    forall c: char ensures c in HEX <==> '0' <= c <= '9' || 'a' <= c <= 'f' {
      HexMeans(c);
    }
  }

  lemma HexMeans(c: char)
    ensures c in HEX <==> '0' <= c <= '9' || 'a' <= c <= 'f'
  {
    var n := c as int;
    if '0' <= c <= '9' {
      assert HEX[n - '0' as int] == c;
    }
    if 'a' <= c <= 'f' {
      assert HEX[10 + n - 'a' as int] == c;
    }
  }

  function Names(assets: seq<Asset>): set<Name> {
    set a | a in assets :: a.name
  }

  predicate DistinctNames(assets: seq<Asset>) {
    forall i, j :: 0 <= i < j < |assets| ==> assets[i].name != assets[j].name
  }

  /** What the push context and a dictionary of files provide. */
  predicate ValidJob(job: Job) {
    IsSha(job.sha) && DistinctNames(job.files)
  }

  // ----- reading the remote

  /** The commit a tag denotes, through at most `depth - 1` annotated tags. */
  function Peel(ref: GitObject, depth: nat): Result<Sha, Refusal> {
    if depth == 0 then Err(UnresolvedTag)
    else if !IsSha(ref.sha) then Err(InvalidTagObject)
    else match ref
      case Commit(sha) => Ok(sha)
      case Annotated(_, target) => Peel(target, depth - 1)
      case OtherObject(_) => Err(UnresolvedTag)
  }

  function TagCommit(tag: Option<GitObject>): Result<Option<Sha>, Refusal> {
    if tag.None? then Ok(None)
    else
      var sha := Peel(tag.value, TAG_DEPTH);
      if sha.Ok? then Ok(Some(sha.value)) else Err(sha.error)
  }

  function Find(s: Remote, job: Job): Result<Option<Release>, Refusal> {
    if |s.releases| > 1 then Err(SeveralReleases)
    else if s.releases == [] then Ok(None)
    else if s.releases[0].notes != job.notes then Err(NotesDiffer)
    else Ok(Some(s.releases[0]))
  }

  /** The asset carries the bytes validated under its name, as far as digests tell. */
  predicate Genuine(hash: Hash, job: Job, a: Asset) {
    exists file :: file in job.files && file.name == a.name && hash(file.bytes) == hash(a.bytes)
  }

  /** The first asset in order that is not genuine. */
  function FirstDifferent(hash: Hash, job: Job, assets: seq<Asset>): Option<Name> {
    if assets == [] then None
    else if !Genuine(hash, job, assets[0]) then Some(assets[0].name)
    else FirstDifferent(hash, job, assets[1..])
  }

  function VerifyAssets(hash: Hash, job: Job, r: Release, complete: bool): Option<Refusal> {
    if !(DistinctNames(r.assets) && Names(r.assets) <= Names(job.files)) then Some(UnexpectedAssets)
    else if complete && Names(r.assets) != Names(job.files) then Some(IncompleteAssets)
    else
      var different := FirstDifferent(hash, job, r.assets);
      if different.Some? then Some(AssetDiffers(different.value)) else None
  }

  /** From the reference through annotated tags, object by object. */
  ghost predicate Unwraps(ref: GitObject, os: seq<GitObject>) {
    && |os| > 0 && os[0] == ref
    && (forall i :: 0 <= i < |os| ==> IsSha(os[i].sha))
    && forall i :: 0 <= i < |os| - 1 ==> os[i].Annotated? && os[i].target == os[i + 1]
  }

  lemma {:induction false} PeelIff(ref: GitObject, depth: nat, sha: Sha)
    ensures Peel(ref, depth) == Ok(sha) <==>
            exists os :: Unwraps(ref, os) && |os| <= depth && os[|os| - 1] == Commit(sha)
    decreases depth
  {
    hide IsSha;
    if depth > 0 && ref.Annotated? {
      PeelIff(ref.target, depth - 1, sha);
      if os :| Unwraps(ref.target, os) && |os| <= depth - 1 && os[|os| - 1] == Commit(sha) && IsSha(ref.sha) {
        assert Unwraps(ref, [ref] + os);
      }
      if os :| Unwraps(ref, os) && |os| <= depth && os[|os| - 1] == Commit(sha) {
        assert Unwraps(ref.target, os[1..]) && os[1..][|os[1..]| - 1] == Commit(sha);
      }
    } else if depth > 0 && ref == Commit(sha) && IsSha(sha) {
      assert Unwraps(ref, [ref]);
    }
  }

  /** A tag denotes a commit exactly when at most four annotated tags lead to it, all with
      well-formed ids. */
  lemma TagDenotes(tag: Option<GitObject>, sha: Sha)
    ensures TagCommit(tag) == Ok(None) <==> tag.None?
    ensures TagCommit(tag) == Ok(Some(sha)) <==>
            tag.Some? && exists os :: Unwraps(tag.value, os) && |os| <= 5 && os[|os| - 1] == Commit(sha)
  {
    if tag.Some? {
      PeelIff(tag.value, 5, sha);
    }
  }

  // ----- changing the remote

  function Created(s: Remote, job: Job): Remote {
    s.(releases := s.releases + [Release(true, job.sha, job.notes, [])])
  }

  function Extended(s: Remote, assets: seq<Asset>): Remote
    requires s.releases != []
  {
    s.(releases := s.releases[0 := s.releases[0].(assets := s.releases[0].assets + assets)])
  }

  /** Publishing creates the tag at the release's target when there is none. */
  function MadePublic(s: Remote): Remote
    requires s.releases != []
  {
    Remote(s.releases[0 := s.releases[0].(draft := false)],
           if s.tag.None? then Some(Commit(s.releases[0].target)) else s.tag)
  }

  /** The files not there yet. */
  function Missing(files: seq<Asset>, present: set<Name>): (r: seq<Asset>)
    ensures |r| <= |files|
  {
    if files == [] then []
    else (if files[0].name in present then [] else [files[0]]) + Missing(files[1..], present)
  }

  /** What a cut upload can leave: one asset per requested name, with any bytes. */
  function Landing(requested: set<Name>, landed: seq<Asset>): seq<Asset> {
    if landed == [] then []
    else if landed[0].name in requested then [landed[0]] + Landing(requested - {landed[0].name}, landed[1..])
    else Landing(requested, landed[1..])
  }

  function Uploaded(s: Remote, missing: seq<Asset>, reply: UploadReply): Remote
    requires s.releases != []
  {
    Extended(s, if reply.Delivered? then missing else Landing(Names(missing), reply.landed))
  }

  // ----- one run

  function Run(hash: Hash, job: Job, s: Remote, f: Weather): (Remote, Outcome) {
    if f.stop <= 0 then (s, Interrupted)
    else
      var tag := TagCommit(s.tag);
      if tag.Err? then (s, Refused(tag.error))
      else if tag.value.Some? && tag.value.value != job.sha then (s, Refused(TagElsewhere))
      else if f.stop <= 1 then (s, Interrupted)
      else
        var found := Find(s, job);
        if found.Err? then (s, Refused(found.error))
        else if found.value.None? then Create(hash, job, s, f)
        else
          var r := found.value.value;
          if !r.draft then (s, Recheck(hash, job, r, tag.value, f))
          else if r.target != job.sha then (s, Refused(DraftElsewhere))
          else Fill(hash, job, s, f)
  }

  function Recheck(hash: Hash, job: Job, r: Release, tag: Option<Sha>, f: Weather): Outcome {
    if tag != Some(job.sha) then Refused(PublishedUntagged)
    else if f.stop <= 2 then Interrupted
    else
      var failure := VerifyAssets(hash, job, r, true);
      if failure.Some? then Refused(failure.value) else AlreadyPublished
  }

  function Create(hash: Hash, job: Job, s: Remote, f: Weather): (Remote, Outcome) {
    if f.create.NotDone? then (s, Interrupted)
    else
      var s1 := Created(s, job);
      if f.create.LostReply? || f.stop <= 2 then (s1, Interrupted)
      else
        var found := Find(s1, job);
        if found.Err? then (s1, Refused(found.error))
        else if found.value.None? || !found.value.value.draft || found.value.value.target != job.sha then
          (s1, Refused(DraftChanged))
        else Fill(hash, job, s1, f)
  }

  function Fill(hash: Hash, job: Job, s: Remote, f: Weather): (Remote, Outcome)
    requires s.releases != []
  {
    if f.stop <= 3 then (s, Interrupted)
    else
      var failure := VerifyAssets(hash, job, s.releases[0], false);
      if failure.Some? then (s, Refused(failure.value))
      else
        var missing := Missing(job.files, Names(s.releases[0].assets));
        if missing == [] then Finish(hash, job, s, f)
        else
          var s1 := Uploaded(s, missing, f.upload);
          if f.upload.Cut? then (s1, Interrupted) else Finish(hash, job, s1, f)
  }

  function Finish(hash: Hash, job: Job, s: Remote, f: Weather): (Remote, Outcome) {
    if f.stop <= 4 then (s, Interrupted)
    else
      var found := Find(s, job);
      if found.Err? then (s, Refused(found.error))
      else if found.value.None? || !found.value.value.draft || found.value.value.target != job.sha then
        (s, Refused(DraftChanged))
      else if f.stop <= 5 then (s, Interrupted)
      else
        var failure := VerifyAssets(hash, job, found.value.value, true);
        if failure.Some? then (s, Refused(failure.value))
        else if f.stop <= 6 then (s, Interrupted)
        else
          var tag := TagCommit(s.tag);
          if tag.Err? then (s, Refused(tag.error))
          else if tag.value.Some? && tag.value.value != job.sha then (s, Refused(TagElsewhere))
          else MakePublic(job, s, f)
  }

  function MakePublic(job: Job, s: Remote, f: Weather): (Remote, Outcome)
    requires s.releases != []
  {
    if f.edit.NotDone? then (s, Interrupted)
    else
      var s1 := MadePublic(s);
      if f.edit.LostReply? || f.stop <= 7 then (s1, Interrupted)
      else
        var tag := TagCommit(s1.tag);
        if tag.Err? then (s1, Refused(tag.error))
        else if tag.value != Some(job.sha) then (s1, Refused(TagElsewhere))
        else (s1, Published)
  }

  // ----- the script

  method ReadTag(tag: Option<GitObject>) returns (r: Result<Option<Sha>, Refusal>)
    ensures r == TagCommit(tag)
  {
    if tag.None? {
      return Ok(None);
    }
    var target, n := tag.value, 0;
    while n < TAG_DEPTH
      invariant 0 <= n <= TAG_DEPTH
      invariant Peel(tag.value, TAG_DEPTH) == Peel(target, TAG_DEPTH - n)
    {
      if !IsSha(target.sha) {
        return Err(InvalidTagObject);
      }
      if target.Commit? {
        return Ok(Some(target.sha));
      }
      if !target.Annotated? {
        break;
      }
      target := target.target;
      n := n + 1;
    }
    return Err(UnresolvedTag);
  }

  method CompareAssets(hash: Hash, job: Job, r: Release, complete: bool) returns (failure: Option<Refusal>)
    ensures failure == VerifyAssets(hash, job, r, complete)
  {
    if !(DistinctNames(r.assets) && Names(r.assets) <= Names(job.files)) {
      return Some(UnexpectedAssets);
    }
    if complete && Names(r.assets) != Names(job.files) {
      return Some(IncompleteAssets);
    }
    var n := 0;
    while n < |r.assets|
      invariant n <= |r.assets|
      invariant FirstDifferent(hash, job, r.assets) == FirstDifferent(hash, job, r.assets[n..])
    {
      if !Genuine(hash, job, r.assets[n]) {
        return Some(AssetDiffers(r.assets[n].name));
      }
      assert r.assets[n..][1..] == r.assets[n + 1..];
      n := n + 1;
    }
    return None;
  }

  class GitHub {
    var releases: seq<Release>
    var tag: Option<GitObject>

    function State(): Remote
      reads this
    {
      Remote(releases, tag)
    }

    method CreateDraft(job: Job, reply: Reply) returns (ok: bool)
      modifies this`releases
      ensures State() == if reply.NotDone? then old(State()) else Created(old(State()), job)
      ensures ok == reply.Done?
    {
      if !reply.NotDone? {
        releases := releases + [Release(true, job.sha, job.notes, [])];
      }
      ok := reply.Done?;
    }

    method Upload(missing: seq<Asset>, reply: UploadReply) returns (ok: bool)
      requires releases != []
      modifies this`releases
      ensures State() == Uploaded(old(State()), missing, reply)
      ensures ok == reply.Delivered?
    {
      var arrived := if reply.Delivered? then missing else Landing(Names(missing), reply.landed);
      releases := releases[0 := releases[0].(assets := releases[0].assets + arrived)];
      ok := reply.Delivered?;
    }

    method EditToPublic(reply: Reply) returns (ok: bool)
      requires releases != []
      modifies this
      ensures State() == if reply.NotDone? then old(State()) else MadePublic(old(State()))
      ensures ok == reply.Done?
    {
      if !reply.NotDone? {
        if tag.None? {
          tag := Some(Commit(releases[0].target));
        }
        releases := releases[0 := releases[0].(draft := false)];
      }
      ok := reply.Done?;
    }

    /** The whole script against this remote. */
    method Publish(hash: Hash, job: Job, f: Weather) returns (outcome: Outcome)
      modifies this
      ensures (State(), outcome) == Run(hash, job, old(State()), f)
    {
      if f.stop <= 0 {
        return Interrupted;
      }
      var tagSha := ReadTag(tag);
      if tagSha.Err? {
        return Refused(tagSha.error);
      }
      if tagSha.value.Some? && tagSha.value.value != job.sha {
        return Refused(TagElsewhere);
      }
      if f.stop <= 1 {
        return Interrupted;
      }
      var found := Find(State(), job);
      if found.Err? {
        return Refused(found.error);
      }
      if found.value.Some? && !found.value.value.draft {
        if tagSha.value != Some(job.sha) {
          return Refused(PublishedUntagged);
        }
        if f.stop <= 2 {
          return Interrupted;
        }
        var failure := CompareAssets(hash, job, found.value.value, true);
        return if failure.Some? then Refused(failure.value) else AlreadyPublished;
      }
      if found.value.Some? && found.value.value.target != job.sha {
        return Refused(DraftElsewhere);
      }
      if found.value.None? {
        var made := CreateDraft(job, f.create);
        if !made || f.stop <= 2 {
          return Interrupted;
        }
        found := Find(State(), job);
        if found.Err? {
          return Refused(found.error);
        }
        if found.value.None? || !found.value.value.draft || found.value.value.target != job.sha {
          return Refused(DraftChanged);
        }
      }
      outcome := FillAndRelease(hash, job, f);
    }

    method FillAndRelease(hash: Hash, job: Job, f: Weather) returns (outcome: Outcome)
      requires releases != []
      modifies this
      ensures (State(), outcome) == Fill(hash, job, old(State()), f)
    {
      if f.stop <= 3 {
        return Interrupted;
      }
      var failure := CompareAssets(hash, job, releases[0], false);
      if failure.Some? {
        return Refused(failure.value);
      }
      var missing := Missing(job.files, Names(releases[0].assets));
      if missing != [] {
        var ok := Upload(missing, f.upload);
        if !ok {
          return Interrupted;
        }
      }
      if f.stop <= 4 {
        return Interrupted;
      }
      var found := Find(State(), job);
      if found.Err? {
        return Refused(found.error);
      }
      if found.value.None? || !found.value.value.draft || found.value.value.target != job.sha {
        return Refused(DraftChanged);
      }
      if f.stop <= 5 {
        return Interrupted;
      }
      failure := CompareAssets(hash, job, found.value.value, true);
      if failure.Some? {
        return Refused(failure.value);
      }
      if f.stop <= 6 {
        return Interrupted;
      }
      var tagSha := ReadTag(tag);
      if tagSha.Err? {
        return Refused(tagSha.error);
      }
      if tagSha.value.Some? && tagSha.value.value != job.sha {
        return Refused(TagElsewhere);
      }
      var edited := EditToPublic(f.edit);
      if !edited || f.stop <= 7 {
        return Interrupted;
      }
      tagSha := ReadTag(tag);
      if tagSha.Err? {
        return Refused(tagSha.error);
      }
      return if tagSha.value == Some(job.sha) then Published else Refused(TagElsewhere);
    }
  }

  // ----- what verification establishes

  /** Every asset is genuine, none twice. */
  ghost predicate AllGenuine(hash: Hash, job: Job, assets: seq<Asset>) {
    DistinctNames(assets) && forall a :: a in assets ==> Genuine(hash, job, a)
  }

  lemma {:induction false} FirstDifferentMeans(hash: Hash, job: Job, assets: seq<Asset>)
    ensures FirstDifferent(hash, job, assets).None? <==> forall a :: a in assets ==> Genuine(hash, job, a)
  {
    if assets != [] {
      FirstDifferentMeans(hash, job, assets[1..]);
      assert assets == [assets[0]] + assets[1..];
    }
  }

  lemma VerifyMeans(hash: Hash, job: Job, r: Release, complete: bool)
    ensures VerifyAssets(hash, job, r, complete).None? <==>
            AllGenuine(hash, job, r.assets) && (complete ==> Names(r.assets) == Names(job.files))
  {
    FirstDifferentMeans(hash, job, r.assets);
    if AllGenuine(hash, job, r.assets) {
      forall a | a in r.assets ensures a.name in Names(job.files) {
        assert Genuine(hash, job, a);
      }
    }
  }

  ghost predicate Public(s: Remote) {
    exists r :: r in s.releases && !r.draft
  }

  /** The one release is public, holds exactly the validated files and its tag is the tested commit. */
  ghost predicate Exact(hash: Hash, job: Job, s: Remote) {
    && |s.releases| == 1 && !s.releases[0].draft && s.releases[0].notes == job.notes
    && AllGenuine(hash, job, s.releases[0].assets) && Names(s.releases[0].assets) == Names(job.files)
    && TagCommit(s.tag) == Ok(Some(job.sha))
  }

  /** Under a hash without collisions, exact means the same names with the same bytes. */
  lemma ExactBytes(hash: Hash, job: Job, s: Remote)
    requires ValidJob(job) && Exact(hash, job, s)
    requires forall x, y :: hash(x) == hash(y) ==> x == y
    ensures forall a :: a in s.releases[0].assets <==> a in job.files
  {
    var assets := s.releases[0].assets;
    forall a ensures a in assets <==> a in job.files {
      if a in assets {
        assert Genuine(hash, job, a);
        var file :| file in job.files && file.name == a.name && hash(file.bytes) == hash(a.bytes);
        assert file == a;
      }
      if a in job.files {
        assert a.name in Names(assets);
        var b :| b in assets && b.name == a.name;
        assert Genuine(hash, job, b);
        var file :| file in job.files && file.name == b.name && hash(file.bytes) == hash(b.bytes);
        assert file == a && file == b;
      }
    }
  }

  // ----- what one run can do

  /** Nothing published or uploaded is taken back, replaced or retargeted. */
  ghost predicate Grows(s: Remote, next: Remote) {
    && |s.releases| <= |next.releases|
    && (forall i :: 0 <= i < |s.releases| ==> Kept(s.releases[i], next.releases[i]))
    && (s.tag.Some? ==> next.tag == s.tag)
    && (next.tag != s.tag ==> Public(next))
  }

  predicate Kept(r: Release, next: Release) {
    next.target == r.target && next.notes == r.notes && r.assets <= next.assets && (next.draft ==> r.draft)
  }

  ghost predicate Safe(hash: Hash, job: Job, s: Remote, next: Remote) {
    && Grows(s, next)
    && (Public(s) ==> next == s)
    && (Public(next) && !Public(s) ==> Exact(hash, job, next))
  }

  lemma FinishIsSafe(hash: Hash, job: Job, s: Remote, f: Weather)
    requires ValidJob(job) && s.releases != [] && s.releases[0].draft
    ensures Safe(hash, job, s, Finish(hash, job, s, f).0)
    ensures Finish(hash, job, s, f).1.Published? ==> Exact(hash, job, Finish(hash, job, s, f).0)
    ensures !Finish(hash, job, s, f).1.AlreadyPublished?
  {
    VerifyMeans(hash, job, s.releases[0], true);
  }

  lemma FillIsSafe(hash: Hash, job: Job, s: Remote, f: Weather)
    requires ValidJob(job) && |s.releases| == 1 && s.releases[0].draft
    ensures Safe(hash, job, s, Fill(hash, job, s, f).0)
    ensures Fill(hash, job, s, f).1.Published? ==> Exact(hash, job, Fill(hash, job, s, f).0)
    ensures !Fill(hash, job, s, f).1.AlreadyPublished?
  {
    var missing := Missing(job.files, Names(s.releases[0].assets));
    FinishIsSafe(hash, job, s, f);
    FinishIsSafe(hash, job, Uploaded(s, missing, f.upload), f);
  }

  lemma RecheckIsExact(hash: Hash, job: Job, s: Remote, tag: Option<Sha>, f: Weather)
    requires |s.releases| == 1 && !s.releases[0].draft && s.releases[0].notes == job.notes
             && TagCommit(s.tag) == Ok(tag)
    ensures Recheck(hash, job, s.releases[0], tag, f).AlreadyPublished? ==> Exact(hash, job, s)
    ensures !Recheck(hash, job, s.releases[0], tag, f).Published?
  {
    VerifyMeans(hash, job, s.releases[0], true);
  }

  lemma CreateIsSafe(hash: Hash, job: Job, s: Remote, f: Weather)
    requires ValidJob(job) && s.releases == []
    ensures Safe(hash, job, s, Create(hash, job, s, f).0)
    ensures Create(hash, job, s, f).1.Published? ==> Exact(hash, job, Create(hash, job, s, f).0)
    ensures !Create(hash, job, s, f).1.AlreadyPublished?
  {
    hide Fill, ValidJob, Exact, Kept;
    FillIsSafe(hash, job, Created(s, job), f);
  }

  lemma StayingIsSafe(hash: Hash, job: Job, s: Remote)
    ensures Safe(hash, job, s, s)
  {
  }

  /** One run, whatever fails in it: assets and tag are only ever added, a published
      release stays as it is, and only the exact validated files become public. */
  lemma RunIsSafe(hash: Hash, job: Job, s: Remote, f: Weather)
    requires ValidJob(job)
    ensures Safe(hash, job, s, Run(hash, job, s, f).0)
    ensures Run(hash, job, s, f).1 in {Published, AlreadyPublished} ==> Exact(hash, job, Run(hash, job, s, f).0)
  {
    hide Fill, Create, Recheck, ValidJob, Exact, Safe, TagCommit;
    StayingIsSafe(hash, job, s);
    if s.releases == [] {
      CreateIsSafe(hash, job, s, f);
    } else if |s.releases| == 1 && s.releases[0].draft {
      FillIsSafe(hash, job, s, f);
    } else if |s.releases| == 1 && s.releases[0].notes == job.notes && TagCommit(s.tag).Ok? {
      RecheckIsExact(hash, job, s, TagCommit(s.tag).value, f);
    }
  }

  // ----- histories of runs

  datatype Attempt = Attempt(job: Job, weather: Weather)

  function After(hash: Hash, s: Remote, h: seq<Attempt>): Remote
    decreases |h|
  {
    if h == [] then s else After(hash, Run(hash, h[0].job, s, h[0].weather).0, h[1..])
  }

  /** Once public, no run of any job changes anything. */
  lemma {:induction false} PublishedIsFinal(hash: Hash, s: Remote, h: seq<Attempt>)
    requires Public(s) && forall a :: a in h ==> ValidJob(a.job)
    ensures After(hash, s, h) == s
    decreases |h|
  {
    if h != [] {
      RunIsSafe(hash, h[0].job, s, h[0].weather);
      PublishedIsFinal(hash, s, h[1..]);
    }
  }

  /** Over any history of runs, also of different commits and builds: what becomes
      public is exactly what one of them validated, at that run's commit, and it is
      public from that run on. */
  lemma {:induction false} OnlyValidatedIsPublic(hash: Hash, s: Remote, h: seq<Attempt>)
    requires !Public(s) && Public(After(hash, s, h)) && forall a :: a in h ==> ValidJob(a.job)
    ensures exists i ::
              && 0 <= i < |h| && Exact(hash, h[i].job, After(hash, s, h))
              && After(hash, s, h[..i + 1]) == After(hash, s, h)
    decreases |h|
  {
    var next := Run(hash, h[0].job, s, h[0].weather).0;
    RunIsSafe(hash, h[0].job, s, h[0].weather);
    if Public(next) {
      PublishedIsFinal(hash, next, h[1..]);
      assert h[..1] == [h[0]] && After(hash, s, h[..1]) == next;
      assert Exact(hash, h[0].job, After(hash, s, h)) && After(hash, s, h[..0 + 1]) == After(hash, s, h);
    } else {
      OnlyValidatedIsPublic(hash, next, h[1..]);
      var i :| 0 <= i < |h[1..]| && Exact(hash, h[1..][i].job, After(hash, next, h[1..]))
               && After(hash, next, h[1..][..i + 1]) == After(hash, next, h[1..]);
      assert h[..i + 2][1..] == h[1..][..i + 1];
      assert Exact(hash, h[i + 1].job, After(hash, s, h)) && After(hash, s, h[..(i + 1) + 1]) == After(hash, s, h);
    }
  }

  /** Over any history assets stay in place with their bytes. */
  lemma {:induction false} AssetsNeverReplaced(hash: Hash, s: Remote, h: seq<Attempt>)
    requires forall a :: a in h ==> ValidJob(a.job)
    ensures Grows(s, After(hash, s, h))
    decreases |h|
  {
    if h != [] {
      var next := Run(hash, h[0].job, s, h[0].weather).0;
      RunIsSafe(hash, h[0].job, s, h[0].weather);
      AssetsNeverReplaced(hash, next, h[1..]);
      if Public(next) {
        PublicStays(next, After(hash, next, h[1..]));
      }
      forall i | 0 <= i < |s.releases| ensures Kept(s.releases[i], After(hash, s, h).releases[i]) {
        assert Kept(s.releases[i], next.releases[i]);
        assert Kept(next.releases[i], After(hash, s, h).releases[i]);
      }
    }
  }

  lemma PublicStays(s: Remote, next: Remote)
    requires Grows(s, next) && Public(s)
    ensures Public(next)
  {
    var i :| 0 <= i < |s.releases| && !s.releases[i].draft;
    assert Kept(s.releases[i], next.releases[i]);
    assert next.releases[i] in next.releases;
  }

  // ----- when a run without failures completes

  ghost predicate TagAllows(job: Job, s: Remote) {
    TagCommit(s.tag) == Ok(None) || TagCommit(s.tag) == Ok(Some(job.sha))
  }

  ghost predicate Resumable(hash: Hash, job: Job, s: Remote) {
    && TagAllows(job, s) && |s.releases| <= 1
    && (s.releases != [] ==>
          var r := s.releases[0];
          && r.notes == job.notes && AllGenuine(hash, job, r.assets)
          && if r.draft then r.target == job.sha else Exact(hash, job, s))
  }

  lemma {:induction false} MissingIn(files: seq<Asset>, present: set<Name>, a: Asset)
    ensures a in Missing(files, present) <==> a in files && a.name !in present
  {
    if files != [] {
      MissingIn(files[1..], present, a);
      assert files == [files[0]] + files[1..];
    }
  }

  lemma {:induction false} MissingDistinct(files: seq<Asset>, present: set<Name>)
    requires DistinctNames(files)
    ensures DistinctNames(Missing(files, present))
  {
    if files != [] {
      var rest := Missing(files[1..], present);
      MissingDistinct(files[1..], present);
      forall a | a in rest ensures a.name != files[0].name {
        MissingIn(files[1..], present, a);
        var i :| 0 <= i < |files[1..]| && files[1..][i] == a;
        assert files[i + 1] == a;
      }
      if files[0].name !in present {
        DistinctJoin([files[0]], rest);
      }
    }
  }

  lemma MissingNames(files: seq<Asset>, present: set<Name>)
    requires DistinctNames(files)
    ensures DistinctNames(Missing(files, present))
    ensures Names(Missing(files, present)) == Names(files) - present
    ensures forall a :: a in Missing(files, present) ==> a in files
    ensures Missing(files, present) == [] <==> Names(files) <= present
  {
    hide Missing, DistinctNames;
    MissingDistinct(files, present);
    var missing := Missing(files, present);
    forall a | a in missing || a in files ensures a in missing <==> a in files && a.name !in present {
      MissingIn(files, present, a);
    }
    if missing != [] {
      assert missing[0] in missing;
    }
  }

  lemma DistinctJoin(a: seq<Asset>, b: seq<Asset>)
    requires DistinctNames(a) && DistinctNames(b) && Names(a) !! Names(b)
    ensures DistinctNames(a + b) && Names(a + b) == Names(a) + Names(b)
  {
    forall i, j | 0 <= i < j < |a + b| ensures (a + b)[i].name != (a + b)[j].name {
      if i < |a| <= j {
        assert a[i].name in Names(a) && b[j - |a|].name in Names(b);
      }
    }
  }

  /** Uploading what is missing makes the release complete. */
  lemma FillCompletes(hash: Hash, job: Job, assets: seq<Asset>)
    requires ValidJob(job) && AllGenuine(hash, job, assets)
    ensures var full := assets + Missing(job.files, Names(assets));
            AllGenuine(hash, job, full) && Names(full) == Names(job.files)
  {
    var missing := Missing(job.files, Names(assets));
    MissingNames(job.files, Names(assets));
    DistinctJoin(assets, missing);
    forall a | a in assets ensures a.name in Names(job.files) {
      assert Genuine(hash, job, a);
    }
    forall a | a in missing ensures Genuine(hash, job, a) {
    }
  }

  ghost predicate OwnDraft(job: Job, s: Remote) {
    |s.releases| == 1 && s.releases[0].draft && s.releases[0].target == job.sha && s.releases[0].notes == job.notes
  }

  lemma FinishEndsPublished(hash: Hash, job: Job, s: Remote, f: Weather)
    requires ValidJob(job) && Healthy(f) && TagAllows(job, s) && OwnDraft(job, s)
    requires AllGenuine(hash, job, s.releases[0].assets) && Names(s.releases[0].assets) == Names(job.files)
    ensures Finish(hash, job, s, f).1.Published?
  {
    VerifyMeans(hash, job, s.releases[0], true);
    hide Names, Genuine, VerifyAssets, AllGenuine;
  }

  lemma FillEndsPublished(hash: Hash, job: Job, s: Remote, f: Weather)
    requires ValidJob(job) && Healthy(f) && TagAllows(job, s) && OwnDraft(job, s)
    ensures Fill(hash, job, s, f).1.Published? <==> AllGenuine(hash, job, s.releases[0].assets)
  {
    hide Names, VerifyAssets, Missing, AllGenuine, Finish, TagAllows, ValidJob;
    var r := s.releases[0];
    VerifyMeans(hash, job, r, false);
    if AllGenuine(hash, job, r.assets) {
      var missing := Missing(job.files, Names(r.assets));
      FillCompletes(hash, job, r.assets);
      var s1 := if missing == [] then s else Uploaded(s, missing, f.upload);
      assert s1.releases[0].assets == r.assets + missing;
      TagStays(job, s, s1);
      FinishEndsPublished(hash, job, s1, f);
    }
  }

  lemma TagStays(job: Job, s: Remote, next: Remote)
    requires TagAllows(job, s) && next.tag == s.tag
    ensures TagAllows(job, next)
  {
  }

  /** A run without failures ends published exactly from a resumable state. */
  lemma CompletesIff(hash: Hash, job: Job, s: Remote, f: Weather)
    requires ValidJob(job) && Healthy(f)
    ensures Run(hash, job, s, f).1 in {Published, AlreadyPublished} <==> Resumable(hash, job, s)
    ensures Resumable(hash, job, s) ==> Exact(hash, job, Run(hash, job, s, f).0)
  {
    RunIsSafe(hash, job, s, f);
    if TagAllows(job, s) {
      if s.releases == [] {
        FillEndsPublished(hash, job, Created(s, job), f);
      } else if |s.releases| == 1 {
        VerifyMeans(hash, job, s.releases[0], true);
        if s.releases[0].draft {
          FillIsSafe(hash, job, s, f);
          if s.releases[0].target == job.sha && s.releases[0].notes == job.notes {
            FillEndsPublished(hash, job, s, f);
          }
        }
      }
    }
  }

  /** How far a run gets: the draft it works on is there. */
  predicate Drafts(s: Remote, f: Weather) {
    s.releases != [] || (f.stop >= 2 && !f.create.NotDone?)
  }

  /** It goes on to complete the draft. */
  predicate Fills(s: Remote, f: Weather) {
    f.stop >= 4 && (s.releases == [] ==> f.create.Done?)
  }

  /** It makes the draft public. */
  predicate Opens(s: Remote, missing: seq<Asset>, f: Weather) {
    Fills(s, f) && (missing != [] ==> f.upload.Delivered?) && f.stop >= 7 && !f.edit.NotDone?
  }

  function PresentAssets(s: Remote): seq<Asset> {
    if s.releases == [] then [] else s.releases[0].assets
  }

  /** A complete draft: nothing but the weather is left to decide. */
  lemma FinishDecides(hash: Hash, job: Job, s: Remote, f: Weather)
    requires ValidJob(job) && TagAllows(job, s) && OwnDraft(job, s)
    requires AllGenuine(hash, job, s.releases[0].assets) && Names(s.releases[0].assets) == Names(job.files)
    ensures var (next, outcome) := Finish(hash, job, s, f);
            var opens := f.stop >= 7 && !f.edit.NotDone?;
            && outcome == (if opens && f.edit.Done? && f.stop >= 8 then Published else Interrupted)
            && next == if opens then MadePublic(s) else s
  {
    VerifyMeans(hash, job, s.releases[0], true);
    hide Names, Genuine, VerifyAssets, AllGenuine;
  }

  lemma FillDecides(hash: Hash, job: Job, s: Remote, f: Weather)
    requires ValidJob(job) && TagAllows(job, s) && OwnDraft(job, s) && AllGenuine(hash, job, s.releases[0].assets)
    ensures var (next, outcome) := Fill(hash, job, s, f);
            var missing := Missing(job.files, Names(s.releases[0].assets));
            var s1 := if f.stop <= 3 || missing == [] then s else Uploaded(s, missing, f.upload);
            var opens := (missing != [] ==> f.upload.Delivered?) && f.stop >= 7 && !f.edit.NotDone?;
            && outcome == (if opens && f.edit.Done? && f.stop >= 8 then Published else Interrupted)
            && next == if opens then MadePublic(s1) else s1
  {
    hide Names, VerifyAssets, Missing, AllGenuine, Finish, TagAllows, ValidJob;
    var r := s.releases[0];
    VerifyMeans(hash, job, r, false);
    var missing := Missing(job.files, Names(r.assets));
    FillCompletes(hash, job, r.assets);
    if missing == [] {
      assert r.assets + missing == r.assets;
      FinishDecides(hash, job, s, f);
    } else if f.upload.Delivered? {
      var s1 := Uploaded(s, missing, f.upload);
      assert s1.releases[0].assets == r.assets + missing;
      TagStays(job, s, s1);
      FinishDecides(hash, job, s1, f);
    }
  }

  /** From a resumable state what a run does and reports is decided by what fails alone:
      success is reported exactly when every command that was needed was answered. */
  lemma WeatherDecides(hash: Hash, job: Job, s: Remote, f: Weather)
    requires ValidJob(job) && Resumable(hash, job, s) && !Public(s)
    ensures var (next, outcome) := Run(hash, job, s, f);
            var missing := Missing(job.files, Names(PresentAssets(s)));
            && (outcome.Published? || outcome.Interrupted?)
            && (outcome.Published? <==> Opens(s, missing, f) && f.edit.Done? && f.stop >= 8)
            && |next.releases| == (if Drafts(s, f) then 1 else 0)
            && (Drafts(s, f) ==>
                  && next.releases[0].draft == !Opens(s, missing, f)
                  && next.releases[0].target == job.sha && next.releases[0].notes == job.notes
                  && next.releases[0].assets == PresentAssets(s) +
                       (if !Fills(s, f) || missing == [] then []
                        else if f.upload.Delivered? then missing
                        else Landing(Names(missing), f.upload.landed)))
            && next.tag == (if Opens(s, missing, f) && s.tag.None? then Some(Commit(job.sha)) else s.tag)
  {
    hide Fill, Missing, AllGenuine, Landing, Names, Exact;
    if s.releases == [] {
      NothingGenuine(hash, job);
      TagStays(job, s, Created(s, job));
      FillDecides(hash, job, Created(s, job), f);
    } else {
      assert s.releases[0].draft;
      FillDecides(hash, job, s, f);
    }
  }

  /** What a failed verification says of a release. */
  ghost predicate DiffersBy(hash: Hash, job: Job, r: Release, reason: Refusal) {
    match reason
    case UnexpectedAssets => !DistinctNames(r.assets) || exists a :: a in r.assets && a.name !in Names(job.files)
    case IncompleteAssets => exists file :: file in job.files && file.name !in Names(r.assets)
    case AssetDiffers(name) =>
      exists a :: a in r.assets && a.name == name
                  && forall file :: file in job.files && file.name == name ==> hash(file.bytes) != hash(a.bytes)
    case _ => false
  }

  lemma {:induction false} FirstDifferentIs(hash: Hash, job: Job, assets: seq<Asset>)
    ensures FirstDifferent(hash, job, assets).Some? ==>
              exists a :: a in assets && Some(a.name) == FirstDifferent(hash, job, assets) && !Genuine(hash, job, a)
  {
    if assets != [] && Genuine(hash, job, assets[0]) {
      FirstDifferentIs(hash, job, assets[1..]);
    }
  }

  lemma VerifyRefusalMeans(hash: Hash, job: Job, r: Release, complete: bool)
    ensures var failure := VerifyAssets(hash, job, r, complete);
            failure.Some? ==> DiffersBy(hash, job, r, failure.value) && (failure.value.IncompleteAssets? ==> complete)
  {
    FirstDifferentIs(hash, job, r.assets);
    if Names(r.assets) <= Names(job.files) && Names(r.assets) != Names(job.files) {
      var name :| name in Names(job.files) && name !in Names(r.assets);
      var file :| file in job.files && file.name == name;
    }
  }

  /** What each refusal says of the remote. */
  ghost predicate RefusalJustified(hash: Hash, job: Job, s: Remote, reason: Refusal) {
    match reason
    case InvalidTagObject => TagCommit(s.tag) == Err(InvalidTagObject)
    case UnresolvedTag => TagCommit(s.tag) == Err(UnresolvedTag)
    case TagElsewhere =>
      TagCommit(s.tag).Ok? && TagCommit(s.tag).value.Some? && TagCommit(s.tag).value.value != job.sha
    case SeveralReleases => |s.releases| > 1
    case NotesDiffer => |s.releases| == 1 && s.releases[0].notes != job.notes
    case PublishedUntagged => |s.releases| == 1 && !s.releases[0].draft && s.tag == None
    case DraftElsewhere => |s.releases| == 1 && s.releases[0].draft && s.releases[0].target != job.sha
    case DraftChanged => false
    case _ =>
      && |s.releases| == 1 && DiffersBy(hash, job, s.releases[0], reason)
      && (reason.IncompleteAssets? ==> !s.releases[0].draft)
  }

  /** A refusal, under any conditions, says what is wrong with the remote, and leaves it so. */
  lemma RefusalMeans(hash: Hash, job: Job, s: Remote, f: Weather)
    requires ValidJob(job) && Run(hash, job, s, f).1.Refused?
    ensures Run(hash, job, s, f).0 == s && RefusalJustified(hash, job, s, Run(hash, job, s, f).1.reason)
  {
    if Resumable(hash, job, s) {
      hide Run;
      if Public(s) {
        PublishedDecides(hash, job, s, f);
      } else {
        WeatherDecides(hash, job, s, f);
      }
      assert false;
    } else {
      UnresumableUntouched(hash, job, s, f);
      UnresumableRefusal(hash, job, s, f);
    }
  }

  lemma UnresumableRefusal(hash: Hash, job: Job, s: Remote, f: Weather)
    requires ValidJob(job) && !Resumable(hash, job, s) && Run(hash, job, s, f).1.Refused?
    ensures RefusalJustified(hash, job, s, Run(hash, job, s, f).1.reason)
  {
    TagRefusals(s.tag);
    if |s.releases| == 1 {
      VerifyRefusalMeans(hash, job, s.releases[0], false);
      VerifyRefusalMeans(hash, job, s.releases[0], true);
      VerifyMeans(hash, job, s.releases[0], false);
      VerifyMeans(hash, job, s.releases[0], true);
    }
    hide VerifyAssets, Genuine, Names, DistinctNames, ValidJob, Finish, DiffersBy, TagCommit;
  }

  lemma TagRefusals(tag: Option<GitObject>)
    ensures TagCommit(tag).Err? ==> TagCommit(tag).error in {InvalidTagObject, UnresolvedTag}
    ensures tag.None? <==> TagCommit(tag) == Ok(None)
  {
    if tag.Some? {
      PeelRefusals(tag.value, 5);
    }
  }

  lemma {:induction false} PeelRefusals(ref: GitObject, depth: nat)
    ensures Peel(ref, depth).Err? ==> Peel(ref, depth).error in {InvalidTagObject, UnresolvedTag}
    decreases depth
  {
    if depth > 0 && ref.Annotated? {
      PeelRefusals(ref.target, depth - 1);
    }
  }

  /** Once published, a run looks at it and either says so or is interrupted before it can. */
  lemma PublishedDecides(hash: Hash, job: Job, s: Remote, f: Weather)
    requires ValidJob(job) && Resumable(hash, job, s) && Public(s)
    ensures Run(hash, job, s, f) == (s, if f.stop >= 3 then AlreadyPublished else Interrupted)
  {
    VerifyMeans(hash, job, s.releases[0], true);
  }

  lemma NothingGenuine(hash: Hash, job: Job)
    ensures AllGenuine(hash, job, [])
  {
  }

  // ----- recovering from failed runs of the same job

  /** What failed runs of one job leave behind. */
  ghost predicate LeftBy(hash: Hash, job: Job, s: Remote) {
    && TagAllows(job, s) && |s.releases| <= 1
    && (s.releases != [] ==>
          var r := s.releases[0];
          r.notes == job.notes && r.target == job.sha && DistinctNames(r.assets) && (!r.draft ==> Exact(hash, job, s)))
  }

  /** Every asset on the draft is whole. */
  ghost predicate Undamaged(hash: Hash, job: Job, s: Remote) {
    s.releases != [] ==> forall a :: a in s.releases[0].assets ==> Genuine(hash, job, a)
  }

  lemma {:induction false} LandingNames(requested: set<Name>, landed: seq<Asset>)
    ensures DistinctNames(Landing(requested, landed)) && Names(Landing(requested, landed)) <= requested
    ensures forall a :: a in Landing(requested, landed) ==> a in landed
    decreases |landed|
  {
    if landed != [] {
      if landed[0].name in requested {
        var rest := Landing(requested - {landed[0].name}, landed[1..]);
        LandingNames(requested - {landed[0].name}, landed[1..]);
        assert forall a :: a in rest ==> a.name in Names(rest);
        assert Landing(requested, landed) == [landed[0]] + rest;
      } else {
        LandingNames(requested, landed[1..]);
      }
    }
  }

  lemma UploadDistinct(job: Job, assets: seq<Asset>, reply: UploadReply)
    requires ValidJob(job) && DistinctNames(assets)
    ensures var missing := Missing(job.files, Names(assets));
            DistinctNames(assets + if reply.Delivered? then missing else Landing(Names(missing), reply.landed))
  {
    var missing := Missing(job.files, Names(assets));
    MissingNames(job.files, Names(assets));
    if reply.Cut? {
      LandingNames(Names(missing), reply.landed);
      DistinctJoin(assets, Landing(Names(missing), reply.landed));
    } else {
      DistinctJoin(assets, missing);
    }
  }

  lemma FillLeaves(hash: Hash, job: Job, s: Remote, f: Weather)
    requires ValidJob(job) && LeftBy(hash, job, s) && OwnDraft(job, s)
    ensures LeftBy(hash, job, Fill(hash, job, s, f).0)
  {
    FillIsSafe(hash, job, s, f);
    UploadDistinct(job, s.releases[0].assets, f.upload);
  }

  lemma RunLeaves(hash: Hash, job: Job, s: Remote, f: Weather)
    requires ValidJob(job) && LeftBy(hash, job, s)
    ensures LeftBy(hash, job, Run(hash, job, s, f).0)
  {
    hide Fill, TagAllows, Exact, ValidJob, Recheck;
    if s.releases == [] {
      var s1 := Created(s, job);
      TagStays(job, s, s1);
      FillLeaves(hash, job, s1, f);
    } else if s.releases[0].draft {
      FillLeaves(hash, job, s, f);
    }
  }

  lemma {:induction false} HistoryLeaves(hash: Hash, job: Job, s: Remote, h: seq<Attempt>)
    requires ValidJob(job) && LeftBy(hash, job, s) && forall a :: a in h ==> a.job == job
    ensures LeftBy(hash, job, After(hash, s, h))
    decreases |h|
  {
    if h != [] {
      RunLeaves(hash, job, s, h[0].weather);
      HistoryLeaves(hash, job, Run(hash, job, s, h[0].weather).0, h[1..]);
    }
  }

  /** From a remote without the version, after any failed runs of a job, one run
      without failures ends exactly published if and only if every asset that was
      left on the draft is whole. */
  lemma RecoveryIff(hash: Hash, job: Job, s: Remote, h: seq<Attempt>, f: Weather)
    requires ValidJob(job) && s.releases == [] && TagAllows(job, s) && Healthy(f)
    requires forall a :: a in h ==> a.job == job
    ensures var left, done := After(hash, s, h), Run(hash, job, After(hash, s, h), f);
            done.1 in {Published, AlreadyPublished} && Exact(hash, job, done.0) <==> Undamaged(hash, job, left)
  {
    var left := After(hash, s, h);
    HistoryLeaves(hash, job, s, h);
    CompletesIff(hash, job, left, f);
  }

  /** No upload of the history left a truncated asset. */
  ghost predicate WholeUploads(hash: Hash, job: Job, h: seq<Attempt>) {
    forall a :: a in h ==> a.weather.upload.Cut? ==> forall x :: x in a.weather.upload.landed ==> Genuine(hash, job, x)
  }

  lemma UploadUndamaged(hash: Hash, job: Job, assets: seq<Asset>, reply: UploadReply)
    requires ValidJob(job) && forall a :: a in assets ==> Genuine(hash, job, a)
    requires reply.Cut? ==> forall x :: x in reply.landed ==> Genuine(hash, job, x)
    ensures var missing := Missing(job.files, Names(assets));
            forall a :: a in assets + (if reply.Delivered? then missing else Landing(Names(missing), reply.landed)) ==>
                Genuine(hash, job, a)
  {
    var missing := Missing(job.files, Names(assets));
    MissingNames(job.files, Names(assets));
    if reply.Cut? {
      LandingNames(Names(missing), reply.landed);
    }
    forall a | a in missing ensures Genuine(hash, job, a) {
    }
  }

  lemma RunUndamaged(hash: Hash, job: Job, s: Remote, f: Weather)
    requires ValidJob(job) && Undamaged(hash, job, s)
    requires f.upload.Cut? ==> forall x :: x in f.upload.landed ==> Genuine(hash, job, x)
    ensures Undamaged(hash, job, Run(hash, job, s, f).0)
  {
    hide Genuine, Names, Missing, Landing, ValidJob, VerifyAssets, TagCommit, Recheck;
    if s.releases == [] {
      UploadUndamaged(hash, job, Created(s, job).releases[0].assets, f.upload);
    } else {
      UploadUndamaged(hash, job, s.releases[0].assets, f.upload);
    }
  }

  lemma {:induction false} WholeUploadsRecover(hash: Hash, job: Job, s: Remote, h: seq<Attempt>)
    requires ValidJob(job) && Undamaged(hash, job, s) && (forall a :: a in h ==> a.job == job)
             && WholeUploads(hash, job, h)
    ensures Undamaged(hash, job, After(hash, s, h))
    decreases |h|
  {
    if h != [] {
      RunUndamaged(hash, job, s, h[0].weather);
      assert WholeUploads(hash, job, h[1..]);
      WholeUploadsRecover(hash, job, Run(hash, job, s, h[0].weather).0, h[1..]);
    }
  }

  /** One cut upload can leave such an asset: the first run of a job creates the draft,
      and the connection breaks when an asset exists but has no bytes yet. */
  lemma UploadTruncates(hash: Hash, job: Job) returns (f: Weather)
    requires ValidJob(job) && job.files != [] && hash(job.files[0].bytes) != hash("")
    ensures var s := Run(hash, job, Remote([], None), f).0;
            s.releases != [] && s.releases[0].draft && !Undamaged(hash, job, s)
  {
    var file := job.files[0];
    var asset := Asset(file.name, "");
    f := Weather(CHECKPOINTS, Done, Cut([asset]), Done);
    var s := Created(Remote([], None), job);
    assert Missing(job.files, {}) == job.files by {
      AllMissing(job.files);
    }
    assert Names(s.releases[0].assets) == {} && file.name in Names(job.files);
    assert Landing(Names(job.files), [asset]) == [asset] by {
      assert [asset][1..] == [];
    }
    VerifyMeans(hash, job, s.releases[0], false);
    assert Run(hash, job, Remote([], None), f).0 == Extended(s, [asset]);
    assert !Genuine(hash, job, asset);
    assert asset in Extended(s, [asset]).releases[0].assets;
  }

  lemma {:induction false} AllMissing(files: seq<Asset>)
    ensures Missing(files, {}) == files
  {
    if files != [] {
      AllMissing(files[1..]);
      assert files == [files[0]] + files[1..];
    }
  }

  /** A truncated asset on the draft stops every later run of the job for good. */
  lemma {:induction false} TruncatedAssetBlocks(hash: Hash, job: Job, s: Remote, h: seq<Attempt>)
    requires ValidJob(job) && s.releases != [] && s.releases[0].draft && !Undamaged(hash, job, s)
    requires forall a :: a in h ==> a.job == job
    ensures After(hash, s, h) == s
    decreases |h|
  {
    if h != [] {
      VerifyMeans(hash, job, s.releases[0], false);
      TruncatedAssetBlocks(hash, job, s, h[1..]);
    }
  }

  /** A remote that a run without failures could not complete is left exactly as it is
      by every run of that job, whatever fails in it. */
  lemma UnresumableUntouched(hash: Hash, job: Job, s: Remote, f: Weather)
    requires ValidJob(job) && !Resumable(hash, job, s)
    ensures Run(hash, job, s, f).0 == s
    ensures Run(hash, job, s, f).1.Refused? || Run(hash, job, s, f).1.Interrupted?
  {
    if |s.releases| == 1 {
      VerifyMeans(hash, job, s.releases[0], false);
      VerifyMeans(hash, job, s.releases[0], true);
    }
    hide VerifyAssets, Genuine, Names, DistinctNames, ValidJob, Finish;
  }
}
