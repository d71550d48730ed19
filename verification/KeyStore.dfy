/** Signing keys encrypted under a key that the operating system's keyring holds.
    Every operation runs under the store's lock; what can fail in it is explicit. */
module KeyStore {
  import opened Wrappers

  type Name = string
  type StoreId = string
  type Secret = string
  type Home = string

  datatype IdFile = Identity(id: StoreId) | DamagedId

  datatype KeyFile = Sealed(secret: Secret, private: string) | TornKey

  datatype PubFile = Public(public: string) | TornPublic

  /** One key directory. */
  datatype Store = Store(id: Option<IdFile>, keys: map<Name, KeyFile>, pubs: map<Name, PubFile>)

  /** The keyring's slots, named by store id. */
  type Ring = map<StoreId, Secret>

  datatype WriteReply = Written | NotCreated | LeftTorn

  /** A keyring write may raise before or after it has stored the secret. */
  datatype SetReply = Stored | RaisedBefore | RaisedAfter

  /** How one operation fares. The four file steps of a key pair are: create the
      private file, fill it, create the public file, fill it; `fileSteps` succeed.
      `killed` tells a killed process from an exception, which is cleaned up. */
  datatype Weather = Weather(locked: bool, newId: StoreId, newSecret: Secret, idWrite: WriteReply,
                             ringReadable: bool, ringSet: SetReply, fileSteps: nat, killed: bool)

  datatype KeyError = Busy | InvalidIdentity | MissingIdentity | IdentityNotWritten | RingUnreadable
                    | SecretMissing | RingRefused | KeyExists | NoSuchKey | FilesNotWritten | Undecryptable

  const FILE_STEPS := 4

  predicate Healthy(f: Weather) {
    f.locked && f.idWrite.Written? && f.ringReadable && f.ringSet.Stored? && f.fileSteps >= FILE_STEPS
  }

  // ----- the operations on values

  function KeyId(s: Store, f: Weather): (Store, Result<StoreId, KeyError>) {
    match s.id
    case Some(Identity(id)) => (s, Ok(id))
    case Some(DamagedId) => (s, Err(InvalidIdentity))
    case None =>
      if s.keys != map[] then (s, Err(MissingIdentity))
      else match f.idWrite
        case Written => (s.(id := Some(Identity(f.newId))), Ok(f.newId))
        case NotCreated => (s, Err(IdentityNotWritten))
        case LeftTorn => (s.(id := Some(DamagedId)), Err(IdentityNotWritten))
  }

  function Fernet(s: Store, ring: Ring, f: Weather): (Store, Ring, Result<Secret, KeyError>) {
    var (s1, slot) := KeyId(s, f);
    if slot.Err? then (s1, ring, Err(slot.error))
    else if !f.ringReadable then (s1, ring, Err(RingUnreadable))
    else if slot.value in ring then (s1, ring, Ok(ring[slot.value]))
    else if s1.keys != map[] then (s1, ring, Err(SecretMissing))
    else
      var ring1 := if f.ringSet.RaisedBefore? then ring else ring[slot.value := f.newSecret];
      (s1, ring1, if f.ringSet.Stored? then Ok(f.newSecret) else Err(RingRefused))
  }

  /** The files after the given number of file steps. */
  function Files(s: Store, name: Name, sealed: KeyFile, public: string, steps: nat): Store {
    if steps == 0 then s
    else if steps == 1 then s.(keys := s.keys[name := TornKey])
    else if steps == 2 then s.(keys := s.keys[name := sealed])
    else if steps == 3 then s.(keys := s.keys[name := sealed], pubs := s.pubs[name := TornPublic])
    else s.(keys := s.keys[name := sealed], pubs := s.pubs[name := Public(public)])
  }

  function Generate(s: Store, ring: Ring, name: Name, private: string, public: string, f: Weather)
    : (Store, Ring, Option<KeyError>)
  {
    if !f.locked then (s, ring, Some(Busy))
    else if name in s.keys || name in s.pubs then (s, ring, Some(KeyExists))
    else
      var (s1, ring1, secret) := Fernet(s, ring, f);
      if secret.Err? then (s1, ring1, Some(secret.error))
      else if f.fileSteps >= FILE_STEPS then
        (Files(s1, name, Sealed(secret.value, private), public, FILE_STEPS), ring1, None)
      else if f.killed then
        (Files(s1, name, Sealed(secret.value, private), public, f.fileSteps), ring1, Some(FilesNotWritten))
      else (s1, ring1, Some(FilesNotWritten))
  }

  function LoadPrivate(s: Store, ring: Ring, name: Name, f: Weather): (Store, Ring, Result<string, KeyError>) {
    if !f.locked then (s, ring, Err(Busy))
    else if name !in s.keys then (s, ring, Err(NoSuchKey))
    else
      var (s1, ring1, secret) := Fernet(s, ring, f);
      if secret.Err? then (s1, ring1, Err(secret.error))
      else if s.keys[name].Sealed? && s.keys[name].secret == secret.value then (s1, ring1, Ok(s.keys[name].private))
      else (s1, ring1, Err(Undecryptable))
  }

  // ----- the operations as the program performs them

  class Keyring {
    var slots: Ring

    method Set(slot: StoreId, secret: Secret, reply: SetReply) returns (ok: bool)
      modifies this
      ensures slots == if reply.RaisedBefore? then old(slots) else old(slots)[slot := secret]
      ensures ok == reply.Stored?
    {
      if !reply.RaisedBefore? {
        slots := slots[slot := secret];
      }
      return reply.Stored?;
    }
  }

  class KeyDirectory {
    var id: Option<IdFile>
    var keys: map<Name, KeyFile>
    var pubs: map<Name, PubFile>
    const ring: Keyring

    constructor (ring: Keyring)
      ensures this.ring == ring && Contents() == Store(None, map[], map[])
    {
      id, keys, pubs, this.ring := None, map[], map[], ring;
    }

    function Contents(): Store
      reads this
    {
      Store(id, keys, pubs)
    }

    method EncryptionKeyId(f: Weather) returns (r: Result<StoreId, KeyError>)
      modifies this`id
      ensures (Contents(), r) == KeyId(old(Contents()), f)
    {
      if id.Some? {
        return if id.value.Identity? then Ok(id.value.id) else Err(InvalidIdentity);
      }
      if keys != map[] {
        return Err(MissingIdentity);
      }
      if f.idWrite.NotCreated? {
        return Err(IdentityNotWritten);
      }
      id := Some(DamagedId);
      if f.idWrite.LeftTorn? {
        return Err(IdentityNotWritten);
      }
      id := Some(Identity(f.newId));
      return Ok(f.newId);
    }

    method OpenFernet(f: Weather) returns (r: Result<Secret, KeyError>)
      modifies this`id, ring
      ensures (Contents(), ring.slots, r) == Fernet(old(Contents()), old(ring.slots), f)
    {
      var slot := EncryptionKeyId(f);
      if slot.Err? {
        return Err(slot.error);
      }
      if !f.ringReadable {
        return Err(RingUnreadable);
      }
      if slot.value in ring.slots {
        return Ok(ring.slots[slot.value]);
      }
      if keys != map[] {
        return Err(SecretMissing);
      }
      var stored := ring.Set(slot.value, f.newSecret, f.ringSet);
      return if stored then Ok(f.newSecret) else Err(RingRefused);
    }

    method GenerateAndStore(name: Name, private: string, public: string, f: Weather) returns (error: Option<KeyError>)
      modifies this, ring
      ensures (Contents(), ring.slots, error) == Generate(old(Contents()), old(ring.slots), name, private, public, f)
    {
      if !f.locked {
        return Some(Busy);
      }
      if name in keys || name in pubs {
        return Some(KeyExists);
      }
      var secret := OpenFernet(f);
      if secret.Err? {
        return Some(secret.error);
      }
      var complete := StoreFiles(name, Sealed(secret.value, private), public, f);
      return if complete then None else Some(FilesNotWritten);
    }

    /** Create and fill both files, removing them again when that fails. */
    method StoreFiles(name: Name, sealed: KeyFile, public: string, f: Weather) returns (complete: bool)
      requires name !in keys && name !in pubs
      modifies this`keys, this`pubs
      ensures complete <==> f.fileSteps >= FILE_STEPS
      ensures Contents() == if !complete && !f.killed then old(Contents())
                            else var steps := if complete then FILE_STEPS else f.fileSteps;
                                 Files(old(Contents()), name, sealed, public, steps)
    {
      ghost var before := Contents();
      var done := 0;
      while done < FILE_STEPS && done < f.fileSteps
        invariant done <= FILE_STEPS && done <= f.fileSteps
        invariant Contents() == Files(before, name, sealed, public, done)
      {
        match done {
          case 0 => keys := keys[name := TornKey];
          case 1 => keys := keys[name := sealed];
          case 2 => pubs := pubs[name := TornPublic];
          case _ => pubs := pubs[name := Public(public)];
        }
        done := done + 1;
      }
      if done < FILE_STEPS && !f.killed {
        keys, pubs := keys - {name}, pubs - {name};
        assert keys == before.keys && pubs == before.pubs;
      }
      return done == FILE_STEPS;
    }

    method LoadPrivateKey(name: Name, f: Weather) returns (r: Result<string, KeyError>)
      modifies this`id, ring
      ensures (Contents(), ring.slots, r) == LoadPrivate(old(Contents()), old(ring.slots), name, f)
    {
      if !f.locked {
        return Err(Busy);
      }
      if name !in keys {
        return Err(NoSuchKey);
      }
      var file := keys[name];
      var secret := OpenFernet(f);
      if secret.Err? {
        return Err(secret.error);
      }
      return if file.Sealed? && file.secret == secret.value then Ok(file.private) else Err(Undecryptable);
    }
  }

  // ----- what one operation keeps, from any state

  datatype Op =
    | GenerateOp(name: Name, private: string, public: string, weather: Weather)
    | LoadOp(name: Name, weather: Weather)

  function Do(s: Store, ring: Ring, op: Op): (Store, Ring) {
    match op
    case GenerateOp(name, private, public, f) => var r := Generate(s, ring, name, private, public, f); (r.0, r.1)
    case LoadOp(name, f) => var r := LoadPrivate(s, ring, name, f); (r.0, r.1)
  }

  lemma FernetKeeps(s: Store, ring: Ring, f: Weather)
    ensures var (s1, ring1, r) := Fernet(s, ring, f);
            && s1.keys == s.keys && s1.pubs == s.pubs && (s.id.Some? ==> s1.id == s.id)
            && (forall slot :: slot in ring ==> slot in ring1 && ring1[slot] == ring[slot])
            && (forall slot :: slot in ring1 && slot !in ring ==> s1.id == Some(Identity(slot)) && s.keys == map[])
            && (s.keys != map[] ==> s1.id == s.id && ring1 == ring)
            && (r.Ok? ==>
                 && s1.id.Some? && s1.id.value.Identity? && s1.id.value.id in ring1
                 && ring1[s1.id.value.id] == r.value)
  {
  }

  /** Nothing that exists changes: key files, the identity, and every keyring slot;
      at most the slot the identity names is new. */
  lemma NothingReplaced(s: Store, ring: Ring, op: Op)
    ensures var (s1, ring1) := Do(s, ring, op);
            && (forall name :: name in s.keys ==> name in s1.keys && s1.keys[name] == s.keys[name])
            && (forall name :: name in s.pubs ==> name in s1.pubs && s1.pubs[name] == s.pubs[name])
            && (s.id.Some? ==> s1.id == s.id)
            && (forall slot :: slot in ring ==> slot in ring1 && ring1[slot] == ring[slot])
            && (forall slot :: slot in ring1 && slot !in ring ==> s1.id == Some(Identity(slot)) && s.keys == map[])
  {
    hide Fernet;
    FernetKeeps(s, ring, op.weather);
  }

  /** While any private key file exists, no operation changes the identity or the keyring,
      even if one of them has been lost. */
  lemma KeysFreezeTheSlot(s: Store, ring: Ring, op: Op)
    requires s.keys != map[]
    ensures var (s1, ring1) := Do(s, ring, op); s1.id == s.id && ring1 == ring
  {
    hide Fernet;
    FernetKeeps(s, ring, op.weather);
  }

  /** Loading is read-only. */
  lemma LoadChangesNothing(s: Store, ring: Ring, name: Name, f: Weather)
    ensures LoadPrivate(s, ring, name, f).0 == s && LoadPrivate(s, ring, name, f).1 == ring
  {
    if name in s.keys {
      assert s.keys != map[];
    }
  }

  /** A generation that fails without being killed leaves no files behind. */
  lemma FailedGenerationLeavesNoFiles(s: Store, ring: Ring, name: Name, private: string, public: string, f: Weather)
    requires Generate(s, ring, name, private, public, f).2.Some? && !f.killed
    ensures Generate(s, ring, name, private, public, f).0.keys == s.keys
            && Generate(s, ring, name, private, public, f).0.pubs == s.pubs
  {
  }

  // ----- many key directories over one keyring

  /** Key directories, each with its own lock, that share the user's keyring. */
  datatype System = System(homes: map<Home, Store>, ring: Ring)

  datatype Act = Act(home: Home, op: Op)

  const NO_STORE := Store(None, map[], map[])

  function At(m: System, home: Home): Store {
    if home in m.homes then m.homes[home] else NO_STORE
  }

  function After(m: System, h: seq<Act>): System
    decreases |h|
  {
    if h == [] then m
    else
      var (s1, ring1) := Do(At(m, h[0].home), m.ring, h[0].op);
      After(System(m.homes[h[0].home := s1], ring1), h[1..])
  }

  /** Every private key file is backed by the slot its directory's identity names, and
      every one that is not torn is sealed with the secret in that slot. */
  ghost predicate Backed(s: Store, ring: Ring) {
    s.keys != map[] ==>
      && s.id.Some? && s.id.value.Identity? && s.id.value.id in ring
      && forall name :: name in s.keys && s.keys[name].Sealed? ==> s.keys[name].secret == ring[s.id.value.id]
  }

  ghost predicate AllBacked(m: System) {
    forall home :: home in m.homes ==> Backed(m.homes[home], m.ring)
  }

  predicate Grows(ring: Ring, next: Ring) {
    forall slot :: slot in ring ==> slot in next && next[slot] == ring[slot]
  }

  lemma FilesBacked(s: Store, ring: Ring, name: Name, secret: Secret, private: string, public: string, steps: nat)
    requires Backed(s, ring) && s.id.Some? && s.id.value.Identity? && s.id.value.id in ring
             && ring[s.id.value.id] == secret
    ensures Backed(Files(s, name, Sealed(secret, private), public, steps), ring)
  {
  }

  lemma FernetBacked(s: Store, ring: Ring, f: Weather)
    requires Backed(s, ring)
    ensures Backed(Fernet(s, ring, f).0, Fernet(s, ring, f).1)
  {
    hide Fernet;
    FernetKeeps(s, ring, f);
  }

  lemma DoBacked(s: Store, ring: Ring, op: Op)
    requires Backed(s, ring)
    ensures Backed(Do(s, ring, op).0, Do(s, ring, op).1) && Grows(ring, Do(s, ring, op).1)
  {
    hide Fernet, Backed, Files;
    var f := op.weather;
    var (s1, ring1, secret) := Fernet(s, ring, f);
    FernetKeeps(s, ring, f);
    FernetBacked(s, ring, f);
    if op.GenerateOp? && secret.Ok? {
      FilesBacked(s1, ring1, op.name, secret.value, op.private, op.public, FILE_STEPS);
      FilesBacked(s1, ring1, op.name, secret.value, op.private, op.public, f.fileSteps);
    }
  }

  lemma BackedGrows(s: Store, ring: Ring, next: Ring)
    requires Backed(s, ring) && Grows(ring, next)
    ensures Backed(s, next)
  {
  }

  /** In every run, over any number of directories and with any failures: every stored
      key stays decryptable under its directory's slot, and no slot is written twice. */
  lemma {:induction false} KeysStayBacked(m: System, h: seq<Act>)
    requires AllBacked(m)
    ensures AllBacked(After(m, h)) && Grows(m.ring, After(m, h).ring)
    decreases |h|
  {
    hide Backed, Do;
    if h != [] {
      var (s1, ring1) := Do(At(m, h[0].home), m.ring, h[0].op);
      EmptyBacked(m.ring);
      DoBacked(At(m, h[0].home), m.ring, h[0].op);
      var next := System(m.homes[h[0].home := s1], ring1);
      forall home | home in next.homes ensures Backed(next.homes[home], ring1) {
        if home != h[0].home {
          BackedGrows(m.homes[home], m.ring, ring1);
        }
      }
      KeysStayBacked(next, h[1..]);
    }
  }

  lemma EmptyBacked(ring: Ring)
    ensures Backed(NO_STORE, ring)
  {
  }

  /** What a directory holds under a name never changes, in any run from any state. */
  lemma {:induction false} FilesNeverReplaced(m: System, h: seq<Act>, home: Home, name: Name)
    ensures name in At(m, home).keys ==>
              && name in At(After(m, h), home).keys
              && At(After(m, h), home).keys[name] == At(m, home).keys[name]
    ensures name in At(m, home).pubs ==>
              && name in At(After(m, h), home).pubs
              && At(After(m, h), home).pubs[name] == At(m, home).pubs[name]
    decreases |h|
  {
    hide Do;
    if h != [] {
      var (s1, ring1) := Do(At(m, h[0].home), m.ring, h[0].op);
      NothingReplaced(At(m, h[0].home), m.ring, h[0].op);
      FilesNeverReplaced(System(m.homes[h[0].home := s1], ring1), h[1..], home, name);
    }
  }

  // ----- generating and loading

  /** An undisturbed generation succeeds exactly when the name is free and the identity
      and its slot are intact, or there is no key yet that could need them. */
  predicate CanGenerate(s: Store, ring: Ring, name: Name) {
    && name !in s.keys && name !in s.pubs && s.id != Some(DamagedId)
    && (s.keys != map[] ==> s.id.Some? && s.id.value.Identity? && s.id.value.id in ring)
  }

  lemma GenerateIff(s: Store, ring: Ring, name: Name, private: string, public: string, f: Weather)
    requires Healthy(f)
    ensures Generate(s, ring, name, private, public, f).2.None? <==> CanGenerate(s, ring, name)
  {
  }

  /** The slot that a directory uses or would name. */
  function SlotOf(s: Store, f: Weather): StoreId {
    if s.id.Some? && s.id.value.Identity? then s.id.value.id else f.newId
  }

  /** Under any conditions: a generation succeeds exactly when it gets the lock, could succeed
      undisturbed, and what it needs works: the identity written if there is none, the
      keyring read, the slot filled if it is empty, and the files written. */
  lemma GenerateOutcome(s: Store, ring: Ring, name: Name, private: string, public: string, f: Weather)
    ensures Generate(s, ring, name, private, public, f).2.None? <==>
            && f.locked && CanGenerate(s, ring, name)
            && (s.id.None? ==> f.idWrite.Written?)
            && f.ringReadable && (SlotOf(s, f) !in ring ==> f.ringSet.Stored?)
            && f.fileSteps >= 4
    ensures Generate(s, ring, name, private, public, f).2.None? ==>
              var slot := SlotOf(s, f);
              var secret := if slot in ring then ring[slot] else f.newSecret;
              Generate(s, ring, name, private, public, f) ==
              (Store(Some(Identity(slot)), s.keys[name := Sealed(secret, private)], s.pubs[name := Public(public)]),
               if slot in ring then ring else ring[slot := f.newSecret], None)
  {
  }

  /** The generation gets as far as the identity. */
  predicate AsksForId(s: Store, name: Name, f: Weather) {
    f.locked && name !in s.keys && name !in s.pubs
  }

  /** It gets as far as the keyring slot. */
  predicate AsksForSlot(s: Store, ring: Ring, name: Name, f: Weather) {
    f.locked && CanGenerate(s, ring, name) && (s.id.None? ==> f.idWrite.Written?) && f.ringReadable
  }

  /** It gets as far as the files. */
  predicate WritesFiles(s: Store, ring: Ring, name: Name, f: Weather) {
    AsksForSlot(s, ring, name, f) && (SlotOf(s, f) !in ring ==> f.ringSet.Stored?)
  }

  /** What a generation leaves, whatever fails: the identity is written where there is none
      and no key, an empty slot is filled, and a killed process leaves the files that it had
      written so far. */
  lemma GenerateLeaves(s: Store, ring: Ring, name: Name, private: string, public: string, f: Weather)
    ensures var (next, ring', error) := Generate(s, ring, name, private, public, f);
            var steps := if WritesFiles(s, ring, name, f) && (f.killed || f.fileSteps >= 4) then f.fileSteps else 0;
            && next.id == (if !AsksForId(s, name, f) || s.id.Some? || s.keys != map[] || f.idWrite.NotCreated? then s.id
                           else Some(if f.idWrite.Written? then Identity(f.newId) else DamagedId))
            && ring' == (if AsksForSlot(s, ring, name, f) && SlotOf(s, f) !in ring && !f.ringSet.RaisedBefore?
                         then ring[SlotOf(s, f) := f.newSecret] else ring)
            && next.keys == (if steps == 0 then s.keys
                             else if steps == 1 then s.keys[name := TornKey]
                             else s.keys[name := Sealed(ring'[SlotOf(s, f)], private)])
            && next.pubs == (if steps <= 2 then s.pubs
                             else if steps == 3 then s.pubs[name := TornPublic]
                             else s.pubs[name := Public(public)])
  {
  }

  /** What each error of a generation says of the store, the keyring and the conditions. */
  lemma GenerateRefusalMeans(s: Store, ring: Ring, name: Name, private: string, public: string, f: Weather)
    requires Generate(s, ring, name, private, public, f).2.Some?
    ensures var e := Generate(s, ring, name, private, public, f).2.value;
            && (e == Busy <==> !f.locked)
            && (e == KeyExists <==> f.locked && (name in s.keys || name in s.pubs))
            && (e == InvalidIdentity <==> AsksForId(s, name, f) && s.id == Some(DamagedId))
            && (e == MissingIdentity <==> AsksForId(s, name, f) && s.id == None && s.keys != map[])
            && (e == IdentityNotWritten <==>
                  AsksForId(s, name, f) && s.id == None && s.keys == map[] && !f.idWrite.Written?)
            && (e == SecretMissing ==> s.keys != map[] && SlotOf(s, f) !in ring)
            && (e == RingUnreadable ==> !f.ringReadable)
            && (e == RingRefused ==> AsksForSlot(s, ring, name, f) && SlotOf(s, f) !in ring && !f.ringSet.Stored?)
            && (e == FilesNotWritten <==> WritesFiles(s, ring, name, f) && f.fileSteps < 4)
            && e != NoSuchKey && e != Undecryptable
  {
  }

  /** Under any conditions a key loads exactly when the lock and the keyring are had, and the
      slot that the identity names holds the secret that the file is sealed with. */
  lemma LoadIff(s: Store, ring: Ring, name: Name, f: Weather, private: string)
    ensures LoadPrivate(s, ring, name, f).2 == Ok(private) <==>
            && f.locked && f.ringReadable && name in s.keys
            && s.id.Some? && s.id.value.Identity? && s.id.value.id in ring
            && s.keys[name] == Sealed(ring[s.id.value.id], private)
  {
  }

  /** In a run from backed stores only a used name or an identity file torn before any key
      existed stands in the way. */
  lemma BlockedOnlyByTornIdentity(s: Store, ring: Ring, name: Name, private: string, public: string, f: Weather)
    requires Backed(s, ring) && Healthy(f)
    ensures Generate(s, ring, name, private, public, f).2.Some? <==>
            name in s.keys || name in s.pubs || s.id == Some(DamagedId)
    ensures s.id == Some(DamagedId) ==> s.keys == map[]
  {
  }

  /** An identity file is left torn when the very first generation of a directory stops
      while it writes that file. */
  lemma IdentityIsTorn(ring: Ring, name: Name, private: string, public: string, f: Weather)
    requires f.locked && f.idWrite.LeftTorn?
    ensures var end := After(System(map[], ring), [Act("home", GenerateOp(name, private, public, f))]);
            At(end, "home").id == Some(DamagedId)
  {
    var act := Act("home", GenerateOp(name, private, public, f));
    assert [act][1..] == [];
  }

  /** A torn identity stays, whatever is done afterwards in any directory ... */
  lemma {:induction false} TornIdentityStays(m: System, h: seq<Act>, home: Home)
    requires At(m, home).id == Some(DamagedId)
    ensures At(After(m, h), home).id == Some(DamagedId)
    decreases |h|
  {
    hide Do;
    if h != [] {
      var (s1, ring1) := Do(At(m, h[0].home), m.ring, h[0].op);
      NothingReplaced(At(m, h[0].home), m.ring, h[0].op);
      TornIdentityStays(System(m.homes[h[0].home := s1], ring1), h[1..], home);
    }
  }

  /** ... and from then on the directory generates and loads nothing, under any conditions. */
  lemma TornIdentityBlocks(m: System, h: seq<Act>, home: Home, name: Name, private: string, public: string, f: Weather)
    requires At(m, home).id == Some(DamagedId)
    ensures var end := After(m, h);
            && Generate(At(end, home), end.ring, name, private, public, f).2.Some?
            && LoadPrivate(At(end, home), end.ring, name, f).2.Err?
  {
    TornIdentityStays(m, h, home);
  }

  lemma GeneratedIs(s: Store, ring: Ring, name: Name, private: string, public: string, f: Weather)
    requires Generate(s, ring, name, private, public, f).2.None?
    ensures var s1 := Generate(s, ring, name, private, public, f).0;
            && name in s1.keys && s1.keys[name].Sealed? && s1.keys[name].private == private
            && name in s1.pubs && s1.pubs[name] == Public(public)
  {
  }

  lemma BackedLoads(s: Store, ring: Ring, name: Name, f: Weather)
    requires Backed(s, ring) && name in s.keys && s.keys[name].Sealed? && f.locked && f.ringReadable
    ensures LoadPrivate(s, ring, name, f).2 == Ok(s.keys[name].private)
  {
  }

  /** What was generated can be loaded: after any run over all directories, any load of
      the name that gets the lock and reads the keyring returns the generated key. */
  lemma GeneratedLoads(m: System, home: Home, name: Name, private: string, public: string, f: Weather, h: seq<Act>,
                       g: Weather)
    requires AllBacked(m) && g.locked && g.ringReadable
    requires Generate(At(m, home), m.ring, name, private, public, f).2.None?
    ensures var end := After(m, [Act(home, GenerateOp(name, private, public, f))] + h);
            LoadPrivate(At(end, home), end.ring, name, g).2 == Ok(private)
  {
    hide Generate, LoadPrivate, Backed;
    var act := Act(home, GenerateOp(name, private, public, f));
    var (s1, ring1) := Do(At(m, home), m.ring, act.op);
    var next := System(m.homes[home := s1], ring1);
    assert After(m, [act]) == next && After(m, [act] + h) == After(next, h) by {
      assert [act][1..] == [] && ([act] + h)[1..] == h;
      assert After(next, []) == next;
    }
    GeneratedIs(At(m, home), m.ring, name, private, public, f);
    KeysStayBacked(m, [act] + h);
    FilesNeverReplaced(next, h, home, name);
    var end := After(next, h);
    assert home in end.homes by {
      StillThere(next, h, home);
    }
    BackedLoads(At(end, home), end.ring, name, g);
  }

  lemma {:induction false} StillThere(m: System, h: seq<Act>, home: Home)
    requires home in m.homes
    ensures home in After(m, h).homes
    decreases |h|
  {
    if h != [] {
      var (s1, ring1) := Do(At(m, h[0].home), m.ring, h[0].op);
      StillThere(System(m.homes[h[0].home := s1], ring1), h[1..], home);
    }
  }
}
