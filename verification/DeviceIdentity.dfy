/** The persistent device identity: a disk of rows, one atomic step at a time, any of which may fault or
    be the last thing the process does. */
module DeviceIdentity {
  import opened Basics

  type Kek = nat
  type Seed = bytes
  type PubKey = string

  /** AES-KW (section 2.2 of RFC 3394): what is wrapped under a key unwraps under that key alone. */
  datatype Wrapped = Wrapped(kek: Kek, secret: Seed)

  datatype Curve = Curve(derive: Seed -> PubKey) {
    function Pub(seed: Seed): PubKey { derive(seed) }
  }

  /** A stored wrapping key: raw bytes, a CryptoKey, or something that is neither. */
  datatype KekEntry = Raw(kek: Kek) | Handle(kek: Kek) | Junk

  /** The private key half is absent where WebCrypto has no Ed25519. */
  datatype StoredIdentity = StoredIdentity(publicKey: PubKey, wrappedPrivateKey: Option<Wrapped>)

  datatype Name = X25519Keypair | SealedX25519 | ProfileSeed | RoomHostSeed

  /** The identity database, and the separate database of the wrapping key. */
  datatype Disk = Disk(device: Option<StoredIdentity>, rawSeed: Option<Wrapped>, legacyKek: Option<KekEntry>, residue: set<Name>, kek: Option<KekEntry>)

  function KeyOf(e: Option<KekEntry>): Option<Kek> {
    if e == None || e.value == Junk then None else Some(e.value.kek)
  }

  predicate Holds(d: Disk, k: Kek) { KeyOf(d.kek) == Some(k) || KeyOf(d.legacyKek) == Some(k) }

  predicate HasPair(d: Disk) { d.device.Some? && d.rawSeed.Some? }

  /** The record is absent, seedless, or a pair whose seed derives the stored key and which unwraps under
      one of the two keys on disk. */
  predicate Safe(d: Disk, curve: Curve) {
    HasPair(d) ==>
      && curve.Pub(d.rawSeed.value.secret) == d.device.value.publicKey
      && Holds(d, d.rawSeed.value.kek)
      && (d.device.value.wrappedPrivateKey.Some? ==> d.device.value.wrappedPrivateKey.value.kek == d.rawSeed.value.kek)
  }

  /** Cut: the process ends here. */
  datatype Fault = Unavailable | Quota | Broken | Cut

  datatype Failure = Storage(fault: Fault) | BadKek | WrongKey | SplitPair

  datatype Identity = Identity(publicKey: PubKey, seed: Option<Seed>)

  /** What getOrCreateDeviceIdentity comes back with. */
  datatype Boot = Persisted(id: Identity) | Ephemeral(id: Identity) | Failed(why: Failure)

  /** What the runtime can do: WebCrypto Ed25519, and structured clone of a CryptoKey. */
  datatype Runtime = Runtime(ed25519: bool, canClone: bool)

  /** Fresh key material for one call. */
  datatype Fresh = Fresh(kek: Kek, seed: Seed, ephemeral: Seed)

  class Device {
    const curve: Curve
    const runtime: Runtime
    var disk: Disk
    var cachedIdentity: Option<Identity>
    var cachedWrappingKey: Option<Kek>
    /** How the storage calls to come will end; past its end they succeed. */
    var script: seq<Option<Fault>>

    constructor (curve: Curve, runtime: Runtime, disk: Disk)
      ensures this.curve == curve && this.runtime == runtime && this.disk == disk
      ensures cachedIdentity == None && cachedWrappingKey == None && script == []
    {
      this.curve, this.runtime, this.disk := curve, runtime, disk;
      cachedIdentity, cachedWrappingKey, script := None, None, [];
    }

    ghost predicate Valid()
      reads this
    {
      && Safe(disk, curve)
      && CacheIsDurable(disk, cachedIdentity, cachedWrappingKey)
    }

    /** One storage call: whether it faults. */
    method Touch() returns (fault: Option<Fault>)
      modifies this`script
      ensures old(script) == [] ==> fault == None && script == []
    {
      if script == [] { return None; }
      fault, script := script[0], script[1..];
    }

    method SaveKek(entry: KekEntry) returns (fault: Option<Fault>)
      modifies this`script, this`disk
      ensures disk == if fault == None then old(disk).(kek := Some(entry)) else old(disk)
      ensures old(script) == [] ==> fault == None && script == []
    {
      fault := Touch();
      if fault == None { disk := disk.(kek := Some(entry)); }
    }

    /** saveMany: the seed and its record in one transaction. */
    method SavePair(seed: Wrapped, stored: StoredIdentity) returns (fault: Option<Fault>)
      modifies this`script, this`disk
      ensures disk == if fault == None then old(disk).(rawSeed := Some(seed), device := Some(stored)) else old(disk)
      ensures old(script) == [] ==> fault == None && script == []
    {
      fault := Touch();
      if fault == None { disk := disk.(rawSeed := Some(seed), device := Some(stored)); }
    }

    /** A pre-migration key, copied forward when it can be; a failed copy is survivable. */
    method AdoptLegacyWrappingKey() returns (r: Result<Option<Kek>, Failure>)
      requires disk.kek == None
      modifies this`script, this`disk
      ensures disk == old(disk) || (KeyOf(disk.legacyKek).Some? && disk == old(disk).(kek := disk.legacyKek))
      ensures r.Ok? && r.value.Some? ==> r.value == KeyOf(disk.legacyKek)
      ensures r.Err? ==> r.error == Storage(Cut)
      ensures old(script) == [] ==> script == [] && r == Ok(KeyOf(disk.legacyKek))
    {
      var fault := Touch();
      if fault == Some(Cut) { return Err(Storage(Cut)); }
      if fault.Some? { return Ok(None); }
      if disk.legacyKek == None { return Ok(None); }
      var entry := disk.legacyKek.value;
      if entry.Junk? { return Ok(None); }
      if entry.Raw? || runtime.canClone {
        fault := SaveKek(entry);
        if fault == Some(Cut) { return Err(Storage(Cut)); }
      }
      return Ok(Some(entry.kek));
    }

    method GetOrCreateWrappingKey(newKek: Kek) returns (r: Result<Kek, Failure>)
      requires Valid()
      modifies this`script, this`disk, this`cachedWrappingKey
      ensures Valid() && KekStep(old(disk), disk)
      ensures r.Ok? ==> cachedWrappingKey == Some(r.value) && Holds(disk, r.value)
      ensures old(script) == [] ==> script == [] && r == Resolved(old(disk), old(cachedWrappingKey), newKek)
    {
      if cachedWrappingKey.Some? { return Ok(cachedWrappingKey.value); }
      var fault := Touch();
      if fault.Some? { return Err(Storage(fault.value)); }
      if disk.kek.Some? {
        var entry := disk.kek.value;
        if entry.Junk? { return Err(BadKek); }
        cachedWrappingKey := Some(entry.kek);
        return Ok(entry.kek);
      }
      var adopted := AdoptLegacyWrappingKey();
      if adopted.Err? { return Err(adopted.error); }
      if adopted.value.Some? {
        cachedWrappingKey := adopted.value;
        return Ok(adopted.value.value);
      }
      fault := SaveKek(if runtime.canClone then Handle(newKek) else Raw(newKek));
      if fault.Some? { return Err(Storage(fault.value)); }
      cachedWrappingKey := Some(newKek);
      return Ok(newKek);
    }

    /** Checks every half against the key, and the seed against the record. */
    method UnwrapIdentityWith(stored: StoredIdentity, k: Kek) returns (r: Result<Identity, Failure>)
      modifies this`script
      ensures r.Ok? ==> r == Unwrapped(disk, stored, k, runtime, curve)
      ensures old(script) == [] ==> script == [] && r == Unwrapped(disk, stored, k, runtime, curve)
    {
      if stored.wrappedPrivateKey.Some? && runtime.ed25519 && stored.wrappedPrivateKey.value.kek != k { return Err(WrongKey); }
      var fault := Touch();
      if fault.Some? { return Err(Storage(fault.value)); }
      if disk.rawSeed == None { return Ok(Identity(stored.publicKey, None)); }
      var w := disk.rawSeed.value;
      if w.kek != k { return Err(WrongKey); }
      if curve.Pub(w.secret) != stored.publicKey { return Err(SplitPair); }
      return Ok(Identity(stored.publicKey, Some(w.secret)));
    }

    /** The last resort after a failed unwrap. The wrapping key row is overwritten only once the legacy
        key has proved to be the right one; only a cut stops the caller from reporting its own error. */
    method RecoverWithLegacyKey(stored: StoredIdentity) returns (r: Result<Option<Identity>, Failure>)
      requires Valid() && cachedIdentity == None && disk.device == Some(stored)
      modifies this`script, this`disk, this`cachedWrappingKey
      ensures Valid()
      ensures disk == old(disk) || disk == old(disk).(kek := old(disk).legacyKek)
      ensures r.Ok? && r.value.Some? ==>
                KeyOf(disk.legacyKek).Some? && Ok(r.value.value) == Unwrapped(disk, stored, KeyOf(disk.legacyKek).value, runtime, curve)
      ensures r.Err? ==> r.error == Storage(Cut)
      ensures old(script) == [] && KeyOf(disk.legacyKek).Some? ==>
                var u := Unwrapped(old(disk), stored, KeyOf(disk.legacyKek).value, runtime, curve);
                script == [] && r == Ok(if u.Ok? then Some(u.value) else None)
    {
      var fault := Touch();
      if fault == Some(Cut) { return Err(Storage(Cut)); }
      if fault.Some? || disk.legacyKek == None { return Ok(None); }
      var entry := disk.legacyKek.value;
      if entry.Junk? { return Ok(None); }
      var u := UnwrapIdentityWith(stored, entry.kek);
      if u == Err(Storage(Cut)) { return Err(Storage(Cut)); }
      if u.Err? { return Ok(None); }
      cachedWrappingKey := Some(entry.kek);
      if entry.Raw? || runtime.canClone {
        fault := SaveKek(entry);
        if fault == Some(Cut) { return Err(Storage(Cut)); }
      }
      return Ok(Some(u.value));
    }

    method PersistIdentity(seed: Seed, newKek: Kek) returns (r: Result<Identity, Failure>)
      requires Valid() && !HasPair(disk) && cachedIdentity == None
      modifies this`script, this`disk, this`cachedWrappingKey
      ensures Valid()
      ensures if r.Ok? then PairSaved(old(disk), disk, seed, curve) && r.value == Identity(curve.Pub(seed), Some(seed))
              else KekStep(old(disk), disk)
      ensures old(script) == [] && KeyOf(old(disk).kek).Some? ==> r.Ok? && script == []
      ensures old(script) == [] && old(disk).kek == None ==> r.Ok? && script == []
    {
      var k := GetOrCreateWrappingKey(newKek);
      if k.Err? { return Err(k.error); }
      var half := if runtime.ed25519 then Some(Wrapped(k.value, seed)) else None;
      var fault := SavePair(Wrapped(k.value, seed), StoredIdentity(curve.Pub(seed), half));
      if fault.Some? { return Err(Storage(fault.value)); }
      return Ok(Identity(curve.Pub(seed), Some(seed)));
    }

    /** An identity in memory alone when storage is unavailable or full. */
    method MintIdentityWithStorageFallback(made: Fresh) returns (r: Boot)
      requires Valid() && !HasPair(disk) && cachedIdentity == None
      modifies this`script, this`disk, this`cachedWrappingKey
      ensures Valid()
      ensures if r.Persisted? then PairSaved(old(disk), disk, made.seed, curve) && r.id == Identity(curve.Pub(made.seed), Some(made.seed))
              else KekStep(old(disk), disk)
      ensures old(script) == [] && (KeyOf(old(disk).kek).Some? || old(disk).kek == None) ==> r.Persisted? && script == []
    {
      var p := PersistIdentity(made.seed, made.kek);
      if p.Ok? { return Persisted(p.value); }
      if p.error == Storage(Unavailable) || p.error == Storage(Quota) {
        return Ephemeral(Identity(curve.Pub(made.ephemeral), Some(made.ephemeral)));
      }
      return Failed(p.error);
    }

    method DeleteResidue(name: Name) returns (fault: Option<Fault>)
      modifies this`script, this`disk
      ensures disk == if fault == None then old(disk).(residue := old(disk).residue - {name}) else old(disk)
      ensures old(script) == [] ==> fault == None && script == []
    {
      fault := Touch();
      if fault == None { disk := disk.(residue := disk.residue - {name}); }
    }

    /** The rows of a retired identity, in order, up to the first that cannot be deleted. */
    method DeleteResidues(names: seq<Name>) returns (fault: Option<Fault>)
      modifies this`script, this`disk
      ensures disk == old(disk).(residue := disk.residue) && disk.residue <= old(disk).residue
      ensures fault == None ==> forall n | n in names :: n !in disk.residue
      ensures old(script) == [] ==> fault == None && script == []
    {
      var i := 0;
      fault := None;
      while i < |names|
        invariant i <= |names| && fault == None
        invariant disk == old(disk).(residue := disk.residue) && disk.residue <= old(disk).residue
        invariant forall n | n in names[..i] :: n !in disk.residue
        invariant old(script) == [] ==> script == []
      {
        fault := DeleteResidue(names[i]);
        if fault.Some? { return; }
        i := i + 1;
      }
    }

    /** Unwraps the record, and when that fails, for whatever reason, tries the legacy key. */
    method UnwrapOrRecover(stored: StoredIdentity, newKek: Kek) returns (r: Result<Identity, Failure>)
      requires Valid() && cachedIdentity == None && disk.device == Some(stored)
      modifies this`script, this`disk, this`cachedWrappingKey
      ensures Valid() && disk == old(disk).(kek := disk.kek)
      ensures r.Ok? ==> r.value == Identity(stored.publicKey, if disk.rawSeed.Some? then Some(disk.rawSeed.value.secret) else None)
      ensures old(script) == [] && HasPair(old(disk)) ==> r.Ok? && script == []
    {
      var k := GetOrCreateWrappingKey(newKek);
      if k == Err(Storage(Cut)) { return Err(Storage(Cut)); }
      var failed: Failure;
      if k.Ok? {
        var u := UnwrapIdentityWith(stored, k.value);
        if u.Ok? || u == Err(Storage(Cut)) { return u; }
        failed := u.error;
      } else {
        failed := k.error;
      }
      var recovered := RecoverWithLegacyKey(stored);
      if recovered.Err? { return Err(recovered.error); }
      if recovered.value == None { return Err(failed); }
      return Ok(recovered.value.value);
    }

    /** Replaces an identity that has no seed: the new pair first, then the residue of the old one. */
    method ReplaceSeedless(made: Fresh) returns (r: Boot)
      requires Valid() && cachedIdentity == None && disk.device.Some? && disk.rawSeed == None
      modifies this`script, this`disk, this`cachedWrappingKey, this`cachedIdentity
      ensures Valid() && disk.legacyKek == old(disk).legacyKek
      ensures disk.device == old(disk).device || (HasPair(disk) && disk.rawSeed.value.secret == made.seed)
      ensures r.Persisted? ==> HasPair(disk) && r.id == OnDisk(disk)
    {
      r := MintIdentityWithStorageFallback(made);
      if !r.Persisted? { return; }
      var fault := DeleteResidues([X25519Keypair, SealedX25519, ProfileSeed, RoomHostSeed]);
      if fault == Some(Cut) { return Failed(Storage(Cut)); }
      cachedIdentity := Some(r.id);
    }

    method GetOrCreateDeviceIdentity(made: Fresh) returns (r: Boot)
      requires Valid()
      modifies this`script, this`disk, this`cachedWrappingKey, this`cachedIdentity
      ensures Valid() && Booted(old(disk), disk, made, r)
      ensures old(script) == [] && HasPair(old(disk)) ==> r.Persisted?
      ensures old(script) == [] && old(disk).device == None && old(disk).kek != Some(Junk) ==> r.Persisted?
    {
      if cachedIdentity.Some? { return Persisted(cachedIdentity.value); }
      var fault := Touch();
      if fault == Some(Unavailable) { return Ephemeral(Identity(curve.Pub(made.ephemeral), Some(made.ephemeral))); }
      if fault.Some? { return Failed(Storage(fault.value)); }
      if disk.device.Some? {
        var u := UnwrapOrRecover(disk.device.value, made.kek);
        if u.Err? { return Failed(u.error); }
        if u.value.seed.Some? {
          cachedIdentity := Some(u.value);
          return Persisted(u.value);
        }
        r := ReplaceSeedless(made);
        return;
      }
      r := MintIdentityWithStorageFallback(made);
      if r.Persisted? { cachedIdentity := Some(r.id); }
    }

    /** Restores a backup; a sealed-messaging row of another owner goes. The pair is safe exactly when the caller's halves belong together. */
    method ReplaceDeviceIdentity(secret: Seed, publicKey: PubKey, foreignSealed: bool, newKek: Kek) returns (r: Result<(), Failure>)
      requires Valid()
      modifies this`script, this`disk, this`cachedWrappingKey, this`cachedIdentity
      ensures Valid() <==> (disk.device == old(disk).device && disk.rawSeed == old(disk).rawSeed) || curve.Pub(secret) == publicKey
      ensures cachedIdentity == None
      ensures r.Ok? ==> HasPair(disk) && OnDisk(disk) == Identity(publicKey, Some(secret))
      ensures r.Err? && r.error != Storage(Cut) ==> KekStep(old(disk), disk)
      ensures disk.legacyKek == old(disk).legacyKek
    {
      cachedIdentity, cachedWrappingKey := None, None;
      var k := GetOrCreateWrappingKey(newKek);
      if k.Err? { return Err(k.error); }
      var half := if runtime.ed25519 then Some(Wrapped(k.value, secret)) else None;
      var fault := SavePair(Wrapped(k.value, secret), StoredIdentity(publicKey, half));
      if fault.Some? { return Err(Storage(fault.value)); }
      fault := Touch();
      if fault == Some(Cut) { return Err(Storage(Cut)); }
      if fault == None && foreignSealed {
        fault := DeleteResidue(SealedX25519);
        if fault == Some(Cut) { return Err(Storage(Cut)); }
      }
      return Ok(());
    }

    /** Forget this device: the record first, the wrapping keys last. */
    method ClearDeviceIdentity() returns (fault: Option<Fault>)
      requires Valid()
      modifies this`script, this`disk, this`cachedWrappingKey, this`cachedIdentity
      ensures Valid() && cachedIdentity == None && cachedWrappingKey == None
      ensures disk.rawSeed != old(disk).rawSeed ==> disk.device == None
      ensures disk.legacyKek != old(disk).legacyKek ==> disk.device == None && disk.rawSeed == None
      ensures disk.kek != old(disk).kek ==> disk == Disk(None, None, None, {}, None)
      ensures fault == None ==> disk == Disk(None, None, None, {}, None)
      ensures old(script) == [] ==> fault == None
    {
      cachedIdentity, cachedWrappingKey := None, None;
      fault := Touch();
      if fault.Some? { return; }
      disk := disk.(device := None);
      fault := Touch();
      if fault.Some? { return; }
      disk := disk.(rawSeed := None);
      fault := Touch();
      if fault.Some? { return; }
      disk := disk.(legacyKek := None);
      fault := DeleteResidues([ProfileSeed, X25519Keypair, SealedX25519, RoomHostSeed]);
      if fault.Some? { return; }
      assert disk.residue == {} by { NoNamesLeft(disk.residue); }
      fault := Touch();
      if fault.Some? { return; }
      disk := disk.(kek := None);
    }

    /** A page load: memory is gone, the disk stays. */
    method Reload()
      requires Safe(disk, curve)
      modifies this`cachedIdentity, this`cachedWrappingKey
      ensures Valid() && cachedIdentity == None && cachedWrappingKey == None
    {
      cachedIdentity, cachedWrappingKey := None, None;
    }
  }

  /** What a record comes to under a key. */
  function Unwrapped(d: Disk, stored: StoredIdentity, k: Kek, runtime: Runtime, curve: Curve): Result<Identity, Failure> {
    if stored.wrappedPrivateKey.Some? && runtime.ed25519 && stored.wrappedPrivateKey.value.kek != k then Err(WrongKey)
    else if d.rawSeed == None then Ok(Identity(stored.publicKey, None))
    else if d.rawSeed.value.kek != k then Err(WrongKey)
    else if curve.Pub(d.rawSeed.value.secret) != stored.publicKey then Err(SplitPair)
    else Ok(Identity(stored.publicKey, Some(d.rawSeed.value.secret)))
  }

  lemma NoNamesLeft(names: set<Name>)
    requires forall n | n in [ProfileSeed, X25519Keypair, SealedX25519, RoomHostSeed] :: n !in names
    ensures names == {}
  {
    forall n ensures n !in names {
      match n
      case ProfileSeed =>
      case X25519Keypair =>
      case SealedX25519 =>
      case RoomHostSeed =>
    }
  }

  function OnDisk(d: Disk): Identity
    requires HasPair(d)
  {
    Identity(d.device.value.publicKey, Some(d.rawSeed.value.secret))
  }

  /** What one call may do to the disk, however its storage faults and wherever it is cut off: a pair is
      never touched; a record without a seed stays until a whole pair replaces it; the legacy key stays;
      and what is handed out as persisted is on disk. */
  predicate Booted(before: Disk, after: Disk, made: Fresh, r: Boot) {
    && (HasPair(before) ==> after == before.(kek := after.kek))
    && (after.device == before.device || (HasPair(after) && after.rawSeed.value.secret == made.seed))
    && after.legacyKek == before.legacyKek
    && (r.Persisted? ==> HasPair(after) && r.id == OnDisk(after))
  }

  /** A pair for `seed` has been saved, and at most an empty wrapping key row filled before it. */
  predicate PairSaved(before: Disk, after: Disk, seed: Seed, curve: Curve) {
    && HasPair(after) && after.rawSeed.value.secret == seed && after.device.value.publicKey == curve.Pub(seed)
    && KekStep(before, after.(rawSeed := before.rawSeed, device := before.device))
  }

  /** The wrapping key when storage works: the cached one, the one of its own database, the legacy one, a new one. */
  function Resolved(d: Disk, cached: Option<Kek>, newKek: Kek): Result<Kek, Failure> {
    if cached.Some? then Ok(cached.value)
    else if d.kek.Some? then (if KeyOf(d.kek).Some? then Ok(KeyOf(d.kek).value) else Err(BadKek))
    else if KeyOf(d.legacyKek).Some? then Ok(KeyOf(d.legacyKek).value)
    else Ok(newKek)
  }

  /** What resolving the wrapping key may do to the disk: fill an empty KEK row, and nothing else. */
  predicate KekStep(before: Disk, after: Disk) {
    after == before || (before.kek == None && after == before.(kek := after.kek))
  }

  /** The in-memory caches hold nothing the disk does not, and a cached key that is not the pair's leaves
      the legacy key to fall back on. */
  predicate CacheIsDurable(d: Disk, id: Option<Identity>, kek: Option<Kek>) {
    && (kek.Some? ==> Holds(d, kek.value))
    && (kek.Some? && HasPair(d) ==> d.rawSeed.value.kek == kek.value || Some(d.rawSeed.value.kek) == KeyOf(d.legacyKek))
    && (id.Some? ==> HasPair(d) && id.value == OnDisk(d))
  }
}
