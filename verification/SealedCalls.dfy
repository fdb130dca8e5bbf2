/** The module variables and the rows, each handler against one step. */
module SealedCalls {
  import opened Basics
  import opened WrappingKey
  import opened SealedKey
  import opened SealedRuns

  class SealedKeys {
    var kekRow: Option<Kek>
    const legacyRow: Option<Kek>
    var record: Record
    var row: Option<SealedRow>
    var cachedWrappingKey: Option<Kek>
    var cachedSealedX25519: Option<Cached>
    var identityEpochCounter: nat
    var cachedIdentity: Option<Owner>
    var mint: Option<Mint>
    var boot: Option<Boot>
    var restores: multiset<Restore>
    var others: multiset<Resolve>

    constructor (kekRow: Option<Kek>, legacyRow: Option<Kek>, record: Record, row: Option<SealedRow>)
      ensures Valid() && View() == Session(kekRow, legacyRow, record, row)
    {
      this.kekRow, this.legacyRow, this.record, this.row := kekRow, legacyRow, record, row;
      cachedWrappingKey, cachedSealedX25519, identityEpochCounter, cachedIdentity := None, None, 0, None;
      mint, boot, restores, others := None, None, multiset{}, multiset{};
    }

    function TheKeys(): Keys reads this { Keys(kekRow, legacyRow, cachedWrappingKey) }

    function View(): State reads this {
      State(TheKeys(), record, row, cachedSealedX25519, identityEpochCounter, cachedIdentity, mint, boot, restores, others)
    }

    ghost predicate Valid() reads this { Inv(View()) }

    // ---- getOrCreateWrappingKey

    method BeginWrappingKey() returns (at: Resolve)
      ensures at == Begin(TheKeys())
    {
      if cachedWrappingKey.Some? { return Resolved(cachedWrappingKey.value); }
      return ReadingKek;
    }

    /** One segment of getOrCreateWrappingKey; None where it throws. */
    method ResumeWrappingKey(at: Resolve, newKek: Kek, fault: bool) returns (next: Option<Resolve>)
      modifies this`kekRow, this`cachedWrappingKey
      ensures Segment(TheKeys(), next) == ResolveStep(old(TheKeys()), at, newKek, fault)
    {
      match at
      case ReadingKek =>
        if fault { return None; }
        if kekRow.Some? { return Some(HasKek(kekRow.value)); }
        return Some(ReadingLegacy);
      case ReadingLegacy =>
        if !fault && legacyRow.Some? { return Some(CopyingLegacy(legacyRow.value)); }
        return Some(SavingKek(newKek));
      case CopyingLegacy(k) =>
        if !fault { kekRow := Some(k); }
        return Some(HasKek(k));
      case SavingKek(k) =>
        if fault { return None; }
        kekRow := Some(k);
        return Some(HasKek(k));
      case HasKek(k) =>
        cachedWrappingKey := Some(k);
        return Some(Resolved(k));
      case Resolved(_) =>
        return Some(at);
    }

    /** Another caller of the wrapping key. */
    method StartOther()
      requires Valid()
      modifies this`others
      ensures Valid() && View() == Step(old(View()), SealedKey.StartOther)
      ensures StaysOneKey(old(View()), View())
      ensures cachedWrappingKey.Some? ==> Resolved(cachedWrappingKey.value) in others
    {
      StepKeepsAll(View(), SealedKey.StartOther);
      var at := BeginWrappingKey();
      others := others + multiset{at};
    }

    method OnOther(at: Resolve, newKek: Kek, fault: bool)
      requires Valid() && at in others
      modifies this`kekRow, this`cachedWrappingKey, this`others
      ensures Valid() && View() == Step(old(View()), OtherResumes(at, newKek, fault))
      ensures StaysOneKey(old(View()), View())
      ensures |others| == |old(others)| || fault || at.Resolved?
    {
      StepKeepsAll(View(), OtherResumes(at, newKek, fault));
      ResumeOther(at, newKek, fault);
    }

    method ResumeOther(at: Resolve, newKek: Kek, fault: bool)
      modifies this`kekRow, this`cachedWrappingKey, this`others
      ensures var seg := ResolveStep(old(TheKeys()), at, newKek, fault);
              TheKeys() == seg.keys && others == OthersAfter(old(others), at, seg.next)
    {
      var next := ResumeWrappingKey(at, newKek, fault);
      others := OthersAfter(others, at, next);
    }

    // ---- Mints

    /** getOrCreateSealedX25519Secret: the cache, without the lock. Under one wrapping key, what it serves
        is readable by the next session unless a mint is between its write and its cache entry, or a
        restore between delete and invalidation. */
    method FromCache(owner: Owner) returns (served: Option<Scalar>)
      requires Valid()
      ensures served.Some? <==> View().Serves(owner)
      ensures served.Some? && !Deleted(View(), owner, served.value) ==> (OnDisk(View(), owner, served.value) <==> !Publishing(View()))
      ensures forall k, adopting | OneKey(View(), k, adopting) ::
                served.Some? && OnDisk(View(), owner, served.value) ==> Readable(View(), owner, served.value)
    {
      var cached := cachedSealedX25519;
      if cached.Some? && cached.value.owner == owner && cached.value.epoch == identityEpochCounter {
        return Some(cached.value.priv);
      }
      return None;
    }

    /** The same behind the lock, where a miss starts a mint. */
    method EnterMint(owner: Owner) returns (served: Option<Scalar>)
      requires Valid() && mint == None && boot == None
      modifies this`mint
      ensures Valid() && View() == Step(old(View()), Enter(owner))
      ensures StaysOneKey(old(View()), View())
      ensures served == if old(View()).Serves(owner) then Some(cachedSealedX25519.value.priv) else None
    {
      StepKeepsAll(View(), Enter(owner));
      var cached := cachedSealedX25519;
      if cached.Some? && cached.value.owner == owner && cached.value.epoch == identityEpochCounter {
        return Some(cached.value.priv);
      }
      var at := BeginWrappingKey();
      mint := Some(Mint(owner, identityEpochCounter, Resolving(at)));
      return None;
    }

    method OnMintKey(made: Scalar, newKek: Kek, fault: bool)
      requires Valid() && mint.Some? && mint.value.at.Resolving?
      modifies this`mint, this`kekRow, this`cachedWrappingKey
      ensures Valid() && View() == Step(old(View()), MintResumes(made, newKek, fault))
      ensures StaysOneKey(old(View()), View())
      ensures mint == None ==> fault
      ensures mint.Some? ==> mint.value == old(mint).value.(at := mint.value.at)
      ensures mint.Some? && mint.value.at.Resolving? && mint.value.at.at.Resolved? ==> cachedWrappingKey == Some(mint.value.at.at.kek)
    {
      StepKeepsAll(View(), MintResumes(made, newKek, fault));
      var m := mint.value;
      if m.at.at.Resolved? {
        mint := Some(m.(at := Loading(m.at.at.kek)));
        return;
      }
      var next := ResumeWrappingKey(m.at.at, newKek, fault);
      mint := if next.Some? then Some(m.(at := Resolving(next.value))) else None;
    }

    /** The row is loaded: usable only for its owner. */
    method OnLoaded(made: Scalar, newKek: Kek, fault: bool)
      requires Valid() && mint.Some? && mint.value.at.Loading?
      modifies this`mint
      ensures Valid() && View() == Step(old(View()), MintResumes(made, newKek, fault))
      ensures StaysOneKey(old(View()), View())
      ensures mint == None <==> fault
      ensures mint.Some? && mint.value.at.Unwrapping? ==> row == Some(mint.value.at.found) && row.value.owner == mint.value.owner
      ensures mint.Some? && mint.value.at.Wrapping? ==> row == None || row.value.owner != mint.value.owner
    {
      StepKeepsAll(View(), MintResumes(made, newKek, fault));
      var m := mint.value;
      if fault {
        mint := None;
        return;
      }
      var usable := row.Some? && row.value.owner == m.owner;
      mint := Some(m.(at := if usable then Unwrapping(m.at.kek, row.value) else Wrapping(m.at.kek, made)));
    }

    /** A row under another wrapping key throws. What is handed out is on disk, if the epoch is current. */
    method OnUnwrapped(made: Scalar, newKek: Kek, fault: bool) returns (priv: Option<Scalar>)
      requires Valid() && mint.Some? && mint.value.at.Unwrapping?
      modifies this`mint, this`cachedSealedX25519
      ensures Valid() && View() == Step(old(View()), MintResumes(made, newKek, fault))
      ensures StaysOneKey(old(View()), View())
      ensures priv == if fault || old(mint).value.at.found.kek != old(mint).value.at.kek then None else Some(old(mint).value.at.found.priv)
      ensures priv.Some? && old(mint).value.epochAtEntry == identityEpochCounter ==>
                OnDisk(View(), old(mint).value.owner, priv.value) || Deleted(View(), old(mint).value.owner, priv.value)
    {
      StepKeepsAll(View(), MintResumes(made, newKek, fault));
      var m := mint.value;
      mint := None;
      if fault || m.at.found.kek != m.at.kek { return None; }
      priv := Some(m.at.found.priv);
      cachedSealedX25519 := Some(Cached(m.owner, m.epochAtEntry, m.at.found.priv));
    }

    /** The new scalar is wrapped: handed out unsaved when the identity moved, or is not the owner's. */
    method OnWrapped(made: Scalar, newKek: Kek, fault: bool) returns (unsaved: Option<Scalar>)
      requires Valid() && mint.Some? && mint.value.at.Wrapping?
      modifies this`mint
      ensures Valid() && View() == Step(old(View()), MintResumes(made, newKek, fault))
      ensures StaysOneKey(old(View()), View())
      ensures unsaved == if !fault && mint == None then Some(old(mint).value.at.made) else None
      ensures mint.Some? <==> !fault && old(mint).value.epochAtEntry == identityEpochCounter
                              && (cachedIdentity == None || cachedIdentity == Some(old(mint).value.owner))
    {
      StepKeepsAll(View(), MintResumes(made, newKek, fault));
      var m := mint.value;
      if fault {
        mint := None;
        return None;
      }
      if identityEpochCounter != m.epochAtEntry {
        mint := None;
        return Some(m.at.made);
      }
      var live := cachedIdentity;
      if live.Some? && live.value != m.owner {
        mint := None;
        return Some(m.at.made);
      }
      mint := Some(m.(at := Saving(m.at.kek, m.at.made)));
      return None;
    }

    /** The transaction that writes the row commits, or fails. */
    method RowCommits(made: Scalar, newKek: Kek, fault: bool)
      requires Valid() && mint.Some? && mint.value.at.Saving?
      modifies this`mint, this`row
      ensures Valid() && View() == Step(old(View()), MintResumes(made, newKek, fault))
      ensures StaysOneKey(old(View()), View())
      ensures if fault then mint == None && row == old(row) else Publishing(View()) && OnDisk(View(), mint.value.owner, mint.value.at.made)
    {
      StepKeepsAll(View(), MintResumes(made, newKek, fault));
      var m := mint.value;
      if fault {
        mint := None;
        return;
      }
      row := Some(SealedRow(m.owner, m.at.made, m.at.kek));
      mint := Some(m.(at := Committed(m.at.kek, m.at.made)));
    }

    /** Cached only after the row is written; what is handed out is on disk as above. */
    method OnSaved(made: Scalar, newKek: Kek) returns (priv: Scalar)
      requires Valid() && mint.Some? && mint.value.at.Committed?
      modifies this`mint, this`cachedSealedX25519
      ensures Valid() && View() == Step(old(View()), MintResumes(made, newKek, false)) && priv == old(mint).value.at.made
      ensures StaysOneKey(old(View()), View())
      ensures old(mint).value.epochAtEntry == identityEpochCounter ==>
                OnDisk(View(), old(mint).value.owner, priv) || Deleted(View(), old(mint).value.owner, priv)
    {
      StepKeepsAll(View(), MintResumes(made, newKek, false));
      priv := mint.value.at.made;
      cachedSealedX25519 := Some(Cached(mint.value.owner, mint.value.epochAtEntry, priv));
      mint := None;
    }

    // ---- Restores

    method ReplaceDeviceIdentity(owner: Owner)
      requires Valid()
      modifies this`cachedIdentity, this`cachedWrappingKey, this`restores
      ensures Valid() && View() == Step(old(View()), StartRestore(owner))
      ensures StaysOneKey(old(View()), View())
      ensures cachedIdentity == None && ResolvingKey(owner, ReadingKek) in restores
    {
      StepKeepsAll(View(), StartRestore(owner));
      cachedIdentity := None;
      cachedWrappingKey := None;
      var at := BeginWrappingKey();
      restores := restores + multiset{ResolvingKey(owner, at)};
    }

    method OnRestoreKey(owner: Owner, at: Resolve, newKek: Kek, fault: bool)
      requires Valid() && ResolvingKey(owner, at) in restores
      modifies this`kekRow, this`cachedWrappingKey, this`restores
      ensures Valid() && View() == Step(old(View()), RestoreResumes(ResolvingKey(owner, at), newKek, fault))
      ensures StaysOneKey(old(View()), View())
      ensures |restores| == |old(restores)| || fault
    {
      StepKeepsAll(View(), RestoreResumes(ResolvingKey(owner, at), newKek, fault));
      if at.Resolved? {
        restores := restores - multiset{ResolvingKey(owner, at)} + multiset{SavingPair(owner, at.kek)};
        return;
      }
      ResumeRestore(owner, at, newKek, fault);
    }

    method ResumeRestore(owner: Owner, at: Resolve, newKek: Kek, fault: bool)
      modifies this`kekRow, this`cachedWrappingKey, this`restores
      ensures var seg := ResolveStep(old(TheKeys()), at, newKek, fault);
              TheKeys() == seg.keys && restores == RestoresAfter(old(restores), owner, at, seg.next)
    {
      var next := ResumeWrappingKey(at, newKek, fault);
      restores := RestoresAfter(restores, owner, at, next);
    }

    /** The pair has been saved, or the restore has failed and changes nothing more. */
    method OnPairSaved(owner: Owner, k: Kek, newKek: Kek, fault: bool)
      requires Valid() && SavingPair(owner, k) in restores
      modifies this`record, this`restores
      ensures Valid() && View() == Step(old(View()), RestoreResumes(SavingPair(owner, k), newKek, fault))
      ensures StaysOneKey(old(View()), View())
      ensures if fault then record == old(record) else record == Pair(owner, k) && (kekRow == Some(k) ==> PairOpens(View()))
    {
      StepKeepsAll(View(), RestoreResumes(SavingPair(owner, k), newKek, fault));
      restores := restores - multiset{SavingPair(owner, k)};
      if fault { return; }
      record := Pair(owner, k);
      restores := restores + multiset{LoadingSealed(owner)};
    }

    /** The restore's read of the sealed row has returned or failed. */
    method OnSealedLoaded(owner: Owner, newKek: Kek, fault: bool)
      requires Valid() && LoadingSealed(owner) in restores
      modifies this`restores
      ensures Valid() && View() == Step(old(View()), RestoreResumes(LoadingSealed(owner), newKek, fault))
      ensures StaysOneKey(old(View()), View())
      ensures !fault && row.Some? && row.value.owner != owner ==> Deleting(owner) in restores
      ensures fault || row == None || row.value.owner == owner ==> Closing(owner, None) in restores
    {
      StepKeepsAll(View(), RestoreResumes(LoadingSealed(owner), newKek, fault));
      var foreign := !fault && row.Some? && row.value.owner != owner;
      restores := restores - multiset{LoadingSealed(owner)} + multiset{if foreign then Deleting(owner) else Closing(owner, None)};
    }

    method OnSealedDeleted(owner: Owner, newKek: Kek, fault: bool)
      requires Valid() && Deleting(owner) in restores
      modifies this`row, this`restores
      ensures Valid() && View() == Step(old(View()), RestoreResumes(Deleting(owner), newKek, fault))
      ensures StaysOneKey(old(View()), View())
      ensures if fault then row == old(row) else row == None && (old(row).Some? ==> Deleted(View(), old(row).value.owner, old(row).value.priv))
    {
      StepKeepsAll(View(), RestoreResumes(Deleting(owner), newKek, fault));
      restores := restores - multiset{Deleting(owner)} + multiset{Closing(owner, if fault then None else row)};
      if !fault { row := None; }
      if !fault && old(row).Some? {
        assert Closing(owner, old(row)) in restores && Took(Closing(owner, old(row)), old(row).value.owner, old(row).value.priv);
      }
    }

    /** The restore's last mutation: the invalidation. Nothing is served from the cache after it. */
    method CloseRestore(owner: Owner, deleted: Option<SealedRow>, newKek: Kek)
      requires Valid() && Closing(owner, deleted) in restores
      modifies this`cachedSealedX25519, this`identityEpochCounter, this`cachedIdentity, this`restores
      ensures Valid() && View() == Step(old(View()), RestoreResumes(Closing(owner, deleted), newKek, false))
      ensures StaysOneKey(old(View()), View())
      ensures forall o :: !View().Serves(o)
    {
      StepKeepsAll(View(), RestoreResumes(Closing(owner, deleted), newKek, false));
      restores := restores - multiset{Closing(owner, deleted)};
      cachedSealedX25519 := None;
      identityEpochCounter := identityEpochCounter + 1;
      cachedIdentity := None;
    }

    // ---- Boots

    method GetOrCreateDeviceIdentity() returns (cached: Option<Owner>)
      requires Valid() && mint == None && boot == None
      modifies this`boot
      ensures Valid() && View() == Step(old(View()), StartBoot) && cached == cachedIdentity
      ensures StaysOneKey(old(View()), View())
    {
      StepKeepsAll(View(), StartBoot);
      if cachedIdentity.Some? { return cachedIdentity; }
      boot := Some(LoadingRecord);
      return None;
    }

    method OnRecordLoaded(newOwner: Owner, newKek: Kek, fault: bool)
      requires Valid() && boot == Some(LoadingRecord)
      modifies this`boot
      ensures Valid() && View() == Step(old(View()), BootResumes(newOwner, newKek, fault))
      ensures StaysOneKey(old(View()), View())
      ensures boot == None <==> fault
      ensures boot.Some? && record.Absent? ==> boot == Some(Generating(false))
      ensures boot.Some? && !record.Absent? ==> boot.value.Unlocking? && boot.value.rec == record
    {
      StepKeepsAll(View(), BootResumes(newOwner, newKek, fault));
      if fault {
        boot := None;
      } else if record.Absent? {
        boot := Some(Generating(false));
      } else {
        var at := BeginWrappingKey();
        boot := Some(Unlocking(record, at));
      }
    }

    method OnBootKey(newOwner: Owner, newKek: Kek, fault: bool)
      requires Valid() && boot.Some? && boot.value.Unlocking?
      modifies this`boot, this`kekRow, this`cachedWrappingKey
      ensures Valid() && View() == Step(old(View()), BootResumes(newOwner, newKek, fault))
      ensures StaysOneKey(old(View()), View())
      ensures boot.Some? && boot.value.rec == old(boot).value.rec && (boot.value.Recovering? ==> fault)
    {
      StepKeepsAll(View(), BootResumes(newOwner, newKek, fault));
      var rec, at := boot.value.rec, boot.value.at;
      if at.Resolved? {
        boot := Some(Opening(rec, at.kek));
        return;
      }
      var next := ResumeWrappingKey(at, newKek, fault);
      boot := Some(if next.Some? then Unlocking(rec, next.value) else Recovering(rec));
    }

    /** unwrapIdentityWith: the record loaded before against the seed that is there now. */
    method Open(rec: Record, k: Kek) returns (who: Option<Option<Owner>>)
      ensures who == Opened(rec, record, k)
      ensures who.Some? && who.value.Some? ==> record == Pair(who.value.value, k) && rec.owner == who.value.value
    {
      if !OpensUnder(rec, k) { return None; }
      if record.Pair? {
        if record.owner == rec.owner && record.kek == k { return Some(Some(rec.owner)); }
        return None;
      }
      return if rec.Seedless? && record.Seedless? then Some(None) else None;
    }

    method OnOpened(newOwner: Owner, newKek: Kek, fault: bool)
      requires Valid() && boot.Some? && boot.value.Opening?
      modifies this`boot
      ensures Valid() && View() == Step(old(View()), BootResumes(newOwner, newKek, fault))
      ensures StaysOneKey(old(View()), View())
      ensures boot.Some? && (boot.value.Loaded? ==> record == Pair(boot.value.owner, old(boot).value.kek))
    {
      StepKeepsAll(View(), BootResumes(newOwner, newKek, fault));
      var rec := boot.value.rec;
      var who := Open(rec, boot.value.kek);
      boot := Some(if fault || who == None then Recovering(rec) else Onward(who.value));
    }

    method OnLegacyLoaded(newOwner: Owner, newKek: Kek, fault: bool)
      requires Valid() && boot.Some? && boot.value.Recovering?
      modifies this`boot
      ensures Valid() && View() == Step(old(View()), BootResumes(newOwner, newKek, fault))
      ensures StaysOneKey(old(View()), View())
      ensures boot == None <==> fault || legacyRow == None
    {
      StepKeepsAll(View(), BootResumes(newOwner, newKek, fault));
      boot := if fault || legacyRow == None then None else Some(Retrying(boot.value.rec, legacyRow.value));
    }

    /** The legacy key is adopted only once it has opened the record. */
    method OnRetried(newOwner: Owner, newKek: Kek, fault: bool)
      requires Valid() && boot.Some? && boot.value.Retrying?
      modifies this`boot, this`cachedWrappingKey
      ensures Valid() && View() == Step(old(View()), BootResumes(newOwner, newKek, fault))
      ensures StaysOneKey(old(View()), View())
      ensures cachedWrappingKey != old(cachedWrappingKey) ==> OpensUnder(old(boot).value.rec, cachedWrappingKey.value)
    {
      StepKeepsAll(View(), BootResumes(newOwner, newKek, fault));
      var rec, k := boot.value.rec, boot.value.kek;
      var who := Open(rec, k);
      if fault || who == None {
        boot := None;
        return;
      }
      cachedWrappingKey := Some(k);
      boot := Some(Promoting(who.value, k));
    }

    method OnPromoted(newOwner: Owner, newKek: Kek, fault: bool)
      requires Valid() && boot.Some? && boot.value.Promoting?
      modifies this`boot, this`kekRow
      ensures Valid() && View() == Step(old(View()), BootResumes(newOwner, newKek, fault))
      ensures StaysOneKey(old(View()), View())
      ensures kekRow == if fault then old(kekRow) else Some(old(boot).value.kek)
    {
      StepKeepsAll(View(), BootResumes(newOwner, newKek, fault));
      if !fault { kekRow := Some(boot.value.kek); }
      boot := Some(Onward(boot.value.who));
    }

    method OnGenerated(newOwner: Owner, newKek: Kek, fault: bool)
      requires Valid() && boot.Some? && boot.value.Generating?
      modifies this`boot
      ensures Valid() && View() == Step(old(View()), BootResumes(newOwner, newKek, fault))
      ensures StaysOneKey(old(View()), View())
      ensures boot == None <==> fault
    {
      StepKeepsAll(View(), BootResumes(newOwner, newKek, fault));
      if fault {
        boot := None;
        return;
      }
      var at := BeginWrappingKey();
      boot := Some(Persisting(newOwner, boot.value.retiring, at));
    }

    method OnPersistKey(newOwner: Owner, newKek: Kek, fault: bool)
      requires Valid() && boot.Some? && boot.value.Persisting?
      modifies this`boot, this`kekRow, this`cachedWrappingKey
      ensures Valid() && View() == Step(old(View()), BootResumes(newOwner, newKek, fault))
      ensures StaysOneKey(old(View()), View())
      ensures boot == None ==> fault
    {
      StepKeepsAll(View(), BootResumes(newOwner, newKek, fault));
      var owner, retiring, at := boot.value.owner, boot.value.retiring, boot.value.at;
      if at.Resolved? {
        boot := Some(KeepingPair(owner, retiring, at.kek));
        return;
      }
      var next := ResumeWrappingKey(at, newKek, fault);
      boot := if next.Some? then Some(Persisting(owner, retiring, next.value)) else None;
    }

    method OnPairKept(newOwner: Owner, newKek: Kek, fault: bool)
      requires Valid() && boot.Some? && boot.value.KeepingPair?
      modifies this`boot, this`record
      ensures Valid() && View() == Step(old(View()), BootResumes(newOwner, newKek, fault))
      ensures StaysOneKey(old(View()), View())
      ensures if fault then boot == None && record == old(record) else record.Pair? && (kekRow == Some(record.kek) ==> PairOpens(View()))
    {
      StepKeepsAll(View(), BootResumes(newOwner, newKek, fault));
      if fault {
        boot := None;
        return;
      }
      record := Pair(boot.value.owner, boot.value.kek);
      boot := Some(Kept(boot.value.owner, boot.value.retiring));
    }

    /** persistIdentity has returned: the new identity is live, or the seedless one it replaces is retired -
        invalidate first, then delete. */
    method OnMinted(newOwner: Owner, newKek: Kek, fault: bool)
      requires Valid() && boot.Some? && boot.value.Kept?
      modifies this`boot, this`cachedSealedX25519, this`identityEpochCounter, this`cachedIdentity
      ensures Valid() && View() == Step(old(View()), BootResumes(newOwner, newKek, fault))
      ensures StaysOneKey(old(View()), View())
      ensures boot.Some? ==> forall o :: !View().Serves(o)
    {
      StepKeepsAll(View(), BootResumes(newOwner, newKek, fault));
      var owner, retiring := boot.value.owner, boot.value.retiring;
      boot := None;
      if fault { return; }
      if retiring {
        cachedSealedX25519 := None;
        identityEpochCounter := identityEpochCounter + 1;
        boot := Some(DeletingNoiseKey(owner));
      } else {
        cachedIdentity := Some(owner);
      }
    }

    /** The deletes of what belonged to the retired identity; a failed one ends them. */
    method OnResidueDeleted(newOwner: Owner, newKek: Kek, fault: bool)
      requires Valid() && boot.Some? && (boot.value.DeletingNoiseKey? || boot.value.DeletingSealed? || boot.value.DeletingRest?)
      modifies this`boot, this`row
      ensures Valid() && View() == Step(old(View()), BootResumes(newOwner, newKek, fault))
      ensures StaysOneKey(old(View()), View())
      ensures boot.Some? && (boot.value.DeletingSealed? || boot.value.DeletingRest? || boot.value.Loaded?) && boot.value.owner == old(boot).value.owner
      ensures row != old(row) ==> row == None && old(boot).value.DeletingSealed? && !View().Current()
    {
      StepKeepsAll(View(), BootResumes(newOwner, newKek, fault));
      var owner := boot.value.owner;
      if fault || boot.value.DeletingRest? {
        boot := Some(Loaded(owner));
      } else if boot.value.DeletingNoiseKey? {
        boot := Some(DeletingSealed(owner));
      } else {
        row := None;
        boot := Some(DeletingRest(owner));
      }
    }

    method OnIdentity(newOwner: Owner, newKek: Kek, fault: bool)
      requires Valid() && boot.Some? && boot.value.Loaded?
      modifies this`boot, this`cachedIdentity
      ensures Valid() && View() == Step(old(View()), BootResumes(newOwner, newKek, fault))
      ensures StaysOneKey(old(View()), View())
      ensures boot == None && cachedIdentity == Some(old(boot).value.owner)
    {
      StepKeepsAll(View(), BootResumes(newOwner, newKek, fault));
      cachedIdentity := Some(boot.value.owner);
      boot := None;
    }
  }
}
