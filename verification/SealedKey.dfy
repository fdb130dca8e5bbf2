/** The persisted sealed-messaging key: mints and boots, one at a time under the lock, interleaved with
    restores and other callers that take no lock, every await a place where another step may fall. */
module SealedKey {
  import opened Basics
  import opened WrappingKey

  type Owner = string
  type Scalar = bytes

  /** The cache entry carries the epoch its mint entered at. */
  datatype Cached = Cached(owner: Owner, epoch: nat, priv: Scalar)

  /** AES-KW (section 2.2 of RFC 3394): the row opens under its own wrapping key alone. */
  datatype SealedRow = SealedRow(owner: Owner, priv: Scalar, kek: Kek)

  /** The identity's seed and record, written in one transaction. An old record has no seed, and may have
      nothing wrapped at all, or nothing that the runtime can unwrap. */
  datatype Record = Absent | Seedless(owner: Owner, wrapped: Option<Kek>) | Pair(owner: Owner, kek: Kek)

  predicate OpensUnder(rec: Record, k: Kek) {
    match rec
    case Absent => false
    case Seedless(_, wrapped) => wrapped == None || wrapped == Some(k)
    case Pair(_, kek) => kek == k
  }

  /** Where a mint is suspended. Committed: the row is written, the mint has not resumed. */
  datatype MintAwait =
    | Resolving(at: Resolve)
    | Loading(kek: Kek)
    | Unwrapping(kek: Kek, found: SealedRow)
    | Wrapping(kek: Kek, made: Scalar)
    | Saving(kek: Kek, made: Scalar)
    | Committed(kek: Kek, made: Scalar)

  datatype Mint = Mint(owner: Owner, epochAtEntry: nat, at: MintAwait)

  /** Where a replaceDeviceIdentity is suspended. Closing: only the invalidation is left, and the row
      named, if any, is the one deleted. */
  datatype Restore =
    | ResolvingKey(owner: Owner, at: Resolve)
    | SavingPair(owner: Owner, kek: Kek)
    | LoadingSealed(owner: Owner)
    | Deleting(owner: Owner)
    | Closing(owner: Owner, deleted: Option<SealedRow>)

  /** Where a getOrCreateDeviceIdentity is suspended; it holds the lock that mints take. Retiring: it
      replaces a seedless identity. Kept: the pair is written, the boot has not resumed. */
  datatype Boot =
    | LoadingRecord
    | Unlocking(rec: Record, at: Resolve)
    | Opening(rec: Record, kek: Kek)
    | Recovering(rec: Record)
    | Retrying(rec: Record, kek: Kek)
    | Promoting(who: Option<Owner>, kek: Kek)
    | Generating(retiring: bool)
    | Persisting(owner: Owner, retiring: bool, at: Resolve)
    | KeepingPair(owner: Owner, retiring: bool, kek: Kek)
    | Kept(owner: Owner, retiring: bool)
    | DeletingNoiseKey(owner: Owner)
    | DeletingSealed(owner: Owner)
    | DeletingRest(owner: Owner)
    | Loaded(owner: Owner)

  datatype State = State(
    keys: Keys,
    record: Record,
    row: Option<SealedRow>,
    cached: Option<Cached>,
    epoch: nat,
    live: Option<Owner>,
    mint: Option<Mint>,
    boot: Option<Boot>,
    restores: multiset<Restore>,
    others: multiset<Resolve>)
  {
    predicate Serves(owner: Owner) { Current() && cached.value.owner == owner }

    predicate Current() { cached.Some? && cached.value.epoch == epoch }

    predicate Locked() { mint.Some? || boot.Some? }

    function At(at: MintAwait): State
      requires mint.Some?
    {
      this.(mint := Some(mint.value.(at := at)))
    }

    function Move(r: Restore, next: Restore): State { this.(restores := restores - multiset{r} + multiset{next}) }

    function Boots(at: Boot): State { this.(boot := Some(at)) }
  }

  datatype Event =
    | Enter(owner: Owner)
    | MintResumes(made: Scalar, newKek: Kek, fault: bool)
    | StartRestore(owner: Owner)
    | RestoreResumes(restore: Restore, newKek: Kek, fault: bool)
    | StartBoot
    | BootResumes(newOwner: Owner, newKek: Kek, fault: bool)
    | StartOther
    | OtherResumes(other: Resolve, newKek: Kek, fault: bool)

  /** The mint's next segment. `made` is the scalar it draws if it needs one; a fault throws. */
  function MintStep(s: State, m: Mint, made: Scalar, newKek: Kek, fault: bool): State
    requires s.mint == Some(m)
  {
    match m.at
    case Resolving(at) =>
      if at.Resolved? then s.At(Loading(at.kek))
      else
        var seg := ResolveStep(s.keys, at, newKek, fault);
        s.(keys := seg.keys, mint := if seg.next.Some? then Some(m.(at := Resolving(seg.next.value))) else None)
    case Loading(k) =>
      if fault then s.(mint := None)
      else if s.row.Some? && s.row.value.owner == m.owner then s.At(Unwrapping(k, s.row.value))
      else s.At(Wrapping(k, made))
    case Unwrapping(k, found) =>
      if fault || found.kek != k then s.(mint := None)
      else s.(cached := Some(Cached(m.owner, m.epochAtEntry, found.priv)), mint := None)
    case Wrapping(k, priv) =>
      if fault || s.epoch != m.epochAtEntry || (s.live.Some? && s.live.value != m.owner) then s.(mint := None) else s.At(Saving(k, priv))
    case Saving(k, priv) => if fault then s.(mint := None) else s.(row := Some(SealedRow(m.owner, priv, k))).At(Committed(k, priv))
    case Committed(_, priv) => s.(cached := Some(Cached(m.owner, m.epochAtEntry, priv)), mint := None)
  }

  function RestoresAfter(restores: multiset<Restore>, owner: Owner, at: Resolve, next: Option<Resolve>): multiset<Restore> {
    var rest := restores - multiset{ResolvingKey(owner, at)};
    if next.Some? then rest + multiset{ResolvingKey(owner, next.value)} else rest
  }

  /** A restore's next segment; `fault` when the awaited call failed. */
  function RestoreStep(s: State, r: Restore, newKek: Kek, fault: bool): State {
    match r
    case ResolvingKey(owner, at) =>
      if at.Resolved? then s.Move(r, SavingPair(owner, at.kek))
      else
        var seg := ResolveStep(s.keys, at, newKek, fault);
        s.(keys := seg.keys, restores := RestoresAfter(s.restores, owner, at, seg.next))
    case SavingPair(owner, k) =>
      if fault then s.(restores := s.restores - multiset{r}) else s.(record := Pair(owner, k)).Move(r, LoadingSealed(owner))
    case LoadingSealed(owner) =>
      if !fault && s.row.Some? && s.row.value.owner != owner then s.Move(r, Deleting(owner)) else s.Move(r, Closing(owner, None))
    case Deleting(owner) => if fault then s.Move(r, Closing(owner, None)) else s.(row := None).Move(r, Closing(owner, s.row))
    case Closing(_, _) => s.(cached := None, epoch := s.epoch + 1, live := None, restores := s.restores - multiset{r})
  }

  /** A record loaded earlier, opened under `k` with the seed that is there now: the identity it is, or
      None where neither has a seed. Anything else throws. */
  function Opened(rec: Record, now: Record, k: Kek): Option<Option<Owner>> {
    if !OpensUnder(rec, k) then None
    else if now.Pair? then if now.owner == rec.owner && now.kek == k then Some(Some(rec.owner)) else None
    else if rec.Seedless? && now.Seedless? then Some(None)
    else None
  }

  function Onward(who: Option<Owner>): Boot { if who.Some? then Loaded(who.value) else Generating(true) }

  /** The first half of a boot: load, unlock, open, and recover with the legacy key after a failure. */
  function OpenStep(s: State, at: Boot, newKek: Kek, fault: bool): State
    requires at.LoadingRecord? || at.Unlocking? || at.Opening? || at.Recovering? || at.Retrying? || at.Promoting?
  {
    match at
    case LoadingRecord =>
      if fault then s.(boot := None) else s.Boots(if s.record.Absent? then Generating(false) else Unlocking(s.record, Begin(s.keys)))
    case Unlocking(rec, r) =>
      if r.Resolved? then s.Boots(Opening(rec, r.kek))
      else
        var seg := ResolveStep(s.keys, r, newKek, fault);
        s.(keys := seg.keys).Boots(if seg.next.Some? then Unlocking(rec, seg.next.value) else Recovering(rec))
    case Opening(rec, k) =>
      var o := Opened(rec, s.record, k);
      s.Boots(if fault || o == None then Recovering(rec) else Onward(o.value))
    case Recovering(rec) => if fault || s.keys.legacy == None then s.(boot := None) else s.Boots(Retrying(rec, s.keys.legacy.value))
    case Retrying(rec, k) =>
      var o := Opened(rec, s.record, k);
      if fault || o == None then s.(boot := None) else s.(keys := s.keys.(cached := Some(k))).Boots(Promoting(o.value, k))
    case Promoting(who, k) => s.(keys := if fault then s.keys else s.keys.(kek := Some(k))).Boots(Onward(who))
  }

  /** The second half: make and keep a pair, retire what belonged to a seedless identity - invalidating
      before the deletes - and make the identity the live one. */
  function KeepStep(s: State, at: Boot, newOwner: Owner, newKek: Kek, fault: bool): State
    requires !(at.LoadingRecord? || at.Unlocking? || at.Opening? || at.Recovering? || at.Retrying? || at.Promoting?)
  {
    match at
    case Generating(retiring) => if fault then s.(boot := None) else s.Boots(Persisting(newOwner, retiring, Begin(s.keys)))
    case Persisting(owner, retiring, r) =>
      if r.Resolved? then s.Boots(KeepingPair(owner, retiring, r.kek))
      else
        var seg := ResolveStep(s.keys, r, newKek, fault);
        s.(keys := seg.keys, boot := if seg.next.Some? then Some(Persisting(owner, retiring, seg.next.value)) else None)
    case KeepingPair(owner, retiring, k) => if fault then s.(boot := None) else s.(record := Pair(owner, k)).Boots(Kept(owner, retiring))
    case Kept(owner, retiring) =>
      if fault then s.(boot := None)
      else if retiring then s.(cached := None, epoch := s.epoch + 1).Boots(DeletingNoiseKey(owner))
      else s.(live := Some(owner), boot := None)
    case DeletingNoiseKey(owner) => s.Boots(if fault then Loaded(owner) else DeletingSealed(owner))
    case DeletingSealed(owner) => if fault then s.Boots(Loaded(owner)) else s.(row := None).Boots(DeletingRest(owner))
    case DeletingRest(owner) => s.Boots(Loaded(owner))
    case Loaded(owner) => s.(live := Some(owner), boot := None)
  }

  function BootStep(s: State, at: Boot, newOwner: Owner, newKek: Kek, fault: bool): State {
    if at.LoadingRecord? || at.Unlocking? || at.Opening? || at.Recovering? || at.Retrying? || at.Promoting?
    then OpenStep(s, at, newKek, fault) else KeepStep(s, at, newOwner, newKek, fault)
  }

  /** Other callers of the wrapping key - for the Noise key pair, the profile seed - take no lock. */
  function OtherStep(s: State, at: Resolve, newKek: Kek, fault: bool): State {
    var seg := ResolveStep(s.keys, at, newKek, fault);
    s.(keys := seg.keys, others := OthersAfter(s.others, at, seg.next))
  }

  function OthersAfter(others: multiset<Resolve>, at: Resolve, next: Option<Resolve>): multiset<Resolve> {
    var rest := others - multiset{at};
    if at.Resolved? || next == None then rest else rest + multiset{next.value}
  }

  /** A restore forgets the live identity and the cached wrapping key before its first await. */
  function RestoreStart(s: State, owner: Owner): State {
    s.(live := None, keys := s.keys.(cached := None), restores := s.restores + multiset{ResolvingKey(owner, ReadingKek)})
  }

  function Step(s: State, e: Event): State {
    match e
    case Enter(owner) => if s.Locked() || s.Serves(owner) then s else s.(mint := Some(Mint(owner, s.epoch, Resolving(Begin(s.keys)))))
    case MintResumes(made, newKek, fault) => if s.mint == None then s else MintStep(s, s.mint.value, made, newKek, fault)
    case StartRestore(owner) => RestoreStart(s, owner)
    case RestoreResumes(r, newKek, fault) => if r in s.restores then RestoreStep(s, r, newKek, fault) else s
    case StartBoot => if s.Locked() || s.live.Some? then s else s.Boots(LoadingRecord)
    case BootResumes(newOwner, newKek, fault) => if s.boot == None then s else BootStep(s, s.boot.value, newOwner, newKek, fault)
    case StartOther => s.(others := s.others + multiset{Begin(s.keys)})
    case OtherResumes(at, newKek, fault) => if at in s.others then OtherStep(s, at, newKek, fault) else s
  }

  /** A page load: the rows are all that is left. */
  function Session(kek: Option<Kek>, legacy: Option<Kek>, record: Record, row: Option<SealedRow>): State {
    State(Keys(kek, legacy, None), record, row, None, 0, None, None, None, multiset{}, multiset{})
  }

  function After(s: State, es: seq<Event>): State
    decreases |es|
  {
    if es == [] then s else Step(After(s, es[..|es| - 1]), es[|es| - 1])
  }

  // ----- The invariant -----

  /** Written, under whatever wrapping key. */
  predicate OnDisk(s: State, owner: Owner, priv: Scalar) { s.row.Some? && s.row.value.owner == owner && s.row.value.priv == priv }

  predicate Took(r: Restore, owner: Owner, priv: Scalar) {
    r.Closing? && r.deleted.Some? && r.deleted.value.owner == owner && r.deleted.value.priv == priv
  }

  /** A restore has deleted this very row and not yet invalidated the cache. */
  ghost predicate Deleted(s: State, owner: Owner, priv: Scalar) { exists r | r in s.restores :: Took(r, owner, priv) }

  /** A mint has written its row and not yet put its scalar into the cache. */
  predicate Publishing(s: State) { s.mint.Some? && s.mint.value.at.Committed? }

  /** The scalar a mint is about to hand out and cache. */
  function Handing(m: Mint): Option<Scalar> {
    match m.at
    case Unwrapping(_, found) => Some(found.priv)
    case Committed(_, made) => Some(made)
    case _ => None
  }

  ghost predicate CacheInv(s: State) {
    && (s.cached.Some? ==> s.cached.value.epoch <= s.epoch)
    && (s.Current() && !Publishing(s) ==>
          OnDisk(s, s.cached.value.owner, s.cached.value.priv) || Deleted(s, s.cached.value.owner, s.cached.value.priv))
  }

  ghost predicate MintInv(s: State) {
    s.mint.Some? ==>
      var m := s.mint.value;
      && m.epochAtEntry <= s.epoch
      && (s.Current() ==> m.owner != s.cached.value.owner && m.epochAtEntry == s.epoch)
      && (m.at.Committed? && s.row.Some? ==> s.row.value.owner == m.owner)
      && (m.epochAtEntry == s.epoch && Handing(m).Some? ==> OnDisk(s, m.owner, Handing(m).value) || Deleted(s, m.owner, Handing(m).value))
  }

  /** The lock is held by one; once a replacement has invalidated the cache nothing fills it. */
  ghost predicate LockInv(s: State) {
    && !(s.mint.Some? && s.boot.Some?)
    && (s.boot.Some? && (s.boot.value.DeletingNoiseKey? || s.boot.value.DeletingSealed?) ==> !s.Current())
  }

  ghost predicate Inv(s: State) { CacheInv(s) && MintInv(s) && LockInv(s) }

  /** Steps that only add or move restores forget no deleted row. */
  lemma StillDeleted(s: State, t: State, owner: Owner, priv: Scalar)
    requires Deleted(s, owner, priv) && forall r | r in s.restores && r.Closing? :: r in t.restores
    ensures Deleted(t, owner, priv)
  {
    var r :| r in s.restores && Took(r, owner, priv);
    assert r in t.restores;
  }

  /** Steps that leave row and cache alone, and the mint where it is or short of handing anything out. */
  lemma QuietKeepsInv(s: State, t: State)
    requires Inv(s) && t.row == s.row && t.cached == s.cached && t.epoch == s.epoch && LockInv(t)
    requires t.mint == s.mint || t.mint == None || (s.mint.Some? && t.mint == Some(s.mint.value.(at := t.mint.value.at)) && Early(t.mint.value.at))
    requires Publishing(s) ==> t.mint == s.mint
    requires forall r | r in s.restores && r.Closing? :: r in t.restores
    ensures Inv(t)
  {
    forall o, priv | Deleted(s, o, priv) ensures Deleted(t, o, priv) { StillDeleted(s, t, o, priv); }
  }

  predicate Early(at: MintAwait) { at.Resolving? || at.Loading? || at.Wrapping? || at.Saving? }

  /** The mint's last step: what it hands out goes into the cache. */
  lemma CachingKeepsInv(s: State, t: State)
    requires Inv(s) && s.mint.Some? && Handing(s.mint.value).Some?
    requires t == s.(cached := Some(Cached(s.mint.value.owner, s.mint.value.epochAtEntry, Handing(s.mint.value).value)), mint := None)
    ensures Inv(t)
  {
    forall o, priv | Deleted(s, o, priv) ensures Deleted(t, o, priv) { StillDeleted(s, t, o, priv); }
  }

  lemma MintKeepsInv(s: State, made: Scalar, newKek: Kek, fault: bool)
    requires Inv(s) && s.mint.Some?
    ensures Inv(MintStep(s, s.mint.value, made, newKek, fault))
  {
    var at, t := s.mint.value.at, MintStep(s, s.mint.value, made, newKek, fault);
    if t.mint == None && t.cached == s.cached && !at.Committed? {
      QuietKeepsInv(s, t);
    } else if t.mint == None {
      CachingKeepsInv(s, t);
    } else if Early(t.mint.value.at) {
      QuietKeepsInv(s, t);
    } else {
      assert t.restores == s.restores;
      forall o, priv | Deleted(s, o, priv) ensures Deleted(t, o, priv) { StillDeleted(s, t, o, priv); }
    }
  }

  lemma DeleteKeepsInv(s: State, owner: Owner, newKek: Kek)
    requires Inv(s) && Deleting(owner) in s.restores
    ensures Inv(RestoreStep(s, Deleting(owner), newKek, false))
  {
    var t := RestoreStep(s, Deleting(owner), newKek, false);
    assert Closing(owner, s.row) in t.restores;
    forall o, priv | Deleted(s, o, priv) ensures Deleted(t, o, priv) { StillDeleted(s, t, o, priv); }
    forall o, priv | OnDisk(s, o, priv) ensures Deleted(t, o, priv) { assert Took(Closing(owner, s.row), o, priv); }
  }

  lemma RestoreMoves(s: State, r: Restore, newKek: Kek, fault: bool)
    requires r in s.restores && !r.Closing? && !(r.Deleting? && !fault)
    ensures var t := RestoreStep(s, r, newKek, fault);
            && t == s.(keys := t.keys, record := t.record, restores := t.restores)
            && forall x | x in s.restores && x.Closing? :: x in t.restores
  {
  }

  lemma RestoreKeepsInv(s: State, r: Restore, newKek: Kek, fault: bool)
    requires Inv(s) && r in s.restores
    ensures Inv(RestoreStep(s, r, newKek, fault))
  {
    if r.Deleting? && !fault {
      DeleteKeepsInv(s, r.owner, newKek);
    } else if !r.Closing? {
      RestoreMoves(s, r, newKek, fault);
      QuietKeepsInv(s, RestoreStep(s, r, newKek, fault));
    }
  }

  lemma BootMoves(s: State, newOwner: Owner, newKek: Kek, fault: bool)
    requires s.boot.Some? && !s.boot.value.Kept? && !s.boot.value.DeletingSealed?
    ensures var t := BootStep(s, s.boot.value, newOwner, newKek, fault);
            && t == s.(keys := t.keys, record := t.record, live := t.live, boot := t.boot)
            && (t.boot.Some? && (t.boot.value.DeletingNoiseKey? || t.boot.value.DeletingSealed?) ==> s.boot.value.DeletingNoiseKey?)
  {
  }

  lemma BootKeepsInv(s: State, newOwner: Owner, newKek: Kek, fault: bool)
    requires Inv(s) && s.boot.Some?
    ensures Inv(BootStep(s, s.boot.value, newOwner, newKek, fault))
  {
    var at, t := s.boot.value, BootStep(s, s.boot.value, newOwner, newKek, fault);
    if !at.Kept? && !at.DeletingSealed? {
      BootMoves(s, newOwner, newKek, fault);
      QuietKeepsInv(s, t);
    }
  }

  lemma StepKeepsInv(s: State, e: Event)
    requires Inv(s)
    ensures Inv(Step(s, e))
  {
    match e
    case MintResumes(made, newKek, fault) => if s.mint.Some? { MintKeepsInv(s, made, newKek, fault); }
    case RestoreResumes(r, newKek, fault) => if r in s.restores { RestoreKeepsInv(s, r, newKek, fault); }
    case BootResumes(newOwner, newKek, fault) => if s.boot.Some? { BootKeepsInv(s, newOwner, newKek, fault); }
    case Enter(_) => assert forall o, priv :: Deleted(s, o, priv) ==> Deleted(Step(s, e), o, priv);
    case _ => QuietKeepsInv(s, Step(s, e));
  }

  lemma {:induction false} InvLasts(s: State, es: seq<Event>)
    requires Inv(s)
    ensures Inv(After(s, es))
    decreases |es|
  {
    if es != [] {
      InvLasts(s, es[..|es| - 1]);
      StepKeepsInv(After(s, es[..|es| - 1]), es[|es| - 1]);
    }
  }

  /** A session that has just begun on some disk. */
  predicate Begins(s: State) { s == Session(s.keys.kek, s.keys.legacy, s.record, s.row) }

  /** Over every interleaving of mints, boots, restores and other callers. */
  lemma EveryRunKeepsInv(s: State, es: seq<Event>)
    requires Begins(s)
    ensures Inv(After(s, es))
  {
    InvLasts(s, es);
  }
}
