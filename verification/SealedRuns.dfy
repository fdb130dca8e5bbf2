/** What is served, handed out and restored can be read by the next session: when, and exactly when. */
module SealedRuns {
  import opened Basics
  import opened WrappingKey
  import opened SealedKey

  // ---- One wrapping key

  /** Recovering this record cannot put another key in the place of `k`. */
  predicate NoRival(legacy: Option<Kek>, rec: Record, k: Kek) {
    legacy.Some? && legacy.value != k ==> !OpensUnder(rec, legacy.value)
  }

  predicate MintFits(row: Option<SealedRow>, m: Mint, k: Kek, adopting: bool) {
    match m.at
    case Resolving(at) => Fits(at, k, adopting)
    case Unwrapping(kek, found) => kek == k && (row.Some? ==> row.value == found)
    case Committed(kek, made) => kek == k && (row.Some? ==> row.value == SealedRow(m.owner, made, kek))
    case _ => m.at.kek == k
  }

  predicate RestoreFits(r: Restore, k: Kek, adopting: bool) {
    match r
    case ResolvingKey(_, at) => Fits(at, k, adopting)
    case SavingPair(_, kek) => kek == k
    case _ => true
  }

  predicate BootFits(at: Boot, legacy: Option<Kek>, k: Kek, adopting: bool) {
    match at
    case Unlocking(rec, r) => Fits(r, k, adopting) && NoRival(legacy, rec, k)
    case Opening(rec, kek) => kek == k && NoRival(legacy, rec, k)
    case Recovering(rec) => NoRival(legacy, rec, k)
    case Retrying(rec, kek) => legacy == Some(kek) && NoRival(legacy, rec, k)
    case Promoting(_, kek) => kek == k
    case Persisting(_, _, r) => Fits(r, k, adopting)
    case KeepingPair(_, _, kek) => kek == k
    case _ => true
  }

  predicate RowFits(s: State, k: Kek) { s.Current() && OnDisk(s, s.cached.value.owner, s.cached.value.priv) ==> s.row.value.kek == k }

  predicate AllRestoresFit(restores: multiset<Restore>, k: Kek, adopting: bool) { forall r | r in restores :: RestoreFits(r, k, adopting) }

  predicate AllOthersFit(others: multiset<Resolve>, k: Kek, adopting: bool) { forall r | r in others :: Fits(r, k, adopting) }

  /** One wrapping key throughout: on disk, in the cache, in every suspended call, in the row served from. */
  predicate OneKey(s: State, k: Kek, adopting: bool) {
    && Keeps(s.keys, k, adopting) && NoRival(s.keys.legacy, s.record, k) && RowFits(s, k)
    && (s.mint.Some? ==> MintFits(s.row, s.mint.value, k, adopting))
    && (s.boot.Some? ==> BootFits(s.boot.value, s.keys.legacy, k, adopting))
    && AllRestoresFit(s.restores, k, adopting) && AllOthersFit(s.others, k, adopting)
  }

  /** The event is a failing read of the legacy row by a call that found no other. */
  predicate FailsLegacy(s: State, e: Event) {
    match e
    case MintResumes(_, _, fault) => fault && s.mint.Some? && s.mint.value.at == Resolving(ReadingLegacy)
    case RestoreResumes(r, _, fault) => fault && r.ResolvingKey? && r.at.ReadingLegacy?
    case BootResumes(_, _, fault) =>
      fault && s.boot.Some? && (s.boot.value.Unlocking? || s.boot.value.Persisting?) && s.boot.value.at.ReadingLegacy?
    case OtherResumes(at, _, fault) => fault && at.ReadingLegacy?
    case _ => false
  }

  lemma MintKeepsKey(s: State, made: Scalar, newKek: Kek, fault: bool, k: Kek, adopting: bool)
    requires Inv(s) && OneKey(s, k, adopting) && s.mint.Some? && !(s.mint.value.at == Resolving(ReadingLegacy) && fault)
    ensures OneKey(MintStep(s, s.mint.value, made, newKek, fault), k, adopting)
  {
    var at := s.mint.value.at;
    if at.Resolving? { StepKeeps(s.keys, at.at, newKek, fault, k, adopting); }
  }

  lemma MoveFits(restores: multiset<Restore>, r: Restore, next: Restore, k: Kek, adopting: bool)
    requires AllRestoresFit(restores, k, adopting) && RestoreFits(next, k, adopting)
    ensures AllRestoresFit(restores - multiset{r} + multiset{next}, k, adopting) && AllRestoresFit(restores - multiset{r}, k, adopting)
  {
  }

  lemma RestoreKeepsKey(s: State, r: Restore, newKek: Kek, fault: bool, k: Kek, adopting: bool)
    requires OneKey(s, k, adopting) && r in s.restores && !(r.ResolvingKey? && r.at.ReadingLegacy? && fault)
    ensures OneKey(RestoreStep(s, r, newKek, fault), k, adopting)
  {
    assert RestoreFits(r, k, adopting);
    match r
    case ResolvingKey(owner, at) =>
      StepKeeps(s.keys, at, newKek, fault, k, adopting);
      var seg := ResolveStep(s.keys, at, newKek, fault);
      if at.Resolved? {
        MoveFits(s.restores, r, SavingPair(owner, at.kek), k, adopting);
      } else if seg.next.Some? {
        MoveFits(s.restores, r, ResolvingKey(owner, seg.next.value), k, adopting);
      }
    case SavingPair(owner, kek) => MoveFits(s.restores, r, LoadingSealed(owner), k, adopting);
    case LoadingSealed(owner) =>
      MoveFits(s.restores, r, Deleting(owner), k, adopting);
      MoveFits(s.restores, r, Closing(owner, None), k, adopting);
    case Deleting(owner) =>
      MoveFits(s.restores, r, Closing(owner, s.row), k, adopting);
      MoveFits(s.restores, r, Closing(owner, None), k, adopting);
    case Closing(_, _) =>
  }

  /** Steps of a boot that leave row, cache and record alone. */
  lemma BootMovesFit(s: State, t: State, k: Kek, adopting: bool)
    requires OneKey(s, k, adopting) && t == s.(keys := t.keys, live := t.live, boot := t.boot) && t.keys.legacy == s.keys.legacy
    requires Keeps(t.keys, k, adopting) && (t.boot.Some? ==> BootFits(t.boot.value, s.keys.legacy, k, adopting))
    ensures OneKey(t, k, adopting)
  {
  }

  lemma UnlockingFits(s: State, rec: Record, r: Resolve, newKek: Kek, fault: bool, k: Kek, adopting: bool)
    requires OneKey(s, k, adopting) && s.boot == Some(Unlocking(rec, r)) && !(r.ReadingLegacy? && fault)
    ensures OneKey(OpenStep(s, Unlocking(rec, r), newKek, fault), k, adopting)
  {
    StepKeeps(s.keys, r, newKek, fault, k, adopting);
    BootMovesFit(s, OpenStep(s, Unlocking(rec, r), newKek, fault), k, adopting);
  }

  lemma PersistingFits(s: State, owner: Owner, retiring: bool, r: Resolve, newKek: Kek, fault: bool, k: Kek, adopting: bool)
    requires OneKey(s, k, adopting) && s.boot == Some(Persisting(owner, retiring, r)) && !(r.ReadingLegacy? && fault)
    ensures OneKey(KeepStep(s, Persisting(owner, retiring, r), "", newKek, fault), k, adopting)
  {
    StepKeeps(s.keys, r, newKek, fault, k, adopting);
    BootMovesFit(s, KeepStep(s, Persisting(owner, retiring, r), "", newKek, fault), k, adopting);
  }

  /** Recovery opens a record under the legacy key, which is then the one key. */
  lemma RetryingFits(rec: Record, now: Record, legacy: Kek, k: Kek)
    requires NoRival(Some(legacy), rec, k) && Opened(rec, now, legacy).Some?
    ensures legacy == k
  {
  }

  lemma OpeningFits(s: State, at: Boot, newKek: Kek, fault: bool, k: Kek, adopting: bool)
    requires OneKey(s, k, adopting) && s.boot == Some(at) && (at.LoadingRecord? || at.Opening? || at.Recovering? || at.Retrying? || at.Promoting?)
    ensures OneKey(OpenStep(s, at, newKek, fault), k, adopting)
  {
    if at.Retrying? && Opened(at.rec, s.record, at.kek).Some? { RetryingFits(at.rec, s.record, at.kek, k); }
    BootMovesFit(s, OpenStep(s, at, newKek, fault), k, adopting);
  }

  lemma KeepingFits(s: State, at: Boot, newOwner: Owner, newKek: Kek, fault: bool, k: Kek, adopting: bool)
    requires OneKey(s, k, adopting) && s.boot == Some(at) && !at.Persisting?
    requires !(at.LoadingRecord? || at.Unlocking? || at.Opening? || at.Recovering? || at.Retrying? || at.Promoting?)
    ensures OneKey(KeepStep(s, at, newOwner, newKek, fault), k, adopting)
  {
  }

  lemma BootKeepsKey(s: State, newOwner: Owner, newKek: Kek, fault: bool, k: Kek, adopting: bool)
    requires OneKey(s, k, adopting) && s.boot.Some? && !FailsLegacy(s, BootResumes(newOwner, newKek, fault))
    ensures OneKey(BootStep(s, s.boot.value, newOwner, newKek, fault), k, adopting)
  {
    var at := s.boot.value;
    if at.Unlocking? {
      UnlockingFits(s, at.rec, at.at, newKek, fault, k, adopting);
    } else if at.Persisting? {
      PersistingFits(s, at.owner, at.retiring, at.at, newKek, fault, k, adopting);
    } else if at.LoadingRecord? || at.Opening? || at.Recovering? || at.Retrying? || at.Promoting? {
      OpeningFits(s, at, newKek, fault, k, adopting);
    } else {
      KeepingFits(s, at, newOwner, newKek, fault, k, adopting);
    }
  }

  lemma OtherKeepsKey(s: State, at: Resolve, newKek: Kek, fault: bool, k: Kek, adopting: bool)
    requires OneKey(s, k, adopting) && at in s.others && !(at.ReadingLegacy? && fault)
    ensures OneKey(OtherStep(s, at, newKek, fault), k, adopting)
  {
    StepKeeps(s.keys, at, newKek, fault, k, adopting);
  }

  lemma StepKeepsKey(s: State, e: Event, k: Kek, adopting: bool)
    requires Inv(s) && OneKey(s, k, adopting) && (adopting ==> !FailsLegacy(s, e))
    ensures OneKey(Step(s, e), k, adopting)
  {
    match e
    case MintResumes(made, newKek, fault) => if s.mint.Some? { MintKeepsKey(s, made, newKek, fault, k, adopting); }
    case RestoreResumes(r, newKek, fault) =>
      if r in s.restores {
        assert RestoreFits(r, k, adopting);
        RestoreKeepsKey(s, r, newKek, fault, k, adopting);
      }
    case BootResumes(newOwner, newKek, fault) => if s.boot.Some? { BootKeepsKey(s, newOwner, newKek, fault, k, adopting); }
    case OtherResumes(at, newKek, fault) => if at in s.others { OtherKeepsKey(s, at, newKek, fault, k, adopting); }
    case _ =>
  }

  /** Where there was one wrapping key, in its own row, there still is. */
  ghost predicate StaysOneKey(s: State, t: State) { forall k | OneKey(s, k, false) :: OneKey(t, k, false) }

  /** What every step keeps, whatever it meets. */
  lemma StepKeepsAll(s: State, e: Event)
    requires Inv(s)
    ensures Inv(Step(s, e)) && StaysOneKey(s, Step(s, e))
  {
    StepKeepsInv(s, e);
    forall k | OneKey(s, k, false) ensures OneKey(Step(s, e), k, false) { StepKeepsKey(s, e, k, false); }
  }

  /** No call of the run takes an unreadable legacy row for an absent one. */
  predicate LegacyReads(s: State, es: seq<Event>)
    decreases |es|
  {
    es != [] ==> LegacyReads(s, es[..|es| - 1]) && !FailsLegacy(After(s, es[..|es| - 1]), es[|es| - 1])
  }

  lemma {:induction false} KeyLasts(s: State, es: seq<Event>, k: Kek, adopting: bool)
    requires Inv(s) && OneKey(s, k, adopting) && (adopting ==> LegacyReads(s, es))
    ensures Inv(After(s, es)) && OneKey(After(s, es), k, adopting)
    decreases |es|
  {
    if es != [] {
      KeyLasts(s, es[..|es| - 1], k, adopting);
      InvLasts(s, es);
      StepKeepsKey(After(s, es[..|es| - 1]), es[|es| - 1], k, adopting);
    }
  }

  // ---- Durability

  /** On disk, and under the wrapping key that the next session resolves. */
  predicate Readable(s: State, owner: Owner, priv: Scalar) { OnDisk(s, owner, priv) && s.keys.Next() == Some(s.row.value.kek) }

  /** What a session must find on its disk: a wrapping key or its predecessor, and no record that recovery
      would open under a key other than the one resolved. */
  predicate Sound(s: State) { s.keys.Next().Some? && NoRival(s.keys.legacy, s.record, s.keys.Next().value) }

  /** Its calls may fail to read the legacy row only if they need not. */
  predicate Reads(s: State, es: seq<Event>) { s.keys.kek.Some? || LegacyReads(s, es) }

  lemma OneKeyThroughout(s: State, es: seq<Event>)
    requires Begins(s) && Sound(s) && Reads(s, es)
    ensures Inv(After(s, es)) && OneKey(After(s, es), s.keys.Next().value, s.keys.kek == None)
  {
    KeyLasts(s, es, s.keys.Next().value, s.keys.kek == None);
  }

  /** Whatever has interleaved, a key the session would serve from its cache can be read by the next
      session, for the same owner, exactly when no mint stands between its write and its cache entry -
      unless a restore has deleted that very row and is about to invalidate the cache. */
  lemma WhatIsServedIsDurable(s: State, es: seq<Event>, owner: Owner)
    requires Begins(s) && Sound(s) && Reads(s, es)
    ensures var t := After(s, es);
            t.Serves(owner) && !Deleted(t, owner, t.cached.value.priv) ==>
              (Readable(t, owner, t.cached.value.priv) <==> !Publishing(t))
  {
    OneKeyThroughout(s, es);
  }

  /** A scalar about to be handed out, found or made, can be read by the next session while its epoch is
      current; one found under another wrapping key is refused. */
  lemma WhatIsHandedOutIsDurable(s: State, es: seq<Event>)
    requires Begins(s) && Sound(s) && Reads(s, es)
    ensures var t := After(s, es);
            t.mint.Some? && Handing(t.mint.value).Some? && t.mint.value.epochAtEntry == t.epoch ==>
              var m, priv := t.mint.value, Handing(t.mint.value).value;
              || Readable(t, m.owner, priv) || Deleted(t, m.owner, priv)
              || (m.at.Unwrapping? && m.at.found.kek != m.at.kek)
  {
    OneKeyThroughout(s, es);
  }

  /** The pair opens under one of the keys on disk: it loads, if need be by recovery. */
  predicate PairOpens(s: State) {
    s.record.Pair? ==> s.keys.kek == Some(s.record.kek) || s.keys.legacy == Some(s.record.kek)
  }

  predicate PairFits(s: State, k: Kek, legacy: Option<Kek>) {
    s.keys.legacy == legacy && (s.record.Pair? ==> s.record.kek == k || legacy == Some(s.record.kek))
  }

  lemma MintKeepsPair(s: State, made: Scalar, newKek: Kek, fault: bool, k: Kek, legacy: Option<Kek>)
    requires PairFits(s, k, legacy) && s.mint.Some?
    ensures PairFits(MintStep(s, s.mint.value, made, newKek, fault), k, legacy)
  {
  }

  lemma RestoreKeepsPair(s: State, r: Restore, newKek: Kek, fault: bool, k: Kek, adopting: bool, legacy: Option<Kek>)
    requires PairFits(s, k, legacy) && RestoreFits(r, k, adopting)
    ensures PairFits(RestoreStep(s, r, newKek, fault), k, legacy)
  {
  }

  lemma BootKeepsPair(s: State, newOwner: Owner, newKek: Kek, fault: bool, k: Kek, adopting: bool, legacy: Option<Kek>)
    requires PairFits(s, k, legacy) && s.boot.Some? && BootFits(s.boot.value, legacy, k, adopting)
    ensures PairFits(BootStep(s, s.boot.value, newOwner, newKek, fault), k, legacy)
  {
  }

  lemma OtherKeepsPair(s: State, at: Resolve, newKek: Kek, fault: bool, k: Kek, legacy: Option<Kek>)
    requires PairFits(s, k, legacy)
    ensures PairFits(OtherStep(s, at, newKek, fault), k, legacy)
  {
  }

  lemma StepKeepsPair(s: State, e: Event, k: Kek, adopting: bool, legacy: Option<Kek>)
    requires AllRestoresFit(s.restores, k, adopting) && (s.boot.Some? ==> BootFits(s.boot.value, legacy, k, adopting))
    requires PairFits(s, k, legacy)
    ensures PairFits(Step(s, e), k, legacy)
  {
    match e
    case MintResumes(made, newKek, fault) => if s.mint.Some? { MintKeepsPair(s, made, newKek, fault, k, legacy); }
    case RestoreResumes(r, newKek, fault) => if r in s.restores { RestoreKeepsPair(s, r, newKek, fault, k, adopting, legacy); }
    case BootResumes(newOwner, newKek, fault) => if s.boot.Some? { BootKeepsPair(s, newOwner, newKek, fault, k, adopting, legacy); }
    case OtherResumes(at, newKek, fault) => OtherKeepsPair(s, at, newKek, fault, k, legacy);
    case _ =>
  }

  lemma {:induction false} PairLasts(s: State, es: seq<Event>, k: Kek, adopting: bool)
    requires Inv(s) && OneKey(s, k, adopting) && PairFits(s, k, s.keys.legacy) && (adopting ==> LegacyReads(s, es))
    ensures PairFits(After(s, es), k, s.keys.legacy)
    decreases |es|
  {
    if es != [] {
      PairLasts(s, es[..|es| - 1], k, adopting);
      KeyLasts(s, es[..|es| - 1], k, adopting);
      StepKeepsPair(After(s, es[..|es| - 1]), es[|es| - 1], k, adopting, s.keys.legacy);
    }
  }

  /** Restores overlapping boots, mints and each other lock nobody out. */
  lemma ThePairAlwaysOpens(s: State, es: seq<Event>)
    requires Begins(s) && Sound(s) && PairOpens(s) && Reads(s, es)
    ensures PairOpens(After(s, es))
  {
    OneKeyThroughout(s, es);
    PairLasts(s, es, s.keys.Next().value, s.keys.kek == None);
  }
}
