/** Sessions, owners and restores: which key the next session reads, and whose key is overwritten, deleted
    or outlived. */
module SealedOwners {
  import opened Basics
  import opened WrappingKey
  import opened SealedKey
  import opened SealedRuns
  import opened SealedPaths

  // ---- The next session

  function Goes2(s: State, newKek: Kek): State { MintGoes(MintGoes(s, [], newKek), [], newKek) }

  /** A mint that resolves its key - two segments where it is on disk, two more where it is not - and then
      loads and unwraps the row. */
  function ReadBy(s: State, owner: Owner, newKek: Kek): State {
    var entered := Step(s, Enter(owner));
    var resolved := if s.keys.kek.Some? then Goes2(entered, newKek) else Goes2(Goes2(entered, newKek), newKek);
    MintGoes(Goes2(resolved, newKek), [], newKek)
  }

  lemma MintReads(s: State, m: Mint, newKek: Kek, k: Kek)
    requires s.row.Some? && s.row.value.owner == m.owner
    ensures var t := MintGoes(Goes2(MintAt(s, m, Resolving(Resolved(k))), newKek), [], newKek);
            && t.row == s.row && t.epoch == s.epoch
            && t.cached == if s.row.value.kek == k then Some(Cached(m.owner, m.epochAtEntry, s.row.value.priv)) else s.cached
  {
    assert MintGoes(MintAt(s, m, Resolving(Resolved(k))), [], newKek) == MintAt(s, m, Loading(k));
    assert MintGoes(MintAt(s, m, Loading(k)), [], newKek) == MintAt(s, m, Unwrapping(k, s.row.value));
  }

  lemma MintHasKey(s: State, m: Mint, newKek: Kek, k: Kek)
    requires s.keys.kek == Some(k)
    ensures Goes2(MintAt(s, m, Resolving(ReadingKek)), newKek) == MintAt(s, m, Resolving(Resolved(k))).(keys := s.keys.(cached := Some(k)))
  {
    assert MintGoes(MintAt(s, m, Resolving(ReadingKek)), [], newKek) == MintAt(s, m, Resolving(HasKek(k)));
  }

  /** The key a call ends up with on a disk without one. */
  function Settling(keys: Keys, newKek: Kek): Kek { if keys.legacy.Some? then keys.legacy.value else newKek }

  function Filling(keys: Keys, newKek: Kek): Resolve { if keys.legacy.Some? then CopyingLegacy(keys.legacy.value) else SavingKek(newKek) }

  lemma MintFindsNoKey(s: State, m: Mint, newKek: Kek)
    requires s.keys.kek == None
    ensures Goes2(MintAt(s, m, Resolving(ReadingKek)), newKek) == MintAt(s, m, Resolving(Filling(s.keys, newKek)))
  {
    assert MintGoes(MintAt(s, m, Resolving(ReadingKek)), [], newKek) == MintAt(s, m, Resolving(ReadingLegacy));
  }

  lemma MintFillsIn(s: State, m: Mint, newKek: Kek)
    requires s.keys.kek == None
    ensures var k := Settling(s.keys, newKek);
            Goes2(MintAt(s, m, Resolving(Filling(s.keys, newKek))), newKek)
              == MintAt(s, m, Resolving(Resolved(k))).(keys := s.keys.(kek := Some(k), cached := Some(k)))
  {
    var k := Settling(s.keys, newKek);
    assert MintGoes(MintAt(s, m, Resolving(Filling(s.keys, newKek))), [], newKek)
        == MintAt(s, m, Resolving(HasKek(k))).(keys := s.keys.(kek := Some(k)));
  }

  /** On whatever disk a session begins, its mint for the row's owner reads the row if and only if the row
      is under the key that the disk resolves; a key made afresh is not the row's. */
  lemma TheNextSessionReadsIt(s: State, newKek: Kek)
    requires Begins(s) && s.row.Some? && (s.keys.Next() == None ==> newKek != s.row.value.kek)
    ensures var owner := s.row.value.owner;
            var t := ReadBy(s, owner, newKek);
            && t.row == s.row && (t.Serves(owner) <==> s.keys.Next() == Some(s.row.value.kek))
            && (t.Serves(owner) ==> t.cached.value.priv == s.row.value.priv)
  {
    var m := Mint(s.row.value.owner, 0, Resolving(ReadingKek));
    assert Step(s, Enter(m.owner)) == MintAt(s, m, Resolving(ReadingKek));
    if s.keys.kek.Some? {
      var k := s.keys.kek.value;
      MintHasKey(s, m, newKek, k);
      MintReads(s.(keys := s.keys.(cached := Some(k))), m, newKek, k);
    } else {
      var k := Settling(s.keys, newKek);
      MintFindsNoKey(s, m, newKek);
      MintFillsIn(s, m, newKek);
      MintReads(s.(keys := s.keys.(kek := Some(k), cached := Some(k))), m, newKek, k);
    }
  }

  /** So on a sound disk a key that is served, and neither half published nor just deleted, is what the
      session after a reload at that moment serves; and the disk it starts on is sound again. */
  lemma ServedAfterAReload(s: State, es: seq<Event>, owner: Owner, newKek: Kek)
    requires Begins(s) && Sound(s) && Reads(s, es)
    ensures var t := After(s, es);
            var next := Session(t.keys.kek, t.keys.legacy, t.record, t.row);
            && Sound(next)
            && (t.Serves(owner) && !Publishing(t) && !Deleted(t, owner, t.cached.value.priv) ==>
                  var read := ReadBy(next, owner, newKek);
                  read.Serves(owner) && read.cached.value.priv == t.cached.value.priv)
  {
    var t := After(s, es);
    OneKeyThroughout(s, es);
    if t.Serves(owner) && !Publishing(t) && !Deleted(t, owner, t.cached.value.priv) {
      WhatIsServedIsDurable(s, es, owner);
      TheNextSessionReadsIt(Session(t.keys.kek, t.keys.legacy, t.record, t.row), newKek);
    }
  }

  /** What one call leaves that has run alone on a disk without a key. */
  function LeftAlone(s: State, k: Kek): State { s.(keys := Keys(Some(k), s.keys.legacy, Some(k))) }

  lemma OtherFills(s: State, newKek: Kek)
    requires Begins(s) && s.keys.kek == None
    ensures Reachable(s, s.(others := multiset{Filling(s.keys, newKek)}))
  {
    ReachStart(s);
    ReachStep(s, s, StartOther);
    assert Step(s, StartOther) == s.(others := multiset{ReadingKek});
    OtherGoes(s, s, ReadingKek, ReadingLegacy, newKek);
    OtherGoes(s, s, ReadingLegacy, Filling(s.keys, newKek), newKek);
  }

  lemma OtherEnds(s0: State, s: State, k: Kek)
    requires Reachable(s0, s.(others := multiset{HasKek(k)})) && s.others == multiset{}
    ensures Reachable(s0, s.(keys := s.keys.(cached := Some(k))))
  {
    OtherGoes(s0, s, HasKek(k), Resolved(k), k);
    OtherLeaves(s0, s.(keys := s.keys.(cached := Some(k))), k);
  }

  lemma OtherLeaves(s0: State, s: State, k: Kek)
    requires Reachable(s0, s.(others := multiset{Resolved(k)})) && s.others == multiset{}
    ensures Reachable(s0, s)
  {
    ReachStep(s0, s.(others := multiset{Resolved(k)}), OtherResumes(Resolved(k), k, false));
    assert multiset{Resolved(k)} - multiset{Resolved(k)} == multiset{};
  }

  /** One call that runs alone is enough to make any disk without a key sound, from then on. */
  lemma ALoneCallSettles(s: State, newKek: Kek)
    requires Begins(s) && s.keys.kek == None
    ensures var k := Settling(s.keys, newKek);
            Reachable(s, LeftAlone(s, k)) && Inv(LeftAlone(s, k)) && OneKey(LeftAlone(s, k), k, false)
  {
    var k := Settling(s.keys, newKek);
    OtherFills(s, newKek);
    OtherGoes(s, s, Filling(s.keys, newKek), HasKek(k), newKek);
    OtherEnds(s, s.(keys := s.keys.(kek := Some(k))), k);
  }

  // ---- When a served key is lost to another owner

  /** The mint of another owner, at its last check, goes on to overwrite a key served and on disk exactly
      when no identity is live or its own is: only a live owner's key is protected. */
  lemma WhoMayOverwrite(s: State, made: Scalar, newKek: Kek)
    requires Inv(s) && s.mint.Some? && s.mint.value.at.Wrapping?
    requires s.Current() && OnDisk(s, s.cached.value.owner, s.cached.value.priv)
    ensures OnDisk(MintGoes(MintGoes(s, made, newKek), made, newKek), s.cached.value.owner, s.cached.value.priv)
            <==> s.live.Some? && s.live.value != s.mint.value.owner
  {
  }

  /** The key of the live identity, served and on disk, with no one about to write or delete. */
  ghost predicate Settled(s: State, owner: Owner, priv: Scalar) {
    && Inv(s) && s.Serves(owner) && s.cached.value.priv == priv && OnDisk(s, owner, priv)
    && s.live == Some(owner) && s.restores == multiset{} && s.boot == None
    && (s.mint.Some? ==> !s.mint.value.at.Saving? && !s.mint.value.at.Committed?)
  }

  lemma StepStaysSettled(s: State, e: Event, owner: Owner, priv: Scalar)
    requires Settled(s, owner, priv) && !e.StartRestore?
    ensures Settled(Step(s, e), owner, priv)
  {
    StepKeepsInv(s, e);
  }

  /** The condition a caller can see to: while no restore starts, the live identity's key keeps being served
      and on disk, whoever else mints or asks for its identity; and readable, where there is one key. */
  lemma {:induction false} TheLiveKeyStays(s: State, es: seq<Event>, owner: Owner, priv: Scalar, k: Kek)
    requires Settled(s, owner, priv) && forall e | e in es :: !e.StartRestore?
    ensures Settled(After(s, es), owner, priv)
    ensures OneKey(s, k, false) ==> Readable(After(s, es), owner, priv)
    decreases |es|
  {
    if es != [] {
      var before, e := es[..|es| - 1], es[|es| - 1];
      assert e in es && forall x | x in before :: x in es;
      TheLiveKeyStays(s, before, owner, priv, k);
      StepStaysSettled(After(s, before), e, owner, priv);
    }
    if OneKey(s, k, false) { KeyLasts(s, es, k, false); }
  }

  /** With no live identity a second owner's mint overwrites the only copy of a key that is still served. */
  lemma AnotherOwnerOverwrites(s: State, a: Owner, b: Owner, x: Scalar, y: Scalar, k: Kek)
    requires Begins(s) && s.keys.kek == Some(k) && s.row == None && a != b
    ensures exists t :: Reachable(s, t) && t.mint.Some? && t.restores == multiset{} && t.live == None
              && t.Serves(a) && t.cached.value.priv == x && t.row == Some(SealedRow(b, y, k))
  {
    ReachStart(s);
    MintRuns(s, s, a, x, k);
    var s1 := Minted(s, Mint(a, 0, Resolving(HasKek(k))), k, x);
    var m := Mint(b, 0, Resolving(HasKek(k)));
    MintEnters(s, s1, b, k);
    MintWraps(s, s1, m, k, y);
    MintWrites(s, s1, m, k, y);
    var t := MintAt(s1, m, Committed(k, y)).(row := Some(SealedRow(b, y, k)));
    assert Reachable(s, t) && t.row == Some(SealedRow(b, y, k));
  }

  // ---- What a restore deletes

  /** A restore of `b` has found the row of another owner, and is about to delete. */
  function AboutToDelete(s: State, b: Owner, k: Kek): State {
    s.(live := None, keys := s.keys.(cached := Some(k)), record := Pair(b, k), restores := multiset{Deleting(b)})
  }

  lemma RestoreDecides(s0: State, s: State, b: Owner, k: Kek)
    requires Reachable(s0, s) && s.restores == multiset{} && s.keys.kek == Some(k) && s.row.Some? && s.row.value.owner != b
    ensures Reachable(s0, AboutToDelete(s, b, k))
  {
    RestoreLands(s0, s, b, k);
    var s1 := s.(live := None, keys := s.keys.(cached := Some(k)), record := Pair(b, k), restores := multiset{LoadingSealed(b)});
    RestoreGoes(s0, s1, LoadingSealed(b), Deleting(b), k);
  }

  lemma RestoreDeletes(s0: State, s: State, b: Owner, k: Kek)
    requires Reachable(s0, s) && s.restores == multiset{Deleting(b)} && s.row.Some?
    ensures var t := s.(row := None, restores := multiset{Closing(b, s.row)});
            Reachable(s0, t) && Deleted(t, s.row.value.owner, s.row.value.priv)
  {
    RestoreGoes(s0, s, Deleting(b), Closing(b, s.row), k);
    var t := s.(row := None, restores := multiset{Closing(b, s.row)});
    assert Closing(b, s.row) in t.restores && Took(Closing(b, s.row), s.row.value.owner, s.row.value.priv);
  }

  /** A restore of another owner deletes the only copy of a served key before it invalidates the cache. */
  lemma ARestoreDeletes(s: State, a: Owner, b: Owner, x: Scalar, k: Kek)
    requires Begins(s) && s.keys.kek == Some(k) && s.row == None && a != b
    ensures exists t :: Reachable(s, t) && t.Serves(a) && t.row == None && Deleted(t, a, x)
  {
    ReachStart(s);
    MintRuns(s, s, a, x, k);
    var s1 := Minted(s, Mint(a, 0, Resolving(HasKek(k))), k, x);
    RestoreDecides(s, s1, b, k);
    RestoreDeletes(s, AboutToDelete(s1, b, k), b, k);
    var t := AboutToDelete(s1, b, k).(row := None, restores := multiset{Closing(b, s1.row)});
    assert Reachable(s, t) && t.Serves(a) && t.row == None && Deleted(t, a, x);
  }

  /** The delete falls on whatever row is there by then: decided on a foreign row, it takes the row that a
      mint of the restored owner has written since, and whose key is served. */
  lemma TheDeleteTakesANewRow(s: State, b: Owner, y: Scalar, k: Kek)
    requires Begins(s) && s.keys.kek == Some(k) && s.row.Some? && s.row.value.owner != b
    ensures exists t :: Reachable(s, t) && t.Serves(b) && t.cached.value.priv == y && t.row == None && Deleted(t, b, y)
  {
    ReachStart(s);
    RestoreDecides(s, s, b, k);
    var s1 := AboutToDelete(s, b, k);
    MintRuns(s, s1, b, y, k);
    var s2 := Minted(s1, Mint(b, 0, Resolving(HasKek(k))), k, y);
    RestoreDeletes(s, s2, b, k);
    var t := s2.(row := None, restores := multiset{Closing(b, s2.row)});
    assert Reachable(s, t) && t.Serves(b) && t.row == None && Deleted(t, b, y);
  }

  // ---- The live identity

  function PairOwner(rec: Record): set<Owner> { if rec.Pair? then {rec.owner} else {} }

  /** The owners whose pair was on disk at some moment of the run. */
  function Seen(s: State, es: seq<Event>): set<Owner>
    decreases |es|
  {
    if es == [] then PairOwner(s.record) else Seen(s, es[..|es| - 1]) + PairOwner(After(s, es).record)
  }

  /** The identity a boot is about to make live. */
  function Coming(at: Boot): set<Owner> {
    match at
    case Promoting(who, _) => if who.Some? then {who.value} else {}
    case Kept(owner, _) => {owner}
    case DeletingNoiseKey(owner) => {owner}
    case DeletingSealed(owner) => {owner}
    case DeletingRest(owner) => {owner}
    case Loaded(owner) => {owner}
    case _ => {}
  }

  function Named(s: State): set<Owner> {
    (if s.live.Some? then {s.live.value} else {}) + if s.boot.Some? then Coming(s.boot.value) else {}
  }

  lemma BootNames(s: State, newOwner: Owner, newKek: Kek, fault: bool)
    requires s.boot.Some?
    ensures var t := BootStep(s, s.boot.value, newOwner, newKek, fault); Named(t) <= Named(s) + PairOwner(s.record) + PairOwner(t.record)
  {
  }

  lemma StepNames(s: State, e: Event)
    ensures Named(Step(s, e)) <= Named(s) + PairOwner(s.record) + PairOwner(Step(s, e).record)
  {
    match e
    case BootResumes(newOwner, newKek, fault) => if s.boot.Some? { BootNames(s, newOwner, newKek, fault); }
    case _ =>
  }

  lemma {:induction false} NamedWasSeen(s: State, es: seq<Event>)
    requires Begins(s)
    ensures Named(After(s, es)) + PairOwner(After(s, es).record) <= Seen(s, es)
    decreases |es|
  {
    if es != [] {
      NamedWasSeen(s, es[..|es| - 1]);
      StepNames(After(s, es[..|es| - 1]), es[|es| - 1]);
    }
  }

  /** Whatever restores overlap a boot, the identity it makes live is one whose whole pair was on disk at
      some moment of the run: never the record of one and the seed of another. */
  lemma TheLiveIdentityWasWhole(s: State, es: seq<Event>)
    requires Begins(s)
    ensures var t := After(s, es); t.live.Some? ==> t.live.value in Seen(s, es)
  {
    NamedWasSeen(s, es);
  }

  /** The live identity, and the one about to be, is the one on disk. */
  ghost predicate Agrees(s: State) {
    s.restores == multiset{} && Named(s) <= PairOwner(s.record) && (s.boot.Some? ==> s.live == None)
  }

  lemma StepAgrees(s: State, e: Event)
    requires Agrees(s) && !e.StartRestore?
    ensures Agrees(Step(s, e))
  {
    match e
    case BootResumes(newOwner, newKek, fault) => if s.boot.Some? { BootAgrees(s, newOwner, newKek, fault); }
    case _ =>
  }

  lemma BootAgrees(s: State, newOwner: Owner, newKek: Kek, fault: bool)
    requires Agrees(s) && s.boot.Some?
    ensures Agrees(BootStep(s, s.boot.value, newOwner, newKek, fault))
  {
    BootNames(s, newOwner, newKek, fault);
  }

  /** From a moment with no restore and no boot under way and no one live, until a restore starts, the live
      identity is the one on disk. */
  lemma {:induction false} TheLiveIdentityIsOnDisk(s: State, es: seq<Event>)
    requires Agrees(s) && forall e | e in es :: !e.StartRestore?
    ensures Agrees(After(s, es))
    ensures After(s, es).live.Some? ==> After(s, es).record.Pair? && After(s, es).record.owner == After(s, es).live.value
    decreases |es|
  {
    if es != [] {
      var before, e := es[..|es| - 1], es[|es| - 1];
      assert e in es && forall x | x in before :: x in es;
      TheLiveIdentityIsOnDisk(s, before);
      StepAgrees(After(s, before), e);
    }
  }

  lemma RestoreInvalidates(s0: State, s: State, b: Owner)
    requires Reachable(s0, s) && s.restores == multiset{Closing(b, None)}
    ensures Reachable(s0, s.(cached := None, epoch := s.epoch + 1, live := None, restores := multiset{}))
  {
    ReachStep(s0, s, RestoreResumes(Closing(b, None), 0, false));
    assert s.restores - multiset{Closing(b, None)} == multiset{};
  }

  lemma RestoreCloses(s0: State, s: State, b: Owner)
    requires Reachable(s0, s) && s.restores == multiset{LoadingSealed(b)} && s.row == None
    ensures Reachable(s0, s.(cached := None, epoch := s.epoch + 1, live := None, restores := multiset{}))
  {
    RestoreGoes(s0, s, LoadingSealed(b), Closing(b, None), 0);
    RestoreInvalidates(s0, s.(restores := multiset{Closing(b, None)}), b);
  }

  /** A boot that a restore overlaps can outlive it: the restore is over and its pair on disk, and the live
      identity is the one it replaced. */
  lemma ABootOutlivesARestore(s: State, a: Owner, b: Owner, k: Kek)
    requires Begins(s) && s.keys.kek == Some(k) && s.record == Pair(a, k) && s.row == None
    ensures exists t :: Reachable(s, t) && t.live == Some(a) && t.record == Pair(b, k) && t.restores == multiset{} && t.boot == None
  {
    ReachStart(s);
    BootLoads(s, s, a, k);
    var s1 := s.(keys := s.keys.(cached := Some(k))).Boots(Loaded(a));
    RestoreLands(s, s1, b, k);
    var s2 := s1.(record := Pair(b, k), restores := multiset{LoadingSealed(b)});
    RestoreCloses(s, s2, b);
    var s3 := s2.(epoch := 1, restores := multiset{});
    ReachBoot(s, s3, Loaded(a), false);
    var t := s3.(live := Some(a), boot := None);
    assert Reachable(s, t) && t.record == Pair(b, k);
  }

  lemma BootUnlocks(s0: State, s: State, k: Kek)
    requires Reachable(s0, s.Boots(Unlocking(s.record, ReadingKek))) && s.keys.kek == Some(k)
    ensures Reachable(s0, s.(keys := s.keys.(cached := Some(k))).Boots(Opening(s.record, k)))
  {
    var rec := s.record;
    ReachBoot(s0, s.Boots(Unlocking(rec, ReadingKek)), Unlocking(rec, ReadingKek), false);
    ReachBoot(s0, s.Boots(Unlocking(rec, HasKek(k))), Unlocking(rec, HasKek(k)), false);
    var t := s.(keys := s.keys.(cached := Some(k)));
    ReachBoot(s0, t.Boots(Unlocking(rec, Resolved(k))), Unlocking(rec, Resolved(k)), false);
  }

  lemma BootLoads(s0: State, s: State, a: Owner, k: Kek)
    requires Reachable(s0, s) && !s.Locked() && s.live == None && s.keys.cached == None && s.keys.kek == Some(k) && s.record == Pair(a, k)
    ensures Reachable(s0, s.(keys := s.keys.(cached := Some(k))).Boots(Loaded(a)))
  {
    ReachStep(s0, s, StartBoot);
    ReachBoot(s0, s.Boots(LoadingRecord), LoadingRecord, false);
    BootUnlocks(s0, s, k);
    var t := s.(keys := s.keys.(cached := Some(k)));
    ReachBoot(s0, t.Boots(Opening(s.record, k)), Opening(s.record, k), false);
  }
}
