/** Where the condition on the disk fails, some run loses a key or locks the device out. */
module SealedExact {
  import opened Basics
  import opened WrappingKey
  import opened SealedKey
  import opened SealedRuns
  import opened SealedPaths

  // ---- No wrapping key on disk: two calls that overlap each make one

  /** A mint and a restore have both found no key, and each is about to save its own. */
  function BothSave(s: State, a: Owner, b: Owner, k1: Kek, k2: Kek): State {
    s.(mint := Some(Mint(a, 0, Resolving(SavingKek(k1)))), restores := multiset{ResolvingKey(b, SavingKek(k2))})
  }

  lemma MintFindsNone(s0: State, s: State, m: Mint, newKek: Kek)
    requires Reachable(s0, MintAt(s, m, Resolving(ReadingKek))) && s.keys.Next() == None
    ensures Reachable(s0, MintAt(s, m, Resolving(SavingKek(newKek))))
  {
    ReachMint(s0, MintAt(s, m, Resolving(ReadingKek)), [], newKek);
    assert MintGoes(MintAt(s, m, Resolving(ReadingKek)), [], newKek) == MintAt(s, m, Resolving(ReadingLegacy));
    ReachMint(s0, MintAt(s, m, Resolving(ReadingLegacy)), [], newKek);
  }

  lemma RestoreFindsNone(s0: State, s: State, owner: Owner, newKek: Kek)
    requires Reachable(s0, s.(restores := multiset{ResolvingKey(owner, ReadingKek)})) && s.keys.Next() == None
    ensures Reachable(s0, s.(restores := multiset{ResolvingKey(owner, SavingKek(newKek))}))
  {
    RestoreGoes(s0, s.(restores := multiset{ResolvingKey(owner, ReadingKek)}), ResolvingKey(owner, ReadingKek), ResolvingKey(owner, ReadingLegacy), newKek);
    RestoreGoes(s0, s.(restores := multiset{ResolvingKey(owner, ReadingLegacy)}), ResolvingKey(owner, ReadingLegacy), ResolvingKey(owner, SavingKek(newKek)), newKek);
  }

  lemma BothFindNone(s: State, a: Owner, b: Owner, k1: Kek, k2: Kek)
    requires Begins(s) && s.keys.Next() == None
    ensures Reachable(s, BothSave(s, a, b, k1, k2))
  {
    var m := Mint(a, 0, Resolving(ReadingKek));
    ReachStart(s);
    ReachStep(s, s, Enter(a));
    ReachStep(s, MintAt(s, m, Resolving(ReadingKek)), StartRestore(b));
    var s1 := s.(restores := multiset{ResolvingKey(b, ReadingKek)});
    MintFindsNone(s, s1, m, k1);
    RestoreFindsNone(s, MintAt(s, m, Resolving(SavingKek(k1))), b, k2);
  }

  /** The mint saves its key first: its row ends up under a key that the restore has overwritten. The
      restore then fails to save its pair, and is gone. */
  function RowUnderALostKey(s: State, a: Owner, made: Scalar, k1: Kek, k2: Kek): State {
    s.(keys := Keys(Some(k2), s.keys.legacy, Some(k2)), row := Some(SealedRow(a, made, k1)), cached := Some(Cached(a, 0, made)))
  }

  lemma RestoreSavesKey(s0: State, s: State, owner: Owner, k: Kek)
    requires Reachable(s0, s) && s.restores == multiset{ResolvingKey(owner, SavingKek(k))}
    ensures Reachable(s0, s.(keys := s.keys.(kek := Some(k)), restores := multiset{ResolvingKey(owner, HasKek(k))}))
  {
    RestoreGoes(s0, s, ResolvingKey(owner, SavingKek(k)), ResolvingKey(owner, HasKek(k)), k);
  }

  lemma MintSavesKey(s0: State, s: State, m: Mint, k: Kek)
    requires Reachable(s0, MintAt(s, m, Resolving(SavingKek(k))))
    ensures Reachable(s0, MintAt(s, m, Resolving(HasKek(k))).(keys := s.keys.(kek := Some(k))))
  {
    ReachMint(s0, MintAt(s, m, Resolving(SavingKek(k))), [], k);
  }

  /** A restore that has its key fails to save its pair. */
  lemma RestoreFails(s0: State, s: State, owner: Owner, k: Kek)
    requires Reachable(s0, s) && s.restores == multiset{ResolvingKey(owner, HasKek(k))}
    ensures Reachable(s0, s.(keys := s.keys.(cached := Some(k)), restores := multiset{}))
  {
    PairGoesDown(s0, s, owner, k);
    var s1 := s.(keys := s.keys.(cached := Some(k)), restores := multiset{SavingPair(owner, k)});
    ReachStep(s0, s1, RestoreResumes(SavingPair(owner, k), k, true));
    assert s1.restores - multiset{SavingPair(owner, k)} == multiset{};
  }

  lemma OverlappingMintIsLost(s: State, a: Owner, b: Owner, made: Scalar, k1: Kek, k2: Kek)
    requires Begins(s) && s.keys.Next() == None && NoRowOf(s, a) && k1 != k2
    ensures var t := RowUnderALostKey(s, a, made, k1, k2);
            Reachable(s, t) && t.Serves(a) && t.restores == multiset{} && !Publishing(t) && !Readable(t, a, made)
  {
    var m := Mint(a, 0, Resolving(HasKek(k1)));
    BothFindNone(s, a, b, k1, k2);
    var s1 := s.(restores := multiset{ResolvingKey(b, SavingKek(k2))});
    assert BothSave(s, a, b, k1, k2) == MintAt(s1, m, Resolving(SavingKek(k1)));
    MintSavesKey(s, s1, m, k1);
    RestoreSavesKey(s, MintAt(s1, m, Resolving(HasKek(k1))).(keys := s.keys.(kek := Some(k1))), b, k2);
    var s2 := MintAt(s, m, m.at).(keys := s.keys.(kek := Some(k2)), restores := multiset{ResolvingKey(b, HasKek(k2))});
    MintEnds(s, s2, m, k1, made);
    RestoreFails(s, Minted(s2, m, k1, made), b, k2);
  }

  /** The restore saves its key first: its pair ends up under a key that the mint has overwritten. */
  lemma OverlappingRestoreLocksOut(s: State, a: Owner, b: Owner, k1: Kek, k2: Kek)
    requires Begins(s) && s.keys.Next() == None && k1 != k2
    ensures exists t :: Reachable(s, t) && t.record == Pair(b, k2) && !PairOpens(t)
  {
    var both, m := BothSave(s, a, b, k1, k2), Mint(a, 0, Resolving(HasKek(k1)));
    BothFindNone(s, a, b, k1, k2);
    RestoreSavesKey(s, both, b, k2);
    var s1 := both.(keys := s.keys.(kek := Some(k2)), restores := multiset{ResolvingKey(b, HasKek(k2))});
    assert s1 == MintAt(s1, m, Resolving(SavingKek(k1)));
    MintSavesKey(s, s1, m, k1);
    var s2 := s1.(keys := s.keys.(kek := Some(k1)), mint := Some(m));
    PairGoesDown(s, s2, b, k2);
    var t := s2.(keys := s2.keys.(cached := Some(k2)), record := Pair(b, k2), restores := multiset{LoadingSealed(b)});
    assert Reachable(s, t) && t.record == Pair(b, k2) && !PairOpens(t);
  }

  // ---- A record that recovery opens under another key

  predicate HasRival(s: State, k: Kek, l: Kek) { s.keys.kek == Some(k) && s.keys.legacy == Some(l) && k != l && !NoRival(Some(l), s.record, k) }

  /** A mint has come and gone; a boot that could not open the record has opened it under the legacy key. */
  function AboutToPromote(s: State, a: Owner, made: Scalar, k: Kek, l: Kek, who: Option<Owner>): State {
    s.(keys := s.keys.(cached := Some(l)), row := Some(SealedRow(a, made, k)), cached := Some(Cached(a, 0, made)), boot := Some(Promoting(who, l)))
  }

  /** A boot that cannot open the record for a moment opens it under the legacy key. */
  lemma BootRecovers(s0: State, m: State, k: Kek, l: Kek)
    requires Reachable(s0, m) && !m.Locked() && m.live == None && !m.record.Absent?
    requires m.keys.cached == Some(k) && m.keys.legacy == Some(l)
    ensures Reachable(s0, m.Boots(Retrying(m.record, l)))
  {
    ReachStep(s0, m, StartBoot);
    ReachBoot(s0, m.Boots(LoadingRecord), LoadingRecord, false);
    OpeningFails(s0, m, k, l);
  }

  lemma OpeningFails(s0: State, m: State, k: Kek, l: Kek)
    requires Reachable(s0, m.Boots(Unlocking(m.record, Resolved(k)))) && m.keys.legacy == Some(l)
    ensures Reachable(s0, m.Boots(Retrying(m.record, l)))
  {
    var rec := m.record;
    ReachBoot(s0, m.Boots(Unlocking(rec, Resolved(k))), Unlocking(rec, Resolved(k)), false);
    ReachBoot(s0, m.Boots(Opening(rec, k)), Opening(rec, k), true);
    ReachBoot(s0, m.Boots(Recovering(rec)), Recovering(rec), false);
  }

  lemma RecoveryStarts(s: State, a: Owner, made: Scalar, k: Kek, l: Kek)
    requires Begins(s) && HasRival(s, k, l) && NoRowOf(s, a)
    ensures Opened(s.record, s.record, l).Some?
    ensures Reachable(s, AboutToPromote(s, a, made, k, l, Opened(s.record, s.record, l).value))
  {
    var m := Minted(s, Mint(a, 0, Resolving(HasKek(k))), k, made);
    ReachStart(s);
    MintRuns(s, s, a, made, k);
    BootRecovers(s, m, k, l);
    ReachBoot(s, m.Boots(Retrying(s.record, l)), Retrying(s.record, l), false);
  }

  /** The boot overwrites the wrapping key; the row served from was wrapped under it. */
  lemma RecoveryLosesARow(s: State, a: Owner, made: Scalar, k: Kek, l: Kek)
    requires Begins(s) && HasRival(s, k, l) && NoRowOf(s, a)
    ensures exists t :: Reachable(s, t) && t.Serves(a) && t.restores == multiset{} && !Publishing(t) && !Readable(t, a, t.cached.value.priv)
  {
    RecoveryStarts(s, a, made, k, l);
    var who := Opened(s.record, s.record, l).value;
    var q := AboutToPromote(s, a, made, k, l, who);
    ReachBoot(s, q, Promoting(who, l), false);
    var t := BootStep(q, Promoting(who, l), "", 0, false);
    assert Reachable(s, t) && t.Serves(a) && !Readable(t, a, t.cached.value.priv);
  }

  /** A restore that resolves its key while the boot is about to overwrite it is locked out. */
  lemma RecoveryLocksOutARestore(s: State, b: Owner, k: Kek, l: Kek)
    requires Begins(s) && HasRival(s, k, l)
    ensures exists t :: Reachable(s, t) && t.record == Pair(b, k) && !PairOpens(t)
  {
    var a := AnotherOwner(s);
    RecoveryStarts(s, a, [], k, l);
    var who := Opened(s.record, s.record, l).value;
    var q := AboutToPromote(s, a, [], k, l, who);
    RestoreLands(s, q, b, k);
    var s3 := q.(keys := q.keys.(cached := Some(k)), record := Pair(b, k), restores := multiset{LoadingSealed(b)});
    ReachBoot(s, s3, Promoting(who, l), false);
    var t := BootStep(s3, Promoting(who, l), "", 0, false);
    assert Reachable(s, t) && t.record == Pair(b, k) && !PairOpens(t);
  }

  // ---- No wrapping key but the legacy one: a call that cannot read it makes its own

  /** Another caller has read the legacy key and is about to copy it. */
  function AboutToCopy(s: State, l: Kek): State { s.(others := multiset{CopyingLegacy(l)}) }

  predicate LegacyOnly(s: State, l: Kek) { Begins(s) && s.keys.kek == None && s.keys.legacy == Some(l) }

  lemma OtherFindsLegacy(s: State, l: Kek)
    requires LegacyOnly(s, l)
    ensures Reachable(s, AboutToCopy(s, l))
  {
    ReachStart(s);
    ReachStep(s, s, StartOther);
    assert Step(s, StartOther) == s.(others := multiset{ReadingKek});
    OtherGoes(s, s, ReadingKek, ReadingLegacy, l);
    OtherGoes(s, s, ReadingLegacy, CopyingLegacy(l), l);
  }

  lemma OtherCopies(s0: State, s: State, l: Kek)
    requires Reachable(s0, AboutToCopy(s, l))
    ensures Reachable(s0, s.(keys := s.keys.(kek := Some(l)), others := multiset{HasKek(l)}))
  {
    OtherGoes(s0, s, CopyingLegacy(l), HasKek(l), l);
  }

  lemma MintAsksLegacy(s: State, a: Owner, k: Kek, l: Kek)
    requires LegacyOnly(s, l)
    ensures Reachable(s, MintAt(AboutToCopy(s, l), Mint(a, 0, Resolving(HasKek(k))), Resolving(ReadingLegacy)))
  {
    var u, m := AboutToCopy(s, l), Mint(a, 0, Resolving(HasKek(k)));
    OtherFindsLegacy(s, l);
    MintBegins(s, u, a, m.at);
    ReachMint(s, MintAt(u, m, Resolving(ReadingKek)), [], k);
  }

  /** Its read of the legacy row fails. */
  lemma MintMissesLegacy(s: State, a: Owner, k: Kek, l: Kek)
    requires LegacyOnly(s, l)
    ensures Reached(s, MintAt(AboutToCopy(s, l), Mint(a, 0, Resolving(HasKek(k))), Resolving(SavingKek(k))))
  {
    var v := MintAt(AboutToCopy(s, l), Mint(a, 0, Resolving(HasKek(k))), Resolving(ReadingLegacy));
    MintAsksLegacy(s, a, k, l);
    ReachedStart(s);
    ReachedOn(s, s, v);
    ReachedStep(s, v, MintResumes([], k, true));
  }

  /** The mint saves a key of its own and wraps under it; then the legacy key is copied over it. */
  lemma AMissedLegacyKeyLosesARow(s: State, a: Owner, made: Scalar, k: Kek, l: Kek)
    requires LegacyOnly(s, l) && NoRowOf(s, a) && k != l
    ensures exists t :: Reached(s, t) && t.Serves(a) && t.restores == multiset{} && !Publishing(t) && !Readable(t, a, t.cached.value.priv)
  {
    var m := Mint(a, 0, Resolving(HasKek(k)));
    var u := MintAt(AboutToCopy(s, l), m, Resolving(SavingKek(k)));
    MintMissesLegacy(s, a, k, l);
    ReachStart(u);
    MintSavesKey(u, u, m, k);
    var v := MintAt(u, m, Resolving(HasKek(k))).(keys := u.keys.(kek := Some(k)));
    MintEnds(u, v, m, k, made);
    OtherCopies(u, Minted(v, m, k, made), l);
    var t := Minted(v, m, k, made).(keys := Keys(Some(l), Some(l), Some(k)), others := multiset{HasKek(l)});
    ReachedOn(s, u, t);
    assert Reached(s, t) && t.Serves(a) && !Readable(t, a, t.cached.value.priv);
  }

  lemma RestoreAsksLegacy(s: State, b: Owner, l: Kek)
    requires LegacyOnly(s, l)
    ensures Reachable(s, AboutToCopy(s, l).(restores := multiset{ResolvingKey(b, ReadingLegacy)}))
  {
    var u := AboutToCopy(s, l);
    OtherFindsLegacy(s, l);
    ReachStep(s, u, StartRestore(b));
    var v := u.(restores := multiset{ResolvingKey(b, ReadingKek)});
    assert Step(u, StartRestore(b)) == v;
    RestoreGoes(s, v, ResolvingKey(b, ReadingKek), ResolvingKey(b, ReadingLegacy), l);
  }

  /** A restore likewise. */
  lemma RestoreMissesLegacy(s: State, b: Owner, k: Kek, l: Kek)
    requires LegacyOnly(s, l)
    ensures Reached(s, AboutToCopy(s, l).(restores := multiset{ResolvingKey(b, SavingKek(k))}))
  {
    var at, next := ResolvingKey(b, ReadingLegacy), ResolvingKey(b, SavingKek(k));
    var v := AboutToCopy(s, l).(restores := multiset{at});
    RestoreAsksLegacy(s, b, l);
    ReachedStart(s);
    ReachedOn(s, s, v);
    ReachedStep(s, v, RestoreResumes(at, k, true));
    assert multiset{at} - multiset{at} + multiset{next} == multiset{next};
  }

  /** The restored pair lies under the restore's own key, and the legacy key is copied over it. */
  lemma AMissedLegacyKeyLocksOut(s: State, b: Owner, k: Kek, l: Kek)
    requires LegacyOnly(s, l) && k != l
    ensures exists t :: Reached(s, t) && t.record == Pair(b, k) && !PairOpens(t)
  {
    var u := AboutToCopy(s, l).(restores := multiset{ResolvingKey(b, SavingKek(k))});
    RestoreMissesLegacy(s, b, k, l);
    ReachStart(u);
    RestoreSavesKey(u, u, b, k);
    var v := u.(keys := u.keys.(kek := Some(k)), restores := multiset{ResolvingKey(b, HasKek(k))});
    PairGoesDown(u, v, b, k);
    var w := v.(keys := v.keys.(cached := Some(k)), record := Pair(b, k), restores := multiset{LoadingSealed(b)});
    OtherCopies(u, w, l);
    var t := w.(keys := w.keys.(kek := Some(l)), others := multiset{HasKek(l)});
    ReachedOn(s, u, t);
    assert Reached(s, t) && t.record == Pair(b, k) && !PairOpens(t);
  }

  // ---- The exact conditions

  /** What the session would serve is readable, but for a mint at its last step or a restore at its own. */
  ghost predicate Durable(t: State) {
    forall owner | t.Serves(owner) && !Publishing(t) && !Deleted(t, owner, t.cached.value.priv) :: Readable(t, owner, t.cached.value.priv)
  }

  lemma UnsoundIs(s: State) returns (k: Kek, l: Kek)
    requires !Sound(s)
    ensures s.keys.Next() == None || HasRival(s, k, l)
  {
    k, l := 0, 0;
    if s.keys.Next().Some? { k, l := s.keys.Next().value, s.keys.legacy.value; }
  }

  /** While no call takes an unreadable legacy row for an absent one, every run keeps what it serves
      durable if and only if the disk it starts on is sound. */
  lemma DurableWhileLegacyReads(s: State)
    requires Begins(s)
    ensures (forall t | Reachable(s, t) :: Durable(t)) <==> Sound(s)
  {
    if Sound(s) {
      forall t | Reachable(s, t) ensures Durable(t) {
        var es :| LegacyReads(s, es) && After(s, es) == t;
        forall owner | t.Serves(owner) ensures Deleted(t, owner, t.cached.value.priv) || (Readable(t, owner, t.cached.value.priv) <==> !Publishing(t)) {
          WhatIsServedIsDurable(s, es, owner);
        }
      }
    } else {
      var a := AnotherOwner(s);
      var k, l := UnsoundIs(s);
      if s.keys.Next() == None {
        OverlappingMintIsLost(s, a, "", [], 1, 2);
        assert !Durable(RowUnderALostKey(s, a, [], 1, 2));
      } else {
        RecoveryLosesARow(s, a, [], k, l);
      }
    }
  }

  /** And leaves the device able to open its pair if and only if the disk is sound and the pair opens to
      begin with. */
  lemma OpensWhileLegacyReads(s: State)
    requires Begins(s)
    ensures (forall t | Reachable(s, t) :: PairOpens(t)) <==> Sound(s) && PairOpens(s)
  {
    if Sound(s) && PairOpens(s) {
      forall t | Reachable(s, t) ensures PairOpens(t) {
        var es :| LegacyReads(s, es) && After(s, es) == t;
        ThePairAlwaysOpens(s, es);
      }
    } else if PairOpens(s) {
      var k, l := UnsoundIs(s);
      if s.keys.Next() == None { OverlappingRestoreLocksOut(s, "", "", 1, 2); } else { RecoveryLocksOutARestore(s, "", k, l); }
    } else {
      ReachStart(s);
    }
  }

  /** Over all runs, whatever fails: what is served stays durable if and only if the disk the session
      starts on has a wrapping key of its own, and is sound. */
  lemma DurableExactly(s: State)
    requires Begins(s)
    ensures (forall t | Reached(s, t) :: Durable(t)) <==> s.keys.kek.Some? && Sound(s)
  {
    if s.keys.kek.Some? && Sound(s) {
      forall t | Reached(s, t) ensures Durable(t) {
        var es :| After(s, es) == t;
        forall owner | t.Serves(owner) ensures Deleted(t, owner, t.cached.value.priv) || (Readable(t, owner, t.cached.value.priv) <==> !Publishing(t)) {
          WhatIsServedIsDurable(s, es, owner);
        }
      }
    } else if Sound(s) {
      var l := s.keys.legacy.value;
      AMissedLegacyKeyLosesARow(s, AnotherOwner(s), [], l + 1, l);
    } else {
      DurableWhileLegacyReads(s);
      var t :| Reachable(s, t) && !Durable(t);
      ReachedStart(s);
      ReachedOn(s, s, t);
    }
  }

  /** Over all runs: the pair on disk can always be opened if and only if the disk has a wrapping key of
      its own, is sound, and its pair opens to begin with. */
  lemma OpensExactly(s: State)
    requires Begins(s)
    ensures (forall t | Reached(s, t) :: PairOpens(t)) <==> s.keys.kek.Some? && Sound(s) && PairOpens(s)
  {
    if s.keys.kek.Some? && Sound(s) && PairOpens(s) {
      forall t | Reached(s, t) ensures PairOpens(t) {
        var es :| After(s, es) == t;
        ThePairAlwaysOpens(s, es);
      }
    } else if Sound(s) && PairOpens(s) {
      var l := s.keys.legacy.value;
      AMissedLegacyKeyLocksOut(s, "", l + 1, l);
    } else {
      OpensWhileLegacyReads(s);
      var t :| Reachable(s, t) && !PairOpens(t);
      ReachedStart(s);
      ReachedOn(s, s, t);
    }
  }
}
