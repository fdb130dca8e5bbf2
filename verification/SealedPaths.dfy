/** Stretches of runs: what a mint, a restore, a boot or another caller comes to when it goes on undisturbed. */
module SealedPaths {
  import opened Basics
  import opened WrappingKey
  import opened SealedKey
  import opened SealedRuns

  /** Reached by a run in which no call takes an unreadable legacy row for an absent one. */
  ghost predicate Reachable(s: State, t: State) { exists es :: LegacyReads(s, es) && After(s, es) == t }

  lemma ReachStart(s: State)
    ensures Reachable(s, s)
  {
    assert LegacyReads(s, []) && After(s, []) == s;
  }

  lemma ReachStep(s: State, t: State, e: Event)
    requires Reachable(s, t) && !FailsLegacy(t, e)
    ensures Reachable(s, Step(t, e))
  {
    var es :| LegacyReads(s, es) && After(s, es) == t;
    assert (es + [e])[..|es|] == es;
    assert LegacyReads(s, es + [e]) && After(s, es + [e]) == Step(t, e);
  }

  /** Reached by any run at all. */
  ghost predicate Reached(s: State, t: State) { exists es :: After(s, es) == t }

  lemma ReachedStart(s: State)
    ensures Reached(s, s)
  {
    assert After(s, []) == s;
  }

  lemma ReachedStep(s: State, t: State, e: Event)
    requires Reached(s, t)
    ensures Reached(s, Step(t, e))
  {
    var es :| After(s, es) == t;
    assert (es + [e])[..|es|] == es;
    assert After(s, es + [e]) == Step(t, e);
  }

  lemma {:induction false} AfterBoth(s: State, es: seq<Event>, more: seq<Event>)
    ensures After(s, es + more) == After(After(s, es), more)
    decreases |more|
  {
    if more == [] {
      assert es + more == es;
    } else {
      assert (es + more)[..|es + more| - 1] == es + more[..|more| - 1];
      AfterBoth(s, es, more[..|more| - 1]);
    }
  }

  lemma ReachedOn(s: State, u: State, t: State)
    requires Reached(s, u) && Reachable(u, t)
    ensures Reached(s, t)
  {
    var es :| After(s, es) == u;
    var more :| LegacyReads(u, more) && After(u, more) == t;
    AfterBoth(s, es, more);
  }

  // ---- Mints

  function MintGoes(s: State, made: Scalar, newKek: Kek): State { Step(s, MintResumes(made, newKek, false)) }

  lemma ReachMint(s0: State, s: State, made: Scalar, newKek: Kek)
    requires Reachable(s0, s)
    ensures Reachable(s0, MintGoes(s, made, newKek))
  {
    ReachStep(s0, s, MintResumes(made, newKek, false));
  }

  predicate NoRowOf(s: State, owner: Owner) { s.row.Some? ==> s.row.value.owner != owner }

  function AnotherOwner(s: State): (a: Owner)
    ensures NoRowOf(s, a)
  {
    if s.row.Some? then s.row.value.owner + "'" else ""
  }

  /** The end of a mint that finds no row of its owner and no one live. */
  function Minted(s: State, m: Mint, k: Kek, made: Scalar): State {
    s.(keys := s.keys.(cached := Some(k)), row := Some(SealedRow(m.owner, made, k)),
       cached := Some(Cached(m.owner, m.epochAtEntry, made)), mint := None)
  }

  function MintAt(s: State, m: Mint, at: MintAwait): State { s.(mint := Some(m.(at := at))) }

  lemma MintLoads(s0: State, s: State, m: Mint, k: Kek)
    requires Reachable(s0, MintAt(s, m, Resolving(HasKek(k))))
    ensures Reachable(s0, MintAt(s, m, Loading(k)).(keys := s.keys.(cached := Some(k))))
  {
    var s1 := MintAt(s, m, Resolving(HasKek(k)));
    ReachMint(s0, s1, [], k);
    var s2 := MintAt(s, m, Resolving(Resolved(k))).(keys := s.keys.(cached := Some(k)));
    assert MintGoes(s1, [], k) == s2;
    ReachMint(s0, s2, [], k);
  }

  lemma MintWraps(s0: State, s: State, m: Mint, k: Kek, made: Scalar)
    requires Reachable(s0, MintAt(s, m, Loading(k))) && m.epochAtEntry == s.epoch && s.live == None && NoRowOf(s, m.owner)
    ensures Reachable(s0, MintAt(s, m, Saving(k, made)))
  {
    ReachMint(s0, MintAt(s, m, Loading(k)), made, k);
    assert MintGoes(MintAt(s, m, Loading(k)), made, k) == MintAt(s, m, Wrapping(k, made));
    ReachMint(s0, MintAt(s, m, Wrapping(k, made)), made, k);
  }

  lemma MintWrites(s0: State, s: State, m: Mint, k: Kek, made: Scalar)
    requires Reachable(s0, MintAt(s, m, Saving(k, made)))
    ensures Reachable(s0, MintAt(s, m, Committed(k, made)).(row := Some(SealedRow(m.owner, made, k))))
  {
    ReachMint(s0, MintAt(s, m, Saving(k, made)), made, k);
  }

  lemma MintPublishes(s0: State, s: State, m: Mint, k: Kek, made: Scalar)
    requires Reachable(s0, MintAt(s, m, Committed(k, made)))
    ensures Reachable(s0, s.(cached := Some(Cached(m.owner, m.epochAtEntry, made)), mint := None))
  {
    ReachMint(s0, MintAt(s, m, Committed(k, made)), made, k);
  }

  lemma MintSaves(s0: State, s: State, m: Mint, k: Kek, made: Scalar)
    requires Reachable(s0, MintAt(s, m, Saving(k, made)))
    ensures Reachable(s0, Minted(s, m, k, made).(keys := s.keys))
  {
    MintWrites(s0, s, m, k, made);
    MintPublishes(s0, s.(row := Some(SealedRow(m.owner, made, k))), m, k, made);
  }

  /** A mint enters while no key is cached. */
  lemma MintBegins(s0: State, s: State, a: Owner, at: MintAwait)
    requires Reachable(s0, s) && !s.Locked() && !s.Serves(a) && s.keys.cached == None
    ensures Reachable(s0, MintAt(s, Mint(a, s.epoch, at), Resolving(ReadingKek)))
  {
    ReachStep(s0, s, Enter(a));
  }

  /** A mint enters while the key is cached. */
  lemma MintEnters(s0: State, s: State, a: Owner, k: Kek)
    requires Reachable(s0, s) && !s.Locked() && !s.Serves(a) && s.keys.cached == Some(k)
    ensures Reachable(s0, MintAt(s, Mint(a, s.epoch, Resolving(HasKek(k))), Loading(k)))
  {
    var m := Mint(a, s.epoch, Resolving(HasKek(k)));
    ReachStep(s0, s, Enter(a));
    ReachMint(s0, MintAt(s, m, Resolving(Resolved(k))), [], k);
  }

  lemma MintEnds(s0: State, s: State, m: Mint, k: Kek, made: Scalar)
    requires Reachable(s0, s) && s.mint == Some(m) && m.at == Resolving(HasKek(k)) && m.epochAtEntry == s.epoch
    requires s.live == None && NoRowOf(s, m.owner)
    ensures Reachable(s0, Minted(s, m, k, made))
  {
    assert s == MintAt(s, m, Resolving(HasKek(k)));
    MintLoads(s0, s, m, k);
    var t := s.(keys := s.keys.(cached := Some(k)));
    MintWraps(s0, t, m, k, made);
    MintSaves(s0, t, m, k, made);
  }

  /** A whole mint, where the key is on disk or in the cache. */
  lemma MintRuns(s0: State, s: State, a: Owner, made: Scalar, k: Kek)
    requires Reachable(s0, s) && !s.Locked() && !s.Serves(a) && s.live == None && NoRowOf(s, a)
    requires s.keys.cached == Some(k) || (s.keys.cached == None && s.keys.kek == Some(k))
    ensures Reachable(s0, Minted(s, Mint(a, s.epoch, Resolving(HasKek(k))), k, made))
  {
    var m := Mint(a, s.epoch, Resolving(HasKek(k)));
    if s.keys.cached == None {
      MintBegins(s0, s, a, m.at);
      ReachMint(s0, MintAt(s, m, Resolving(ReadingKek)), made, k);
      MintEnds(s0, MintAt(s, m, Resolving(HasKek(k))), m, k, made);
    } else {
      MintEnters(s0, s, a, k);
      MintWraps(s0, s, m, k, made);
      MintSaves(s0, s, m, k, made);
    }
  }

  // ---- Restores and other callers

  /** A lone restore moves on. */
  lemma RestoreGoes(s0: State, s: State, r: Restore, next: Restore, newKek: Kek)
    requires Reachable(s0, s) && s.restores == multiset{r}
    requires RestoreStep(s, r, newKek, false).restores == multiset{r} - multiset{r} + multiset{next}
    ensures var t := RestoreStep(s, r, newKek, false);
            Reachable(s0, t) && t == t.(restores := multiset{next})
  {
    ReachStep(s0, s, RestoreResumes(r, newKek, false));
  }

  lemma PairGoesDown(s0: State, s: State, owner: Owner, k: Kek)
    requires Reachable(s0, s) && s.restores == multiset{ResolvingKey(owner, HasKek(k))}
    ensures Reachable(s0, s.(keys := s.keys.(cached := Some(k)), restores := multiset{SavingPair(owner, k)}))
    ensures Reachable(s0, s.(keys := s.keys.(cached := Some(k)), record := Pair(owner, k), restores := multiset{LoadingSealed(owner)}))
  {
    RestoreGoes(s0, s, ResolvingKey(owner, HasKek(k)), ResolvingKey(owner, Resolved(k)), k);
    var s1 := s.(keys := s.keys.(cached := Some(k)), restores := multiset{ResolvingKey(owner, Resolved(k))});
    RestoreGoes(s0, s1, ResolvingKey(owner, Resolved(k)), SavingPair(owner, k), k);
    var s2 := s1.(restores := multiset{SavingPair(owner, k)});
    RestoreGoes(s0, s2, SavingPair(owner, k), LoadingSealed(owner), k);
  }

  lemma RestoreFindsItsKey(s0: State, s: State, b: Owner, k: Kek)
    requires Reachable(s0, s) && s.restores == multiset{} && s.keys.kek == Some(k)
    ensures Reachable(s0, s.(live := None, keys := s.keys.(cached := None), restores := multiset{ResolvingKey(b, HasKek(k))}))
  {
    ReachStep(s0, s, StartRestore(b));
    var s1 := s.(live := None, keys := s.keys.(cached := None), restores := multiset{ResolvingKey(b, ReadingKek)});
    assert Step(s, StartRestore(b)) == s1;
    RestoreGoes(s0, s1, ResolvingKey(b, ReadingKek), ResolvingKey(b, HasKek(k)), k);
  }

  /** A restore up to the landing of its pair, where the key is on disk. */
  lemma RestoreLands(s0: State, s: State, b: Owner, k: Kek)
    requires Reachable(s0, s) && s.restores == multiset{} && s.keys.kek == Some(k)
    ensures Reachable(s0, s.(live := None, keys := s.keys.(cached := Some(k)), record := Pair(b, k), restores := multiset{LoadingSealed(b)}))
  {
    RestoreFindsItsKey(s0, s, b, k);
    PairGoesDown(s0, s.(live := None, keys := s.keys.(cached := None), restores := multiset{ResolvingKey(b, HasKek(k))}), b, k);
  }

  /** A lone other caller moves on. */
  lemma OtherGoes(s0: State, s: State, at: Resolve, next: Resolve, newKek: Kek)
    requires Reachable(s0, s.(others := multiset{at})) && !at.Resolved? && ResolveStep(s.keys, at, newKek, false).next == Some(next)
    ensures Reachable(s0, s.(keys := ResolveStep(s.keys, at, newKek, false).keys, others := multiset{next}))
  {
    ReachStep(s0, s.(others := multiset{at}), OtherResumes(at, newKek, false));
    assert multiset{at} - multiset{at} + multiset{next} == multiset{next};
  }

  lemma ReachBoot(s0: State, s: State, at: Boot, fault: bool)
    requires Reachable(s0, s) && s.boot == Some(at) && !((at.Unlocking? || at.Persisting?) && at.at.ReadingLegacy? && fault)
    ensures Reachable(s0, BootStep(s, at, "", 0, fault))
  {
    ReachStep(s0, s, BootResumes("", 0, fault));
    assert Step(s, BootResumes("", 0, fault)) == BootStep(s, at, "", 0, fault);
  }
}
