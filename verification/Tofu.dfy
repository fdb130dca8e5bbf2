/** Trust on first use: pinned keys in a store of bounded size. */
module Tofu {
  import opened Basics

  const TOFU_MAX_ENTRIES: nat := 1000

  datatype TofuRecord = TofuRecord(pubkeyB64: string, firstSeen: int, lastSeen: int)

  /** A property of the store object. */
  datatype Pin = Pin(id: string, rec: TofuRecord)

  /** The store object: its properties in insertion order. */
  type Pins = seq<Pin>

  function Find(s: Pins, id: string): Option<TofuRecord>
    decreases |s|
  {
    if s == [] then None else if s[0].id == id then Some(s[0].rec) else Find(s[1..], id)
  }

  /** Assigning a property: in place when it is there, else at the end. */
  function Assign(s: Pins, id: string, rec: TofuRecord): (r: Pins)
    ensures |r| == if Find(s, id).Some? then |s| else |s| + 1
    decreases |s|
  {
    if s == [] then [Pin(id, rec)]
    else if s[0].id == id then [Pin(id, rec)] + s[1..]
    else [s[0]] + Assign(s[1..], id, rec)
  }

  /** A stable sort by lastSeen, as Array.sort does: equals keep their order. */
  function InsertLate(s: Pins, p: Pin): (r: Pins)
    ensures |r| == |s| + 1
    decreases |s|
  {
    if s == [] || s[|s| - 1].rec.lastSeen <= p.rec.lastSeen then s + [p]
    else InsertLate(s[..|s| - 1], p) + [s[|s| - 1]]
  }

  function SortByLastSeen(s: Pins): (r: Pins)
    ensures |r| == |s|
    decreases |s|
  {
    if s == [] then [] else InsertLate(SortByLastSeen(s[..|s| - 1]), s[|s| - 1])
  }

  function TofuEvict(s: Pins): Pins {
    if |s| <= TOFU_MAX_ENTRIES then s else SortByLastSeen(s)[|s| - TOFU_MAX_ENTRIES..]
  }

  datatype Trust = Trust(trusted: bool, keyChanged: bool)

  function Checked(s: Pins, id: string, key: string, now: int): Pins {
    var existing := Find(s, id);
    if existing == None then TofuEvict(Assign(s, id, TofuRecord(key, now, now)))
    else if existing.value.pubkeyB64 == key then TofuEvict(Assign(s, id, existing.value.(lastSeen := now)))
    else s
  }

  class TofuStore {
    var store: Pins

    constructor ()
      ensures store == []
    {
      store := [];
    }

    method TofuCheck(id: string, key: string, now: int) returns (r: Trust)
      modifies this
      ensures store == Checked(old(store), id, key, now)
      ensures r.trusted <==> Find(old(store), id) == None || Find(old(store), id).value.pubkeyB64 == key
      ensures r.keyChanged == !r.trusted
    {
      var existing := Find(store, id);
      if existing == None {
        store := TofuEvict(Assign(store, id, TofuRecord(key, now, now)));
        return Trust(true, false);
      }
      if existing.value.pubkeyB64 == key {
        store := TofuEvict(Assign(store, id, existing.value.(lastSeen := now)));
        return Trust(true, false);
      }
      return Trust(false, true);
    }
  }

  // ---- Contents

  predicate DistinctIds(s: Pins) { forall i, j | 0 <= i < j < |s| :: s[i].id != s[j].id }

  ghost predicate SeenBy(s: Pins, now: int) { forall p | p in s :: p.rec.lastSeen <= now }

  lemma {:induction false} FindIsMembership(s: Pins, id: string)
    requires DistinctIds(s)
    ensures forall p | p in s && p.id == id :: Find(s, id) == Some(p.rec)
    ensures Find(s, id).Some? ==> Pin(id, Find(s, id).value) in s
    decreases |s|
  {
    if s != [] {
      FindIsMembership(s[1..], id);
      assert s == [s[0]] + s[1..];
    }
  }

  lemma {:induction false} AssignMembers(s: Pins, id: string, rec: TofuRecord)
    requires DistinctIds(s)
    ensures forall p :: p in Assign(s, id, rec) <==> p == Pin(id, rec) || (p in s && p.id != id)
    decreases |s|
  {
    if s != [] {
      AssignMembers(s[1..], id, rec);
      assert s == [s[0]] + s[1..];
    }
  }

  lemma {:induction false} AssignContents(s: Pins, id: string, rec: TofuRecord)
    requires DistinctIds(s)
    ensures DistinctIds(Assign(s, id, rec))
    ensures forall p :: p in Assign(s, id, rec) <==> p == Pin(id, rec) || (p in s && p.id != id)
    decreases |s|
  {
    AssignMembers(s, id, rec);
    if s != [] && s[0].id != id {
      AssignContents(s[1..], id, rec);
      AssignMembers(s[1..], id, rec);
      ConsDistinct(s[0], Assign(s[1..], id, rec));
    }
  }

  lemma {:induction false} AssignAppends(s: Pins, id: string, rec: TofuRecord)
    requires Find(s, id) == None
    ensures Assign(s, id, rec) == s + [Pin(id, rec)]
    decreases |s|
  {
    if s != [] {
      AssignAppends(s[1..], id, rec);
      assert s == [s[0]] + s[1..];
    }
  }

  lemma ConsDistinct(p: Pin, s: Pins)
    requires DistinctIds(s) && forall x | x in s :: x.id != p.id
    ensures DistinctIds([p] + s)
  {
  }

  lemma SnocDistinct(s: Pins, p: Pin)
    requires DistinctIds(s) && forall x | x in s :: x.id != p.id
    ensures DistinctIds(s + [p])
  {
  }

  lemma {:induction false} InsertMembers(s: Pins, p: Pin)
    ensures forall x :: x in InsertLate(s, p) <==> x in s || x == p
    decreases |s|
  {
    if s != [] {
      InsertMembers(s[..|s| - 1], p);
      assert s == s[..|s| - 1] + [s[|s| - 1]];
    }
  }

  lemma {:induction false} InsertContents(s: Pins, p: Pin)
    ensures DistinctIds(s) && (forall x | x in s :: x.id != p.id) ==> DistinctIds(InsertLate(s, p))
    ensures Ascending(s) ==> Ascending(InsertLate(s, p))
    decreases |s|
  {
    if s != [] && !(s[|s| - 1].rec.lastSeen <= p.rec.lastSeen) {
      var init, last := s[..|s| - 1], s[|s| - 1];
      InsertContents(init, p);
      InsertMembers(init, p);
      if DistinctIds(s) && forall x | x in s :: x.id != p.id {
        assert last in s && forall x | x in init :: x in s;
        SnocDistinct(InsertLate(init, p), last);
      }
      if Ascending(s) { SnocAscending(InsertLate(init, p), last); }
    }
  }

  lemma SnocAscending(s: Pins, p: Pin)
    requires Ascending(s) && forall x | x in s :: x.rec.lastSeen <= p.rec.lastSeen
    ensures Ascending(s + [p])
  {
  }

  predicate Ascending(s: Pins) { forall i, j | 0 <= i < j < |s| :: s[i].rec.lastSeen <= s[j].rec.lastSeen }

  lemma {:induction false} SortContents(s: Pins)
    ensures forall x :: x in SortByLastSeen(s) <==> x in s
    ensures DistinctIds(s) ==> DistinctIds(SortByLastSeen(s))
    ensures Ascending(SortByLastSeen(s))
    decreases |s|
  {
    if s != [] {
      var init, last := s[..|s| - 1], s[|s| - 1];
      assert s == init + [last];
      SortContents(init);
      InsertMembers(SortByLastSeen(init), last);
      InsertContents(SortByLastSeen(init), last);
    }
  }

  /** Eviction leaves at most 1000 pins, all of them old ones, and drops none seen later than one it keeps. */
  lemma EvictionKeepsTheLatest(s: Pins)
    requires DistinctIds(s)
    ensures var kept := TofuEvict(s);
            && DistinctIds(kept) && |kept| == Min(|s|, TOFU_MAX_ENTRIES)
            && (forall p | p in kept :: p in s)
            && (forall gone, p | gone in s && gone !in kept && p in kept :: gone.rec.lastSeen <= p.rec.lastSeen)
  {
    if |s| > TOFU_MAX_ENTRIES {
      SortContents(s);
      var sorted := SortByLastSeen(s);
      var cut := |s| - TOFU_MAX_ENTRIES;
      assert sorted == sorted[..cut] + sorted[cut..];
      forall gone, p | gone in s && gone !in sorted[cut..] && p in sorted[cut..] ensures gone.rec.lastSeen <= p.rec.lastSeen {
        assert gone in sorted[..cut];
      }
    }
  }

  /** The pin added last, and seen no earlier than any other, is kept: the sort leaves it last. */
  lemma NewestIsKept(s: Pins, p: Pin)
    requires SeenBy(s, p.rec.lastSeen)
    ensures p in TofuEvict(s + [p])
  {
    var all := s + [p];
    assert all[..|all| - 1] == s;
    SortContents(s);
    var sorted := SortByLastSeen(s);
    assert SortByLastSeen(all) == InsertLate(sorted, p);
    if s != [] { assert sorted[|sorted| - 1] in s; }
    assert SortByLastSeen(all) == sorted + [p];
    if |all| > TOFU_MAX_ENTRIES { assert TofuEvict(all)[TOFU_MAX_ENTRIES - 1] == p; }
  }

  // ---- Runs

  datatype Check = Check(id: string, key: string, now: int)

  function After(checks: seq<Check>): Pins
    decreases |checks|
  {
    if checks == [] then []
    else
      var c := checks[|checks| - 1];
      Checked(After(checks[..|checks| - 1]), c.id, c.key, c.now)
  }

  /** A clock that never goes back. */
  predicate Ordered(checks: seq<Check>) { forall i, j | 0 <= i <= j < |checks| :: checks[i].now <= checks[j].now }

  /** A pin that went because the store was full of pins seen at least as late. */
  ghost predicate DroppedAsOldest(t: Pins, p: Pin) {
    Find(t, p.id) == None && |t| == TOFU_MAX_ENTRIES && forall q | q in t :: p.rec.lastSeen <= q.rec.lastSeen
  }

  lemma KeptOrDropped(s: Pins, p: Pin)
    requires DistinctIds(s) && p in s
    ensures p in TofuEvict(s) || DroppedAsOldest(TofuEvict(s), p)
  {
    var t := TofuEvict(s);
    EvictionKeepsTheLatest(s);
    if p !in t {
      FindIsMembership(t, p.id);
      FindIsMembership(s, p.id);
    }
  }

  /** What saving a store with the pin just checked makes of it. */
  lemma OneSave(s: Pins, id: string, rec: TofuRecord)
    requires DistinctIds(s) && |s| <= TOFU_MAX_ENTRIES && SeenBy(s, rec.lastSeen)
    ensures var t := TofuEvict(Assign(s, id, rec));
            && DistinctIds(t) && |t| <= TOFU_MAX_ENTRIES
            && (forall p | p in t :: p == Pin(id, rec) || (p in s && p.id != id))
            && Find(t, id) == Some(rec)
  {
    var whole := Assign(s, id, rec);
    AssignContents(s, id, rec);
    EvictionKeepsTheLatest(whole);
    if Find(s, id) == None {
      AssignAppends(s, id, rec);
      NewestIsKept(s, Pin(id, rec));
    }
    FindIsMembership(TofuEvict(whole), id);
  }

  lemma OneSaveKeeps(s: Pins, id: string, rec: TofuRecord, p: Pin)
    requires DistinctIds(s) && p in s && p.id != id
    ensures var t := TofuEvict(Assign(s, id, rec));
            p in t || DroppedAsOldest(t, p)
  {
    AssignContents(s, id, rec);
    KeptOrDropped(Assign(s, id, rec), p);
  }

  /** The record a check pins, if it pins one: a mismatch with a known key pins nothing. */
  function Pinned(s: Pins, c: Check): Option<TofuRecord> {
    var known := Find(s, c.id);
    if known.Some? && known.value.pubkeyB64 != c.key then None
    else Some(TofuRecord(c.key, if known.Some? then known.value.firstSeen else c.now, c.now))
  }

  /** One check from a store within its bound: what it pins, what it leaves, what it may drop. */
  lemma OneCheck(s: Pins, c: Check)
    requires DistinctIds(s) && |s| <= TOFU_MAX_ENTRIES && SeenBy(s, c.now)
    ensures var t := Checked(s, c.id, c.key, c.now);
            && DistinctIds(t) && |t| <= TOFU_MAX_ENTRIES && SeenBy(t, c.now)
            && (if Pinned(s, c) == None then t == s else Find(t, c.id) == Pinned(s, c))
            && (forall p | p in s && p.id != c.id :: p in t || DroppedAsOldest(t, p))
            && (forall p | p in t && p.id != c.id :: p in s)
  {
    if Pinned(s, c).Some? {
      var rec := Pinned(s, c).value;
      assert Checked(s, c.id, c.key, c.now) == TofuEvict(Assign(s, c.id, rec));
      OneSave(s, c.id, rec);
      forall p | p in s && p.id != c.id ensures p in TofuEvict(Assign(s, c.id, rec)) || DroppedAsOldest(TofuEvict(Assign(s, c.id, rec)), p) {
        OneSaveKeeps(s, c.id, rec, p);
      }
    }
  }

  /** Over every run the store holds at most 1000 pins, none seen in the future. */
  lemma {:induction false} EveryRunIsBounded(checks: seq<Check>, now: int)
    requires Ordered(checks) && (checks != [] ==> checks[|checks| - 1].now <= now)
    ensures DistinctIds(After(checks)) && |After(checks)| <= TOFU_MAX_ENTRIES && SeenBy(After(checks), now)
    decreases |checks|
  {
    if checks != [] {
      var init, c := checks[..|checks| - 1], checks[|checks| - 1];
      EveryRunIsBounded(init, c.now);
      OneCheck(After(init), c);
    }
  }

  /** The pin of `id` after the first `k` checks of a run. */
  function PinAt(checks: seq<Check>, k: nat, id: string): Option<TofuRecord>
    requires k <= |checks|
  {
    Find(After(checks[..k]), id)
  }

  predicate SamePin(a: Option<TofuRecord>, b: Option<TofuRecord>) {
    a.Some? && b.Some? && b.value.pubkeyB64 == a.value.pubkeyB64 && b.value.firstSeen == a.value.firstSeen
  }

  /** One check, whatever the clock says: a pin that is still there is the same pin. */
  lemma CheckKeepsPin(s: Pins, c: Check, id: string)
    requires DistinctIds(s)
    ensures var t := Checked(s, c.id, c.key, c.now);
            DistinctIds(t) && (Find(s, id).Some? && Find(t, id).Some? ==> SamePin(Find(s, id), Find(t, id)))
  {
    if Pinned(s, c).Some? {
      var rec := Pinned(s, c).value;
      var whole := Assign(s, c.id, rec);
      AssignContents(s, c.id, rec);
      EvictionKeepsTheLatest(whole);
      FindIsMembership(s, id);
      FindIsMembership(TofuEvict(whole), id);
    }
  }

  lemma NextCheck(checks: seq<Check>, k: nat)
    requires k < |checks|
    ensures var c := checks[k]; After(checks[..k + 1]) == Checked(After(checks[..k]), c.id, c.key, c.now)
  {
    assert checks[..k + 1][..k] == checks[..k];
  }

  lemma {:induction false} DistinctAfter(checks: seq<Check>, k: nat)
    requires k <= |checks|
    ensures DistinctIds(After(checks[..k]))
  {
    if k > 0 {
      DistinctAfter(checks, k - 1);
      NextCheck(checks, k - 1);
      CheckKeepsPin(After(checks[..k - 1]), checks[k - 1], "");
    }
  }

  /** A pinned key never changes while its entry remains, on any run and with any clock. */
  lemma {:induction false} PinnedKeyNeverChanges(checks: seq<Check>, from: nat, until: nat, id: string)
    requires from <= until <= |checks| && forall k | from <= k <= until :: PinAt(checks, k, id).Some?
    ensures SamePin(PinAt(checks, from, id), PinAt(checks, until, id))
    decreases until
  {
    if until > from {
      PinnedKeyNeverChanges(checks, from, until - 1, id);
      PinStays(checks, until - 1, id);
    }
  }

  lemma PinStays(checks: seq<Check>, k: nat, id: string)
    requires k < |checks| && PinAt(checks, k, id).Some? && PinAt(checks, k + 1, id).Some?
    ensures SamePin(PinAt(checks, k, id), PinAt(checks, k + 1, id))
  {
    DistinctAfter(checks, k);
    NextCheck(checks, k);
    CheckKeepsPin(After(checks[..k]), checks[k], id);
  }
}
