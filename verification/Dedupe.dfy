/** The in-memory cache of bundles already seen: a Map in insertion order, used as an LRU. */
module Dedupe {
  import opened Basics

  const NUL: char := '\0'

  function Key(channelId: string, msgId: string): string { channelId + [NUL] + msgId }

  /** `s` without `k`, the rest in order: Map.delete on the insertion order. */
  function Without(s: seq<string>, k: string): seq<string>
    decreases |s|
  {
    if s == [] then []
    else if s[|s| - 1] == k then Without(s[..|s| - 1], k)
    else Without(s[..|s| - 1], k) + [s[|s| - 1]]
  }

  function Newest(s: seq<string>, n: nat): seq<string> {
    if |s| <= n then s else s[|s| - n..]
  }

  /** The distinct keys of a history of marks, in the order of their last marks. */
  function ByLastMark(marks: seq<string>): seq<string>
    decreases |marks|
  {
    if marks == [] then []
    else Without(ByLastMark(marks[..|marks| - 1]), marks[|marks| - 1]) + [marks[|marks| - 1]]
  }

  predicate Distinct(s: seq<string>) { forall i, j | 0 <= i < j < |s| :: s[i] != s[j] }

  class DedupeCache {
    const capacity: nat
    var seen: seq<string>
    ghost var marks: seq<string>

    constructor (capacity: nat := 5000)
      ensures Valid() && this.capacity == capacity && marks == []
    {
      this.capacity, seen, marks := capacity, [], [];
    }

    /** An empty map has nothing to evict, so a capacity of 0 holds one key. */
    function Holds(): nat { Max(1, capacity) }

    /** The cache is the newest part of the history. */
    ghost predicate Valid() reads this { seen == Newest(ByLastMark(marks), Holds()) }

    method HasSeen(channelId: string, msgId: string) returns (r: bool)
      requires Valid()
      ensures r <==> SeenLately(marks, Holds(), Key(channelId, msgId))
    {
      SeenLatelyIsCached(marks, Holds(), Key(channelId, msgId));
      return Key(channelId, msgId) in seen;
    }

    method MarkSeen(channelId: string, msgId: string)
      requires Valid()
      modifies this
      ensures Valid() && marks == old(marks) + [Key(channelId, msgId)]
    {
      var k := Key(channelId, msgId);
      DistinctByLastMark(marks);
      Refresh(ByLastMark(marks), Holds(), k);
      if k in seen {
        seen := Without(seen, k);
      } else if |seen| >= capacity {
        if |seen| > 0 { seen := seen[1..]; }
      }
      seen := seen + [k];
      marks := marks + [k];
      assert marks[..|marks| - 1] == old(marks);
    }

    method Clear()
      modifies this
      ensures Valid() && marks == []
    {
      seen, marks := [], [];
    }
  }

  lemma {:induction false} WithoutSplits(a: seq<string>, b: seq<string>, k: string)
    ensures Without(a + b, k) == Without(a, k) + Without(b, k)
    decreases |b|
  {
    if b == [] {
      assert a + b == a;
    } else {
      var init := b[..|b| - 1];
      WithoutSplits(a, init, k);
      assert (a + b)[..|a + b| - 1] == a + init;
    }
  }

  lemma {:induction false} WithoutMembers(s: seq<string>, k: string, x: string)
    ensures x in Without(s, k) <==> x in s && x != k
    decreases |s|
  {
    if s != [] {
      WithoutMembers(s[..|s| - 1], k, x);
      assert s == s[..|s| - 1] + [s[|s| - 1]];
    }
  }

  lemma {:induction false} WithoutAbsent(s: seq<string>, k: string)
    requires k !in s
    ensures Without(s, k) == s
    decreases |s|
  {
    if s != [] { WithoutAbsent(s[..|s| - 1], k); }
  }

  lemma {:induction false} WithoutOne(s: seq<string>, k: string)
    requires Distinct(s)
    ensures Distinct(Without(s, k)) && |Without(s, k)| == if k in s then |s| - 1 else |s|
    decreases |s|
  {
    if s != [] {
      var init, last := s[..|s| - 1], s[|s| - 1];
      WithoutOne(init, k);
      assert last !in init;
      if last == k {
        WithoutAbsent(init, k);
      } else {
        WithoutMembers(init, k, last);
        assert k in s <==> k in init;
      }
    }
  }

  lemma {:induction false} ByLastMarkMembers(marks: seq<string>, x: string)
    ensures x in ByLastMark(marks) <==> x in marks
    decreases |marks|
  {
    if marks != [] {
      ByLastMarkMembers(marks[..|marks| - 1], x);
      WithoutMembers(ByLastMark(marks[..|marks| - 1]), marks[|marks| - 1], x);
      assert marks == marks[..|marks| - 1] + [marks[|marks| - 1]];
    }
  }

  lemma {:induction false} DistinctByLastMark(marks: seq<string>)
    ensures Distinct(ByLastMark(marks))
    decreases |marks|
  {
    if marks != [] {
      DistinctByLastMark(marks[..|marks| - 1]);
      WithoutOne(ByLastMark(marks[..|marks| - 1]), marks[|marks| - 1]);
      WithoutMembers(ByLastMark(marks[..|marks| - 1]), marks[|marks| - 1], marks[|marks| - 1]);
    }
  }

  lemma RefreshHit(dropped: seq<string>, seen: seq<string>, n: nat, k: string)
    requires |seen| == n || (dropped == [] && |seen| <= n)
    requires Distinct(dropped + seen) && Distinct(seen) && k in seen
    ensures Newest(Without(dropped + seen, k) + [k], n) == Without(seen, k) + [k]
  {
    KeepApart(dropped, seen, k);
    WithoutSplits(dropped, seen, k);
    WithoutAbsent(dropped, k);
    WithoutOne(seen, k);
    var kept := Without(seen, k) + [k];
    NewestOfSum(dropped, kept, n);
    assert dropped + Without(seen, k) + [k] == dropped + kept;
  }

  lemma RefreshMiss(dropped: seq<string>, seen: seq<string>, n: nat, k: string)
    requires |seen| == n >= 1 && k !in seen
    ensures Newest(Without(dropped + seen, k) + [k], n) == seen[1..] + [k]
  {
    WithoutSplits(dropped, seen, k);
    WithoutAbsent(seen, k);
    ShiftByOne(Without(dropped, k), seen, n, k);
  }

  lemma ShiftByOne(head: seq<string>, seen: seq<string>, n: nat, k: string)
    requires |seen| == n >= 1
    ensures Newest(head + seen + [k], n) == seen[1..] + [k]
  {
    var all := head + seen + [k];
    assert |all| - n == |head| + 1;
    assert all[|head| + 1..] == seen[1..] + [k];
  }

  /** One mark on a cache that holds the newest `n` of `all`. */
  lemma Refresh(all: seq<string>, n: nat, k: string)
    requires n >= 1 && Distinct(all)
    ensures var seen := Newest(all, n);
            Newest(Without(all, k) + [k], n)
            == (if k in seen then Without(seen, k) else if |seen| >= n then seen[1..] else seen) + [k]
  {
    var seen := Newest(all, n);
    var dropped := all[..|all| - |seen|];
    assert all == dropped + seen;
    if k in seen {
      RefreshHit(dropped, seen, n, k);
    } else if |seen| >= n {
      RefreshMiss(dropped, seen, n, k);
    } else {
      WithoutAbsent(all, k);
    }
  }

  lemma KeepApart(a: seq<string>, b: seq<string>, k: string)
    requires Distinct(a + b) && k in b
    ensures k !in a
  {
    var j :| 0 <= j < |b| && b[j] == k;
    forall i | 0 <= i < |a| ensures a[i] != k { assert (a + b)[i] != (a + b)[|a| + j]; }
  }

  lemma NewestOfSum(a: seq<string>, b: seq<string>, n: nat)
    requires |b| == n || (a == [] && |b| <= n)
    ensures Newest(a + b, n) == b
  {
  }

  /** The distinct keys that come after the last `k` in a sequence. */
  function After(s: seq<string>, k: string): set<string>
    decreases |s|
  {
    if s == [] || s[|s| - 1] == k then {} else After(s[..|s| - 1], k) + {s[|s| - 1]}
  }

  /** Least recently used, said without the cache: marked, and fewer than `n` other keys were marked since. */
  predicate SeenLately(marks: seq<string>, n: nat, k: string) {
    k in marks && |After(marks, k)| < n
  }

  lemma {:induction false} AfterWithout(s: seq<string>, x: string, k: string)
    requires x != k
    ensures After(Without(s, x), k) == After(s, k) - {x}
    decreases |s|
  {
    if s != [] { AfterWithout(s[..|s| - 1], x, k); }
  }

  lemma {:induction false} SameAfter(marks: seq<string>, k: string)
    ensures After(ByLastMark(marks), k) == After(marks, k)
    decreases |marks|
  {
    if marks != [] {
      var init, x := marks[..|marks| - 1], marks[|marks| - 1];
      var r := ByLastMark(marks);
      assert r[..|r| - 1] == Without(ByLastMark(init), x);
      SameAfter(init, k);
      if x != k { AfterWithout(ByLastMark(init), x, k); }
    }
  }

  lemma {:induction false} AfterIsInside(s: seq<string>, k: string)
    ensures forall x | x in After(s, k) :: x in s
    decreases |s|
  {
    if s != [] { AfterIsInside(s[..|s| - 1], k); }
  }

  lemma NewestOfSnoc(init: seq<string>, x: string, n: nat)
    requires n > 0
    ensures Newest(init + [x], n) == Newest(init, n - 1) + [x]
  {
  }

  lemma {:induction false} PlaceInTheOrder(r: seq<string>, n: nat, k: string)
    requires Distinct(r)
    ensures k in Newest(r, n) <==> k in r && |After(r, k)| < n
    decreases |r|
  {
    if r != [] && n > 0 {
      var init, x := r[..|r| - 1], r[|r| - 1];
      assert r == init + [x];
      PlaceInTheOrder(init, n - 1, k);
      NewestOfSnoc(init, x, n);
      OneMoreAfter(init, x, k);
    }
  }

  lemma OneMoreAfter(init: seq<string>, x: string, k: string)
    requires Distinct(init + [x])
    ensures |After(init + [x], k)| == if x == k then 0 else |After(init, k)| + 1
  {
    assert (init + [x])[..|init|] == init;
    AfterIsInside(init, k);
    assert x !in init by { SnocIsNew(init, x); }
  }

  lemma SnocIsNew(init: seq<string>, x: string)
    requires Distinct(init + [x])
    ensures x !in init
  {
    forall i | 0 <= i < |init| ensures init[i] != x { assert (init + [x])[i] != (init + [x])[|init|]; }
  }

  /** A key is among the newest `n` exactly when fewer than `n` other keys were marked since its last mark. */
  lemma SeenLatelyIsCached(marks: seq<string>, n: nat, k: string)
    ensures k in Newest(ByLastMark(marks), n) <==> SeenLately(marks, n, k)
  {
    DistinctByLastMark(marks);
    PlaceInTheOrder(ByLastMark(marks), n, k);
    SameAfter(marks, k);
    ByLastMarkMembers(marks, k);
  }

  /** Composite keys do not clash, provided channel ids hold no NUL. */
  lemma {:induction false} KeyIsInjective(c1: string, m1: string, c2: string, m2: string)
    requires NUL !in c1 && NUL !in c2 && Key(c1, m1) == Key(c2, m2)
    ensures c1 == c2 && m1 == m2
    decreases |c1|
  {
    var k := Key(c1, m1);
    assert k[0] == Key(c2, m2)[0];
    assert k[1..] == Key(c2, m2)[1..];
    if c1 == [] || c2 == [] {
      assert c1 == c2;
      assert k[1..] == m1 && Key(c2, m2)[1..] == m2;
    } else {
      assert k[1..] == Key(c1[1..], m1) && Key(c2, m2)[1..] == Key(c2[1..], m2);
      KeyIsInjective(c1[1..], m1, c2[1..], m2);
    }
  }

  /** With a NUL in a channel id they do clash. */
  lemma NulKeysClash(a: string, b: string, m: string)
    ensures Key(a + [NUL] + b, m) == Key(a, b + [NUL] + m)
    ensures a + [NUL] + b != a
  {
  }
}
