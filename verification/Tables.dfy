/** IndexedDB object stores with a time index: rows keyed by message id, walked in index order. */
module Tables {
  import opened Basics

  type Id = string

  /** A stored row: the indexed timestamp and the rest of the entry. */
  datatype Row<E> = Row(stamp: int, entry: E)

  type Table<E> = map<Id, Row<E>>

  /** Key order of strings. */
  predicate Less(a: Id, b: Id) {
    if a == [] || b == [] then b != []
    else a[0] < b[0] || (a[0] == b[0] && Less(a[1..], b[1..]))
  }

  lemma {:induction false} LessIsTotal(a: Id, b: Id)
    ensures a == b ==> !Less(a, b)
    ensures a != b ==> (Less(a, b) <==> !Less(b, a))
  {
    if a != [] && b != [] {
      assert a == [a[0]] + a[1..] && b == [b[0]] + b[1..];
      LessIsTotal(a[1..], b[1..]);
    }
  }

  lemma {:induction false} LessIsTransitive(a: Id, b: Id, c: Id)
    requires Less(a, b) && Less(b, c)
    ensures Less(a, c)
  {
    if a != [] && a[0] == b[0] == c[0] { LessIsTransitive(a[1..], b[1..], c[1..]); }
  }

  /** Index order: by timestamp, then by key. */
  predicate Before<E>(t: Table<E>, a: Id, b: Id)
    requires a in t && b in t
  {
    t[a].stamp < t[b].stamp || (t[a].stamp == t[b].stamp && Less(a, b))
  }

  ghost predicate IsFirst<E>(t: Table<E>, k: Id) {
    k in t && forall x | x in t && x != k :: Before(t, k, x)
  }

  lemma BeforeIsTransitive<E>(t: Table<E>, a: Id, b: Id, c: Id)
    requires a in t && b in t && c in t && Before(t, a, b) && Before(t, b, c)
    ensures Before(t, a, c)
  {
    if t[a].stamp == t[c].stamp { LessIsTransitive(a, b, c); }
  }

  lemma BeforeIsTotal<E>(t: Table<E>, a: Id, b: Id)
    requires a in t && b in t && a != b
    ensures Before(t, a, b) <==> !Before(t, b, a)
  {
    LessIsTotal(a, b);
  }

  /** The rows whose timestamp lies in a key range. */
  function InRange<E>(t: Table<E>, low: Option<int>, high: Option<int>): Table<E> {
    map k | k in t && (low.Some? ==> low.value <= t[k].stamp) && (high.Some? ==> t[k].stamp <= high.value) :: t[k]
  }

  /** Opening a cursor on the time index: the first row in index order. */
  method OpenCursor<E>(t: Table<E>) returns (cursor: Option<Id>)
    ensures cursor == None <==> t == map[]
    ensures cursor.Some? ==> IsFirst(t, cursor.value)
  {
    cursor := None;
    var left := t.Keys;
    while left != {}
      invariant left <= t.Keys
      invariant cursor == None <==> left == t.Keys
      invariant cursor.Some? ==> cursor.value in t && cursor.value !in left
      invariant cursor.Some? ==> forall x | x in t && x !in left && x != cursor.value :: Before(t, cursor.value, x)
      decreases left
    {
      var k :| k in left;
      if cursor == None || Before(t, k, cursor.value) {
        forall x | x in t && x !in left && cursor.Some? && x != cursor.value ensures Before(t, k, x) {
          BeforeIsTransitive(t, k, cursor.value, x);
        }
        cursor := Some(k);
      } else {
        BeforeIsTotal(t, k, cursor.value);
      }
      left := left - {k};
    }
  }

  lemma FirstExists<E>(t: Table<E>)
    requires t != map[]
    ensures exists k :: IsFirst(t, k)
    decreases |t|
  {
    var k :| k in t;
    var rest := t - {k};
    if rest == map[] {
      assert forall x | x in t && x != k :: x in rest;
      assert IsFirst(t, k);
    } else {
      FirstExists(rest);
      var j :| IsFirst(rest, j);
      assert forall x | x in t && x != k :: x in rest;
      if Before(t, k, j) {
        forall x | x in t && x != k ensures Before(t, k, x) {
          if x != j { assert Before(rest, j, x); BeforeIsTransitive(t, k, j, x); }
        }
        assert IsFirst(t, k);
      } else {
        BeforeIsTotal(t, k, j);
        forall x | x in t && x != j ensures Before(t, j, x) {
          if x != k { assert Before(rest, j, x); }
        }
        assert IsFirst(t, j);
      }
    }
  }

  ghost function First<E>(t: Table<E>): (k: Id)
    requires t != map[]
    ensures IsFirst(t, k)
  {
    FirstExists(t);
    var k :| IsFirst(t, k);
    k
  }

  lemma FirstIsUnique<E>(t: Table<E>, k: Id)
    requires IsFirst(t, k)
    ensures t != map[] && First(t) == k
  {
    if First(t) != k { BeforeIsTotal(t, k, First(t)); }
  }

  /** The table after a cursor walk has deleted `n` rows, or all if there are fewer. */
  ghost function EvictOldest<E>(t: Table<E>, n: nat): Table<E>
    decreases n
  {
    if n == 0 || t == map[] then t else EvictOldest(t - {First(t)}, n - 1)
  }

  /** What it means that `kept` is `t` without its `n` oldest rows. */
  ghost predicate WithoutOldest<E>(t: Table<E>, n: nat, kept: Table<E>) {
    && (forall k | k in kept :: k in t && kept[k] == t[k])
    && |kept| == Max(0, |t| - n)
    && forall gone, k | gone in t && gone !in kept && k in kept :: Before(t, gone, k)
  }

  lemma OneMoreDropped<E>(t: Table<E>, first: Id, n: nat, kept: Table<E>)
    requires IsFirst(t, first) && n > 0 && WithoutOldest(t - {first}, n - 1, kept)
    ensures WithoutOldest(t, n, kept)
  {
    var rest := t - {first};
    assert rest.Keys == t.Keys - {first};
    forall gone, k | gone in t && gone !in kept && k in kept ensures Before(t, gone, k) {
      if gone != first { assert gone in rest && Before(rest, gone, k); }
    }
  }

  lemma {:induction false} EvictionDropsTheOldest<E>(t: Table<E>, n: nat)
    ensures WithoutOldest(t, n, EvictOldest(t, n))
    decreases n
  {
    if n > 0 && t != map[] {
      var first := First(t);
      EvictionDropsTheOldest(t - {first}, n - 1);
      OneMoreDropped(t, first, n, EvictOldest(t, n));
    }
  }

  /** The n oldest rows are determined: nothing else satisfies the description. */
  lemma EvictionIsDetermined<E>(t: Table<E>, n: nat, kept: Table<E>)
    requires WithoutOldest(t, n, kept)
    ensures kept == EvictOldest(t, n)
  {
    var other := EvictOldest(t, n);
    EvictionDropsTheOldest(t, n);
    if kept.Keys != other.Keys {
      var a :| a in kept.Keys - other.Keys || a in other.Keys - kept.Keys;
      if kept.Keys <= other.Keys { SubsetOfEqualSize(kept.Keys, other.Keys); }
      if other.Keys <= kept.Keys { SubsetOfEqualSize(other.Keys, kept.Keys); }
      var x :| x in kept.Keys && x !in other.Keys;
      var y :| y in other.Keys && y !in kept.Keys;
      assert Before(t, x, y) && Before(t, y, x);
      BeforeIsTotal(t, x, y);
    }
  }

  lemma SubsetOfEqualSize<T>(a: set<T>, b: set<T>)
    requires a <= b && |a| == |b|
    ensures a == b
  {
    assert |b - a| == 0;
  }
}
