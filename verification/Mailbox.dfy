/** The bounded inbox and spool: count, evict the oldest through a cursor, put - in one transaction. */
module Mailbox {
  import opened Basics
  import opened Tables

  datatype StoreError = NegativeLimit | BadKeyRange

  /** How many rows must go before one more is put into `count` rows under a cap. */
  function Excess(count: nat, cap: nat): nat {
    if count >= cap then count - cap + 1 else 0
  }

  /** One object store with a time index. Each method is one readwrite transaction. */
  class BoundedStore<E> {
    const maxEntries: nat
    var rows: Table<E>

    constructor (maxEntries: nat)
      ensures this.maxEntries == maxEntries && rows == map[]
    {
      this.maxEntries, rows := maxEntries, map[];
    }

    /** Deletes up to `toDelete` rows from the front of the time index. */
    method DeleteFromFront(toDelete: nat) returns (deleted: nat)
      modifies this
      ensures rows == EvictOldest(old(rows), toDelete) && deleted == Min(toDelete, |old(rows)|)
    {
      deleted := 0;
      var cursor := OpenCursor(rows);
      while cursor.Some? && deleted < toDelete
        invariant deleted <= toDelete && |rows| == |old(rows)| - deleted
        invariant cursor == None <==> rows == map[]
        invariant cursor.Some? ==> IsFirst(rows, cursor.value)
        invariant EvictOldest(rows, toDelete - deleted) == EvictOldest(old(rows), toDelete)
        decreases toDelete - deleted
      {
        FirstIsUnique(rows, cursor.value);
        ghost var before := rows;
        rows := rows - {cursor.value};
        assert rows.Keys == before.Keys - {cursor.value};
        deleted := deleted + 1;
        cursor := OpenCursor(rows);
      }
    }

    /** Inserts a row, making room for it first. The count takes in a row the put will replace. */
    method PutBounded(id: Id, row: Row<E>) returns (evicted: nat)
      modifies this
      ensures rows == EvictOldest(old(rows), Excess(|old(rows)|, maxEntries))[id := row]
      ensures evicted == Min(Excess(|old(rows)|, maxEntries), |old(rows)|)
    {
      var total := |rows|;
      var toEvict := if total >= maxEntries then total - maxEntries + 1 else 0;
      evicted := 0;
      if toEvict == 0 {
        rows := rows[id := row];
        return;
      }
      evicted := DeleteFromFront(toEvict);
      rows := rows[id := row];
    }

    method EvictExcess(cap: int) returns (r: Result<nat, StoreError>)
      modifies this
      ensures if cap < 0 then r == Err(NegativeLimit) && rows == old(rows)
              else r == Ok(Max(0, |old(rows)| - cap)) && rows == EvictOldest(old(rows), Max(0, |old(rows)| - cap))
    {
      if cap < 0 { return Err(NegativeLimit); }
      if |rows| <= cap { return Ok(0); }
      var deleted := DeleteFromFront(|rows| - cap);
      return Ok(deleted);
    }

    /** Deletes every row a cursor over an index, or over a range of it, reaches. */
    method DeleteThrough(index: Table<E>)
      modifies this
      ensures rows == old(rows) - index.Keys
    {
      var left := index;
      ghost var was: Table<E>, gone: set<Id> := rows, {};
      var cursor := OpenCursor(left);
      while cursor.Some?
        invariant rows == was - gone && gone + left.Keys == index.Keys
        invariant cursor == None <==> left == map[]
        invariant cursor.Some? ==> cursor.value in left
        decreases |left|
      {
        DeleteOne(was, gone, left, cursor.value);
        rows, left, gone := rows - {cursor.value}, left - {cursor.value}, gone + {cursor.value};
        cursor := OpenCursor(left);
      }
      assert gone == index.Keys;
    }

    /** The time-to-live sweep: everything stamped at or before now - ttl goes. */
    method EvictOlderThan(now: int, ttl: int)
      modifies this
      ensures rows == map k | k in old(rows) && old(rows)[k].stamp > now - ttl :: old(rows)[k]
    {
      DeleteThrough(InRange(rows, None, Some(now - ttl)));
    }

    /** Up to `limit` rows from the back of the time index, newest first. */
    method Recent(limit: int) returns (r: Result<seq<Id>, StoreError>)
      ensures if limit < 0 then r == Err(NegativeLimit) else r.Ok? && IsRecent(rows, limit, r.value)
    {
      if limit < 0 { return Err(NegativeLimit); }
      var results: seq<Id>, left := [], rows;
      var cursor := OpenCursorBackwards(left);
      while cursor.Some? && |results| < limit
        invariant |results| <= limit
        invariant ListedSoFar(rows, left, results)
        invariant cursor == None <==> left == map[]
        invariant cursor.Some? ==> IsLast(left, cursor.value)
        decreases |left|
      {
        ListOne(rows, left, results, cursor.value);
        results, left := results + [cursor.value], left - {cursor.value};
        cursor := OpenCursorBackwards(left);
      }
      return Ok(results);
    }
  }

  lemma DeleteOne<E>(was: Table<E>, gone: set<Id>, left: Table<E>, k: Id)
    requires k in left
    ensures |left - {k}| < |left|
    ensures gone + {k} + (left - {k}).Keys == gone + left.Keys
    ensures was - gone - {k} == was - (gone + {k})
  {
    var after := left - {k};
    assert after.Keys == left.Keys - {k};
    assert |after.Keys| < |left.Keys|;
  }

  /** A backward walk half way: what it has listed, newest first, and what it has not reached yet. */
  ghost predicate ListedSoFar<E>(rows: Table<E>, left: Table<E>, listed: seq<Id>) {
    && |left| + |listed| == |rows|
    && (forall k | k in left :: k in rows && left[k] == rows[k])
    && (forall k | k in rows :: k in left || k in listed)
    && (forall k | k in listed :: k in rows && k !in left)
    && (forall k, j | k in listed && j in left :: Before(rows, j, k))
    && (forall i, j | 0 <= i < j < |listed| :: listed[i] in rows && listed[j] in rows && Before(rows, listed[j], listed[i]))
  }

  lemma ListOne<E>(rows: Table<E>, left: Table<E>, listed: seq<Id>, k: Id)
    requires ListedSoFar(rows, left, listed) && IsLast(left, k)
    ensures |left - {k}| < |left|
    ensures ListedSoFar(rows, left - {k}, listed + [k])
  {
    assert (left - {k}).Keys == left.Keys - {k};
    forall j | j in left - {k} ensures Before(rows, j, k) { assert Before(left, j, k); }
  }

  ghost predicate IsLast<E>(t: Table<E>, k: Id) {
    k in t && forall x | x in t && x != k :: Before(t, x, k)
  }

  method OpenCursorBackwards<E>(t: Table<E>) returns (cursor: Option<Id>)
    ensures cursor == None <==> t == map[]
    ensures cursor.Some? ==> IsLast(t, cursor.value)
  {
    cursor := None;
    var left := t.Keys;
    while left != {}
      invariant left <= t.Keys
      invariant cursor == None <==> left == t.Keys
      invariant cursor.Some? ==> cursor.value in t && cursor.value !in left
      invariant cursor.Some? ==> forall x | x in t && x !in left && x != cursor.value :: Before(t, x, cursor.value)
      decreases left
    {
      var k :| k in left;
      if cursor == None || Before(t, cursor.value, k) {
        forall x | x in t && x !in left && cursor.Some? && x != cursor.value ensures Before(t, x, k) {
          BeforeIsTransitive(t, x, cursor.value, k);
        }
        cursor := Some(k);
      } else {
        BeforeIsTotal(t, k, cursor.value);
      }
      left := left - {k};
    }
  }

  /** The newest rows, newest first: as many as asked for or there are, in falling index order,
      and every row left out precedes every row listed. */
  ghost predicate IsRecent<E>(rows: Table<E>, limit: int, listed: seq<Id>) {
    && |listed| == Min(limit, |rows|)
    && (forall k | k in listed :: k in rows)
    && (forall i, j | 0 <= i < j < |listed| :: listed[i] in rows && listed[j] in rows && Before(rows, listed[j], listed[i]))
    && (forall k, j | k in listed && j in rows && j !in listed :: k in rows && Before(rows, j, k))
  }

  /** The bounded put, for any contents: with a cap of at least 1 the new row is there, the store is
      within the cap, exactly the excess is evicted, and every evicted row precedes every old row
      that stays. Only a cap of 0 is exceeded, by the row just put. */
  lemma PutIsBounded<E>(t: Table<E>, cap: nat, id: Id, row: Row<E>)
    ensures var kept := EvictOldest(t, Excess(|t|, cap));
            var after := kept[id := row];
            && WithoutOldest(t, Excess(|t|, cap), kept)
            && after[id] == row
            && (|after| <= cap <==> cap >= 1)
            && |t| - |kept| == Min(Excess(|t|, cap), |t|)
            && (|t| < cap ==> after == t[id := row])
  {
    EvictionDropsTheOldest(t, Excess(|t|, cap));
    var kept := EvictOldest(t, Excess(|t|, cap));
    var after := kept[id := row];
    assert after.Keys == kept.Keys + {id};
    if cap == 0 { assert id in after.Keys; assert |after.Keys| > 0; }
  }

  datatype InboxEntry = InboxEntry(channelId: bytes, bundle: bytes, consumed: bool)

  class Inbox {
    const store: BoundedStore<InboxEntry>

    constructor (maxEntries: nat)
      ensures fresh(store) && store.maxEntries == maxEntries && store.rows == map[]
    {
      store := new BoundedStore(maxEntries);
    }

    method Put(id: Id, receivedAtMs: int, entry: InboxEntry)
      modifies store
      ensures store.rows == EvictOldest(old(store.rows), Excess(|old(store.rows)|, store.maxEntries))
                            [id := Row(receivedAtMs, entry)]
    {
      var evicted := store.PutBounded(id, Row(receivedAtMs, entry));
    }

    method MarkConsumed(id: Id)
      modifies store
      ensures store.rows.Keys == old(store.rows).Keys
      ensures forall k | k in store.rows :: store.rows[k] ==
                var r := old(store.rows)[k]; if k == id then r.(entry := r.entry.(consumed := true)) else r
    {
      if id in store.rows {
        var r := store.rows[id];
        store.rows := store.rows[id := r.(entry := r.entry.(consumed := true))];
      }
    }
  }

  datatype SpoolEntry = SpoolEntry(channelId: bytes, bundle: bytes, hopsRemaining: int)

  function Decremented(rows: Table<SpoolEntry>, id: Id): Table<SpoolEntry> {
    if id !in rows then rows
    else
      var r := rows[id];
      var next := r.entry.hopsRemaining - 1;
      if next <= 0 then rows - {id} else rows[id := r.(entry := r.entry.(hopsRemaining := next))]
  }

  class Spool {
    const store: BoundedStore<SpoolEntry>

    constructor (maxEntries: nat)
      ensures fresh(store) && store.maxEntries == maxEntries && store.rows == map[]
    {
      store := new BoundedStore(maxEntries);
    }

    method Put(id: Id, addedAtMs: int, entry: SpoolEntry)
      modifies store
      ensures store.rows == EvictOldest(old(store.rows), Excess(|old(store.rows)|, store.maxEntries))
                            [id := Row(addedAtMs, entry)]
    {
      var evicted := store.PutBounded(id, Row(addedAtMs, entry));
    }

    method DecrementHops(id: Id)
      modifies store
      ensures store.rows == Decremented(old(store.rows), id)
    {
      if id !in store.rows { return; }
      var r := store.rows[id];
      var next := r.entry.hopsRemaining - 1;
      if next <= 0 {
        store.rows := store.rows - {id};
        return;
      }
      store.rows := store.rows[id := r.(entry := r.entry.(hopsRemaining := next))];
    }
  }

  /** The rows after a run of decrements. */
  function AfterHops(rows: Table<SpoolEntry>, ids: seq<Id>): Table<SpoolEntry>
    decreases |ids|
  {
    if ids == [] then rows else Decremented(AfterHops(rows, ids[..|ids| - 1]), ids[|ids| - 1])
  }

  function Count(ids: seq<Id>, id: Id): nat
    decreases |ids|
  {
    if ids == [] then 0 else Count(ids[..|ids| - 1], id) + if ids[|ids| - 1] == id then 1 else 0
  }

  /** Over any run of decrements, an entry is forwarded exactly its hop budget: it is there until its
      last hop is spent, with the hops not yet spent, whatever happens to other entries. */
  lemma {:induction false} HopBudget(rows: Table<SpoolEntry>, ids: seq<Id>, id: Id)
    requires id in rows
    ensures var spent, budget := Count(ids, id), rows[id].entry.hopsRemaining;
            if spent == 0 || spent < budget
            then id in AfterHops(rows, ids)
                 && AfterHops(rows, ids)[id] == rows[id].(entry := rows[id].entry.(hopsRemaining := budget - spent))
            else id !in AfterHops(rows, ids)
    decreases |ids|
  {
    if ids != [] { HopBudget(rows, ids[..|ids| - 1], id); }
  }
}
