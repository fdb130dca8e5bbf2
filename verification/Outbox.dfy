/** The queue of bundles waiting for the network. */
module Outbox {
  import opened Basics
  import opened Tables
  import opened Mailbox

  datatype Status = Pending | Sent | Failed

  datatype OutboxEntry = OutboxEntry(channelId: bytes, bundle: bytes, attempts: nat, status: Status)

  /** Rows are stamped with the time of the last attempt; 0 means never attempted. */
  type Queue = Table<OutboxEntry>

  const MAX_OUTBOX_ATTEMPTS: nat := 8

  /** The status index at one status: rows with equal index keys lie in primary key order. */
  function WithStatus(q: Queue, status: Status): Queue {
    map k | k in q && q[k].entry.status == status :: q[k].(stamp := 0)
  }

  ghost function Enqueued(q: Queue, cap: nat, id: Id, row: Row<OutboxEntry>): Queue {
    EvictOldest(q, Excess(|q|, cap))[id := row]
  }

  function MarkedSent(q: Queue, id: Id): Queue {
    if id !in q then q else q[id := q[id].(entry := q[id].entry.(status := Sent))]
  }

  function MarkedFailed(q: Queue, id: Id, now: int): Queue {
    if id !in q then q
    else
      var e := q[id].entry;
      var status := if e.attempts + 1 >= MAX_OUTBOX_ATTEMPTS then Failed else Pending;
      q[id := Row(now, e.(status := status, attempts := e.attempts + 1))]
  }

  function SweptFailed(q: Queue): Queue {
    map k | k in q && q[k].entry.status != Failed :: q[k]
  }

  function SweptOld(q: Queue, cutoff: int): Queue {
    map k | k in q && !(1 <= q[k].stamp <= cutoff) :: q[k]
  }

  class Outbox {
    const store: BoundedStore<OutboxEntry>

    constructor (maxEntries: nat)
      ensures fresh(store) && store.maxEntries == maxEntries && store.rows == map[]
    {
      store := new BoundedStore(maxEntries);
    }

    method Enqueue(id: Id, channelId: bytes, bundle: bytes, lastAttemptMs: Option<int>)
      modifies store
      ensures var stamp := if lastAttemptMs.Some? then lastAttemptMs.value else 0;
              store.rows == Enqueued(old(store.rows), store.maxEntries, id, Row(stamp, OutboxEntry(channelId, bundle, 0, Pending)))
    {
      var stamp := if lastAttemptMs.Some? then lastAttemptMs.value else 0;
      var evicted := store.PutBounded(id, Row(stamp, OutboxEntry(channelId, bundle, 0, Pending)));
    }

    /** The pending entry with the least message id. */
    method NextPending() returns (id: Option<Id>)
      ensures id == None <==> forall k | k in store.rows :: store.rows[k].entry.status != Pending
      ensures id.Some? ==> IsFirst(WithStatus(store.rows, Pending), id.value)
    {
      id := OpenCursor(WithStatus(store.rows, Pending));
      assert forall k | k in store.rows :: store.rows[k].entry.status == Pending <==> k in WithStatus(store.rows, Pending);
    }

    method MarkSent(id: Id)
      modifies store
      ensures store.rows == MarkedSent(old(store.rows), id)
    {
      if id !in store.rows { return; }
      var row := store.rows[id];
      store.rows := store.rows[id := row.(entry := row.entry.(status := Sent))];
    }

    method MarkFailed(id: Id, now: int)
      modifies store
      ensures store.rows == MarkedFailed(old(store.rows), id, now)
    {
      if id !in store.rows { return; }
      var e := store.rows[id].entry;
      var attempts := e.attempts + 1;
      var terminal := attempts >= MAX_OUTBOX_ATTEMPTS;
      store.rows := store.rows[id := Row(now, e.(status := if terminal then Failed else Pending, attempts := attempts))];
    }

    method FailedEntries() returns (failed: Queue)
      ensures forall k :: k in failed <==> k in store.rows && store.rows[k].entry.status == Failed
      ensures forall k | k in failed :: failed[k] == store.rows[k]
    {
      failed := map k | k in store.rows && store.rows[k].entry.status == Failed :: store.rows[k];
    }

    method ClearFailed()
      modifies store
      ensures store.rows == SweptFailed(old(store.rows))
    {
      store.DeleteThrough(WithStatus(store.rows, Failed));
    }

    /** Entries attempted, but not since `ms` before now, go; never attempted ones stay. The key range
        from 1 to the cutoff is an error when the cutoff is below 1. */
    method EvictOlderThan(now: int, ms: int) returns (r: Result<(), StoreError>)
      modifies store
      ensures if now - ms < 1 then r == Err(BadKeyRange) && store.rows == old(store.rows)
              else r == Ok(()) && store.rows == SweptOld(old(store.rows), now - ms)
    {
      var cutoff := now - ms;
      if cutoff < 1 { return Err(BadKeyRange); }
      store.DeleteThrough(InRange(store.rows, Some(1), Some(cutoff)));
      return Ok(());
    }
  }

  /** What every operation keeps: an entry fails exactly at its eighth failed attempt. */
  ghost predicate AttemptsAreBounded(q: Queue) {
    forall k | k in q ::
      q[k].entry.attempts <= MAX_OUTBOX_ATTEMPTS && (q[k].entry.status == Failed <==> q[k].entry.attempts == MAX_OUTBOX_ATTEMPTS)
  }

  /** The sends an entry may still cost. */
  function AttemptsLeft(e: OutboxEntry): nat {
    if e.status == Pending && e.attempts < MAX_OUTBOX_ATTEMPTS then MAX_OUTBOX_ATTEMPTS - e.attempts else 0
  }

  ghost function SendsLeft(q: Queue): nat
    decreases |q|
  {
    if q == map[] then 0
    else
      var k :| k in q;
      assert (q - {k}).Keys == q.Keys - {k};
      AttemptsLeft(q[k].entry) + SendsLeft(q - {k})
  }

  lemma {:induction false} SendsLeftSplits(q: Queue, k: Id)
    requires k in q
    ensures SendsLeft(q) == AttemptsLeft(q[k].entry) + SendsLeft(q - {k})
    decreases |q|
  {
    var j :| j in q && SendsLeft(q) == AttemptsLeft(q[j].entry) + SendsLeft(q - {j});
    if j != k {
      assert (q - {j}).Keys == q.Keys - {j};
      SendsLeftSplits(q - {j}, k);
      assert (q - {k}).Keys == q.Keys - {k};
      SendsLeftSplits(q - {k}, j);
      assert q - {j} - {k} == q - {k} - {j};
    }
  }

  function LeftFor(q: Queue, id: Id): nat {
    if id in q then AttemptsLeft(q[id].entry) else 0
  }

  lemma SendsLeftAfterPut(q: Queue, id: Id, row: Row<OutboxEntry>)
    ensures SendsLeft(q[id := row]) == SendsLeft(q) - LeftFor(q, id) + AttemptsLeft(row.entry)
  {
    var after := q[id := row];
    SendsLeftSplits(after, id);
    if id in q {
      SendsLeftSplits(q, id);
      assert after - {id} == q - {id};
    } else {
      assert after - {id} == q;
    }
  }

  ghost predicate Within(small: Queue, big: Queue) {
    forall k | k in small :: k in big && small[k] == big[k]
  }

  /** Deleting rows gives up at least what each deleted row had left. */
  lemma {:induction false} SendsLeftAfterDeletes(small: Queue, big: Queue, id: Id)
    requires Within(small, big)
    ensures SendsLeft(small) + LeftFor(big, id) - LeftFor(small, id) <= SendsLeft(big)
    decreases |big|
  {
    if big == map[] {
      assert small == map[];
    } else {
      var k := if id in big then id else var k :| k in big; k;
      SendsLeftSplits(big, k);
      assert (big - {k}).Keys == big.Keys - {k};
      SendsLeftAfterDeletes(small - {k}, big - {k}, k);
      if k in small { SendsLeftSplits(small, k); } else { assert small - {k} == small; }
    }
  }
}
