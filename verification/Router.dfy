/** What reaches the handler: the Bloom filter and the LRU in front of one onIncoming subscription. */
module Router {
  import opened Basics
  import opened Bloom
  import opened Dedupe
  import opened Tables
  import opened Mailbox

  /** Array.slice on a frame: the ends are clamped to its length. */
  function Slice(frame: bytes, from: nat, to: nat): bytes
    requires from <= to
  {
    frame[Min(from, |frame|)..Min(to, |frame|)]
  }

  lemma {:induction false} HexIsInjective(a: bytes, b: bytes)
    requires Hex(a) == Hex(b)
    ensures a == b
  {
    if a != [] && b != [] {
      assert Hex(a)[0] == Hex(b)[0] && Hex(a)[1] == Hex(b)[1];
      assert Hex(a)[2..] == Hex(a[1..]) && Hex(b)[2..] == Hex(b[1..]);
      HexIsInjective(a[1..], b[1..]);
    }
  }

  lemma {:induction false} HexHasNoNul(b: bytes)
    ensures NUL !in Hex(b)
  {
    if b != [] { HexHasNoNul(b[1..]); }
  }

  function MsgId(frame: bytes): string { Hex(Slice(frame, 34, 50)) }

  function ChannelId(frame: bytes): string { Hex(Slice(frame, 55, 59)) }

  function LruKey(frame: bytes): string { Key(ChannelId(frame), MsgId(frame)) }

  /** The LRU tells frames apart by their message id and channel bytes, and by nothing else. */
  lemma SameKeySameBytes(f: bytes, g: bytes)
    ensures LruKey(f) == LruKey(g) <==> Slice(f, 34, 50) == Slice(g, 34, 50) && Slice(f, 55, 59) == Slice(g, 55, 59)
  {
    if LruKey(f) == LruKey(g) {
      HexHasNoNul(Slice(f, 55, 59));
      HexHasNoNul(Slice(g, 55, 59));
      KeyIsInjective(ChannelId(f), MsgId(f), ChannelId(g), MsgId(g));
      HexIsInjective(Slice(f, 34, 50), Slice(g, 34, 50));
      HexIsInjective(Slice(f, 55, 59), Slice(g, 55, 59));
    }
  }

  const LRU_CAPACITY: nat := 5000

  /** What the two caches remember, and what the last flush left on disk. */
  datatype Gate = Gate(marks: seq<string>, filter: Option<Filter>, disk: Option<Filter>) {
    /** Whether a frame reaches the handler. */
    predicate Passes(hash: Hash, frame: bytes) {
      !(filter.Some? && filter.value.Sees(hash, MsgId(frame))) && !SeenLately(marks, LRU_CAPACITY, LruKey(frame))
    }

    function After(hash: Hash, frame: bytes): Gate {
      if !Passes(hash, frame) then this
      else
        Gate(marks + [LruKey(frame)],
             if filter.Some? then Some(filter.value.Marked(hash, MsgId(frame))) else None,
             disk)
    }
  }

  /** A frame on its way to the inbox. */
  datatype Put = Put(frame: bytes, receivedAtMs: int)

  /** The inbox with a frame put: under its message id, with its own copy of the bytes, not consumed. */
  ghost function Kept(rows: Table<InboxEntry>, cap: nat, put: Put): Table<InboxEntry> {
    EvictOldest(rows, Excess(|rows|, cap))
      [MsgId(put.frame) := Row(put.receivedAtMs, InboxEntry(Slice(put.frame, 55, 59), put.frame, false))]
  }

  /** One subscription to BLE frames. */
  class Subscription {
    const dedupe: DedupeCache
    const bloom: Option<BloomDedup>
    const inbox: Option<Inbox>

    constructor (dedupe: DedupeCache, bloom: Option<BloomDedup>, inbox: Option<Inbox>)
      ensures this.dedupe == dedupe && this.bloom == bloom && this.inbox == inbox
    {
      this.dedupe, this.bloom, this.inbox := dedupe, bloom, inbox;
    }

    ghost predicate Valid()
      reads dedupe, if bloom.Some? then {bloom.value} else {}
    {
      dedupe.Valid() && dedupe.Holds() == LRU_CAPACITY && (bloom.Some? ==> bloom.value.Valid())
    }

    ghost function View(disk: Option<Filter>): Gate
      reads dedupe, if bloom.Some? then {bloom.value, bloom.value.bits} else {}
    {
      Gate(dedupe.marks, if bloom.Some? then Some(bloom.value.View()) else None, disk)
    }

    /** The callback onFrame runs for each frame from BLE: both caches are asked, and both marked when
        neither knows the frame. What the handler gets is also on its way to the inbox, in a put no one
        waits for. */
    method OnBleFrame(frame: bytes, hash: Hash, now: int, ghost disk: Option<Filter>) returns (handled: bool, put: Option<Put>)
      requires Valid() && (bloom.Some? ==> bloom.value.hash == hash)
      modifies dedupe, if bloom.Some? then {bloom.value.bits} else {}
      ensures Valid() && View(disk) == old(View(disk)).After(hash, frame)
      ensures handled <==> old(View(disk)).Passes(hash, frame)
      ensures put == if handled && inbox.Some? then Some(Put(frame, now)) else None
    {
      var msgIdHex, channelIdHex := MsgId(frame), ChannelId(frame);
      if bloom.Some? {
        var hit := bloom.value.HasSeen(msgIdHex);
        if hit { return false, None; }
      }
      var seen := dedupe.HasSeen(channelIdHex, msgIdHex);
      if seen { return false, None; }
      if bloom.Some? { bloom.value.MarkSeen(msgIdHex); }
      dedupe.MarkSeen(channelIdHex, msgIdHex);
      return true, if inbox.Some? then Some(Put(frame, now)) else None;
    }

    /** The put runs its transaction, or fails, which keeps nothing from the handler. */
    method RunPut(put: Put, fails: bool)
      requires inbox.Some?
      modifies inbox.value.store
      ensures inbox.value.store.rows ==
                if fails then old(inbox.value.store.rows) else Kept(old(inbox.value.store.rows), inbox.value.store.maxEntries, put)
    {
      if !fails { inbox.value.Put(MsgId(put.frame), put.receivedAtMs, InboxEntry(Slice(put.frame, 55, 59), put.frame, false)); }
    }
  }

  /** Frames arrive, the filter is flushed, and the page reloads with these filter parameters. */
  datatype Event = Frame(frame: bytes) | Flush | Reload(params: Params)

  function Step(hash: Hash, g: Gate, e: Event): Gate {
    match e
    case Frame(frame) => g.After(hash, frame)
    case Flush => if g.filter.Some? then g.(disk := g.filter) else g
    case Reload(params) => Gate([], if g.filter.Some? then Some(TakenOver(g.disk, params)) else None, g.disk)
  }

  function Run(hash: Hash, g: Gate, es: seq<Event>): Gate
    decreases |es|
  {
    if es == [] then g else Step(hash, Run(hash, g, es[..|es| - 1]), es[|es| - 1])
  }

  predicate Flushed(es: seq<Event>) { Flush in es }

  /** No reload along the run loses the filter: each one is preceded by a flush and keeps the parameters. */
  predicate KeepsTheFilter(params: Params, es: seq<Event>) {
    forall i | 0 <= i < |es| && es[i].Reload? :: es[i].params == params && Flushed(es[..i])
  }

  /** What a gate that has let a frame with message id `id` through remembers, before and after a flush. */
  predicate Remembers(hash: Hash, g: Gate, params: Params, id: string, flushed: bool) {
    && g.filter.Some? && g.filter.value.params == params && g.filter.value.Sees(hash, id)
    && (flushed ==> g.disk.Some? && g.disk.value.params == params && g.disk.value.Sees(hash, id))
  }

  lemma {:induction false} MemoryLasts(hash: Hash, g: Gate, params: Params, id: string, es: seq<Event>)
    requires Remembers(hash, g, params, id, false) && KeepsTheFilter(params, es)
    ensures Remembers(hash, Run(hash, g, es), params, id, Flushed(es))
    decreases |es|
  {
    if es != [] {
      var before, e := es[..|es| - 1], es[|es| - 1];
      forall i | 0 <= i < |before| && before[i].Reload? ensures before[i].params == params && Flushed(before[..i]) {
        assert before[..i] == es[..i] && es[i] == before[i];
      }
      MemoryLasts(hash, g, params, id, before);
      StepRemembers(hash, Run(hash, g, before), params, id, Flushed(before), e);
      assert es == before + [e];
    }
  }

  lemma StepRemembers(hash: Hash, g: Gate, params: Params, id: string, flushed: bool, e: Event)
    requires Remembers(hash, g, params, id, flushed)
    requires e.Reload? ==> e.params == params && flushed
    ensures Remembers(hash, Step(hash, g, e), params, id, flushed || e == Flush)
  {
  }

  lemma PassingIsRemembered(hash: Hash, g: Gate, frame: bytes)
    requires g.filter.Some? && g.Passes(hash, frame)
    ensures Remembers(hash, g.After(hash, frame), g.filter.value.params, MsgId(frame), false)
  {
  }

  /** No message id reaches the handler twice, whatever the hash, however many frames come between and
      whatever the LRU has evicted, as long as no reload in between loses the filter. */
  lemma NoMsgIdTwice(hash: Hash, g: Gate, first: bytes, es: seq<Event>, second: bytes)
    requires g.filter.Some? && g.Passes(hash, first) && MsgId(first) == MsgId(second)
    requires KeepsTheFilter(g.filter.value.params, es)
    ensures !Run(hash, g.After(hash, first), es).Passes(hash, second)
  {
    PassingIsRemembered(hash, g, first);
    MemoryLasts(hash, g.After(hash, first), g.filter.value.params, MsgId(first), es);
  }

  /** A reload with other parameters does lose it: the next frame passes, whatever passed before. */
  lemma ChangedParametersForget(hash: Hash, g: Gate, params: Params, frame: bytes)
    requires g.filter.Some? && !(g.disk.Some? && g.disk.value.params == params)
    ensures Step(hash, g, Reload(params)).Passes(hash, frame)
  {
    assert params.Probe(hash, MsgId(frame), params.k - 1) in params.Probes(hash, MsgId(frame));
  }

  /** Without a filter a frame is dropped exactly while fewer than 5000 other keys have passed since its
      own key last did; later it passes again. */
  lemma WithoutAFilter(hash: Hash, g: Gate, frame: bytes)
    requires g.filter == None
    ensures g.Passes(hash, frame) <==> LruKey(frame) !in g.marks || |Dedupe.After(g.marks, LruKey(frame))| >= LRU_CAPACITY
  {
  }

  function MarkedAll(hash: Hash, f: Filter, ids: seq<string>): Filter
    decreases |ids|
  {
    if ids == [] then f else MarkedAll(hash, f, ids[..|ids| - 1]).Marked(hash, ids[|ids| - 1])
  }

  /** A false positive needs every probe of the id to be a probe of some id marked before. */
  lemma {:induction false} FilterIsTheUnionOfProbes(hash: Hash, params: Params, ids: seq<string>, bit: nat)
    ensures MarkedAll(hash, Filter(params, {}), ids).params == params
    ensures bit in MarkedAll(hash, Filter(params, {}), ids).hits <==> exists id | id in ids :: bit in params.Probes(hash, id)
    decreases |ids|
  {
    if ids != [] {
      var init, last := ids[..|ids| - 1], ids[|ids| - 1];
      FilterIsTheUnionOfProbes(hash, params, init, bit);
      assert ids == init + [last];
    }
  }
}
