/** Draining the outbox when the network comes back: one asynchronous loop, cut at its awaits, while
    entries are queued and swept around it. */
module Drainer {
  import opened Basics
  import opened Tables
  import opened Mailbox
  import opened Outbox

  const MAX_DRAIN_PER_CYCLE: nat := 50

  /** The await the drain loop is suspended at, with the entry handed to the bridge. */
  datatype Await =
    | Idle
    | Asking(drained: nat)
    | Sending(drained: nat, id: Id, entry: OutboxEntry)
    | Marking(drained: nat, id: Id, entry: OutboxEntry, ok: bool)

  datatype Drain = Drain(queue: Queue, at: Await)

  /** What can happen next: an online event, one of the loop's awaits resolving or rejecting, or a
      transaction of another caller of the outbox. */
  datatype Event =
    | Online
    | Answered
    | Returned(ok: bool)
    | Marked(now: int)
    | Rejected
    | Enqueue(id: Id, stamp: int, channelId: bytes, bundle: bytes)
    | SweepFailed
    | SweepOld(cutoff: int)

  ghost function Step(s: Drain, e: Event, cap: nat): Drain {
    match e
    case Online => if s.at.Idle? then s.(at := Asking(0)) else s
    case Answered =>
      if !s.at.Asking? then s
      else
        var pending := WithStatus(s.queue, Pending);
        s.(at := if pending == map[] then Idle else Sending(s.at.drained, First(pending), pending[First(pending)].entry))
    case Returned(ok) => if s.at.Sending? then s.(at := Marking(s.at.drained, s.at.id, s.at.entry, ok)) else s
    case Marked(now) =>
      if !s.at.Marking? then s
      else if !s.at.ok then Drain(MarkedFailed(s.queue, s.at.id, now), Idle)
      else Drain(MarkedSent(s.queue, s.at.id), if s.at.drained + 1 < MAX_DRAIN_PER_CYCLE then Asking(s.at.drained + 1) else Idle)
    case Rejected => s.(at := Idle)
    case Enqueue(id, stamp, channelId, bundle) =>
      s.(queue := Enqueued(s.queue, cap, id, Row(stamp, OutboxEntry(channelId, bundle, 0, Pending))))
    case SweepFailed => s.(queue := SweptFailed(s.queue))
    case SweepOld(cutoff) => s.(queue := SweptOld(s.queue, cutoff))
  }

  class OutboxDrainer {
    const outbox: Outbox
    var draining: bool
    var at: Await

    constructor (outbox: Outbox)
      ensures this.outbox == outbox && Valid() && at == Idle
    {
      this.outbox, draining, at := outbox, false, Idle;
    }

    ghost predicate Valid() reads this { draining <==> at != Idle }

    ghost function View(): Drain reads this, outbox.store { Drain(outbox.store.rows, at) }

    ghost function Cap(): nat { outbox.store.maxEntries }

    /** The online listener: dropped while a drain is running. */
    method OnOnline()
      requires Valid()
      modifies this
      ensures Valid() && View() == Step(old(View()), Online, Cap())
    {
      if draining { return; }
      draining, at := true, Asking(0);
    }

    /** nextPending has resolved: send the entry it found, or end the cycle. */
    method OnAnswer()
      requires Valid() && at.Asking?
      modifies this
      ensures Valid() && View() == Step(old(View()), Answered, Cap())
    {
      var entry := outbox.NextPending();
      if entry == None {
        assert WithStatus(outbox.store.rows, Pending) == map[];
        draining, at := false, Idle;
      } else {
        FirstIsUnique(WithStatus(outbox.store.rows, Pending), entry.value);
        at := Sending(at.drained, entry.value, outbox.store.rows[entry.value].entry);
      }
    }

    method OnReturn(ok: bool)
      requires Valid() && at.Sending?
      modifies this
      ensures Valid() && View() == Step(old(View()), Returned(ok), Cap())
    {
      at := Marking(at.drained, at.id, at.entry, ok);
    }

    /** The mark has committed: on success go round again, on failure stop until the next event. */
    method OnMark(now: int)
      requires Valid() && at.Marking?
      modifies this, outbox.store
      ensures Valid() && View() == Step(old(View()), Marked(now), Cap())
    {
      var drained, ok := at.drained, at.ok;
      if ok {
        outbox.MarkSent(at.id);
        drained := drained + 1;
      } else {
        outbox.MarkFailed(at.id, now);
      }
      if ok && drained < MAX_DRAIN_PER_CYCLE {
        at := Asking(drained);
      } else {
        draining, at := false, Idle;
      }
    }

    /** Whatever throws ends the cycle. */
    method OnReject()
      requires Valid()
      modifies this
      ensures Valid() && View() == Step(old(View()), Rejected, Cap())
    {
      draining, at := false, Idle;
    }
  }

  ghost function StateAt(s: Drain, es: seq<Event>, cap: nat): Drain
    decreases |es|
  {
    if es == [] then s else Step(StateAt(s, es[..|es| - 1], cap), es[|es| - 1], cap)
  }

  function One(b: bool): nat { if b then 1 else 0 }

  /** How often along a run an event is one of a kind, given the state it meets. */
  ghost function Times(s: Drain, es: seq<Event>, cap: nat, kind: Kind): nat
    decreases |es|
  {
    if es == [] then 0
    else
      var before := es[..|es| - 1];
      Times(s, before, cap, kind) + One(Is(StateAt(s, before, cap), es[|es| - 1], kind))
  }

  datatype Kind = ASend | ASendOf(id: Id) | ASendOfBundle(id: Id, bundle: bytes) | AReplacement(id: Id) | AFault | AFaultOf(id: Id) | AnEnqueue | AnEnqueueOf(id: Id) | ACycle | AnotherCaller

  /** ASend: a bridge send returns. ASendOf: one of `id` returns ok; ASendOfBundle: with that bundle.
      AReplacement: `id` is enqueued while an entry of that id is in flight. AFault: the mark after a send is
      lost. AFaultOf: the mark after an ok send of `id` is lost. */
  predicate Is(s: Drain, e: Event, kind: Kind) {
    match kind
    case ASend => e.Returned? && s.at.Sending?
    case ASendOf(id) => e.Returned? && e.ok && s.at.Sending? && s.at.id == id
    case ASendOfBundle(id, bundle) => e.Returned? && e.ok && s.at.Sending? && s.at.id == id && s.at.entry.bundle == bundle
    case AReplacement(id) => e.Enqueue? && e.id == id && Carries(s.at, id)
    case AFault => e.Rejected? && s.at.Marking?
    case AFaultOf(id) => e.Rejected? && s.at.Marking? && s.at.ok && s.at.id == id
    case AnEnqueue => e.Enqueue?
    case AnEnqueueOf(id) => e.Enqueue? && e.id == id
    case ACycle => e.Online? && s.at.Idle?
    case AnotherCaller => e.Enqueue? || e.SweepFailed? || e.SweepOld?
  }

  predicate Carries(at: Await, id: Id) { (at.Sending? || at.Marking?) && at.id == id }

  predicate IsPending(q: Queue, id: Id) { id in q && q[id].entry.status == Pending }

  /** What holds between any two steps. The entry in flight may be gone, but not in another status. */
  ghost predicate Good(s: Drain) {
    && AttemptsAreBounded(s.queue)
    && (s.at.Sending? || s.at.Marking? ==> s.at.id in s.queue ==> IsPending(s.queue, s.at.id))
    && (!s.at.Idle? ==> s.at.drained < MAX_DRAIN_PER_CYCLE)
  }

  lemma EnqueueEvicts(q: Queue, cap: nat)
    ensures Within(EvictOldest(q, Excess(|q|, cap)), q)
  {
    EvictionDropsTheOldest(q, Excess(|q|, cap));
  }

  lemma StepKeepsGood(s: Drain, e: Event, cap: nat)
    requires Good(s)
    ensures Good(Step(s, e, cap))
  {
    if e.Enqueue? { EnqueueEvicts(s.queue, cap); }
    if e.Answered? && s.at.Asking? && WithStatus(s.queue, Pending) != map[] {
      var first := First(WithStatus(s.queue, Pending));
      assert first in WithStatus(s.queue, Pending);
    }
  }

  /** The invariant over every run: pending entries have failed fewer than 8 times, failed ones exactly 8. */
  lemma {:induction false} EveryRunIsGood(s: Drain, es: seq<Event>, cap: nat)
    requires Good(s)
    ensures Good(StateAt(s, es, cap))
    decreases |es|
  {
    if es != [] {
      EveryRunIsGood(s, es[..|es| - 1], cap);
      StepKeepsGood(StateAt(s, es[..|es| - 1], cap), es[|es| - 1], cap);
    }
  }

  /** A send under way whose entry was evicted, or one counted whose mark is still to come. */
  function InFlight(s: Drain): int {
    match s.at
    case Sending(_, id, _) => One(!IsPending(s.queue, id))
    case Marking(_, id, _, _) => 0 - One(IsPending(s.queue, id))
    case _ => 0
  }

  lemma EnqueuePays(s: Drain, e: Event, cap: nat)
    requires Good(s) && e.Enqueue?
    ensures var after := Step(s, e, cap);
            SendsLeft(after.queue) + InFlight(after) <= SendsLeft(s.queue) + InFlight(s) + MAX_OUTBOX_ATTEMPTS
  {
    var id := if s.at.Sending? || s.at.Marking? then s.at.id else "";
    EnqueueEvicts(s.queue, cap);
    var kept := EvictOldest(s.queue, Excess(|s.queue|, cap));
    SendsLeftAfterDeletes(kept, s.queue, id);
    SendsLeftAfterPut(kept, e.id, Row(e.stamp, OutboxEntry(e.channelId, e.bundle, 0, Pending)));
  }

  lemma SweepPays(s: Drain, e: Event, cap: nat)
    requires Good(s) && (e.SweepFailed? || e.SweepOld?)
    ensures var after := Step(s, e, cap);
            SendsLeft(after.queue) + InFlight(after) <= SendsLeft(s.queue) + InFlight(s)
  {
    var id := if s.at.Sending? || s.at.Marking? then s.at.id else "";
    var after := Step(s, e, cap);
    assert Within(after.queue, s.queue) && after.at == s.at;
    SendsLeftAfterDeletes(after.queue, s.queue, id);
  }

  lemma MarkPays(s: Drain, now: int, cap: nat)
    requires Good(s) && s.at.Marking?
    ensures SendsLeft(Step(s, Marked(now), cap).queue) <= SendsLeft(s.queue) + InFlight(s)
  {
    var id := s.at.id;
    if id in s.queue { SendsLeftAfterPut(s.queue, id, Step(s, Marked(now), cap).queue[id]); }
  }

  lemma StepPays(s: Drain, e: Event, cap: nat)
    requires Good(s)
    ensures var after := Step(s, e, cap);
            One(Is(s, e, ASend)) + SendsLeft(after.queue) + InFlight(after)
            <= SendsLeft(s.queue) + InFlight(s) + MAX_OUTBOX_ATTEMPTS * One(Is(s, e, AnEnqueue)) + One(Is(s, e, AFault))
  {
    if e.Enqueue? {
      EnqueuePays(s, e, cap);
    } else if e.SweepFailed? || e.SweepOld? {
      SweepPays(s, e, cap);
    } else if e.Marked? && s.at.Marking? {
      MarkPays(s, e.now, cap);
    } else if e.Answered? && s.at.Asking? && WithStatus(s.queue, Pending) != map[] {
      assert First(WithStatus(s.queue, Pending)) in WithStatus(s.queue, Pending);
    }
  }

  /** Termination: whatever is interleaved, the bridge sends that return, over all cycles, are at most
      the attempts the queue had left at the start, 8 for each new entry, and the marks lost. */
  lemma {:induction false} SendsAreBounded(s: Drain, es: seq<Event>, cap: nat)
    requires Good(s) && s.at.Idle?
    ensures Times(s, es, cap, ASend) + SendsLeft(StateAt(s, es, cap).queue) + InFlight(StateAt(s, es, cap))
            <= SendsLeft(s.queue) + MAX_OUTBOX_ATTEMPTS * Times(s, es, cap, AnEnqueue) + Times(s, es, cap, AFault)
    decreases |es|
  {
    if es != [] {
      var before := es[..|es| - 1];
      SendsAreBounded(s, before, cap);
      EveryRunIsGood(s, before, cap);
      StepPays(StateAt(s, before, cap), es[|es| - 1], cap);
    }
  }

  /** A send of `id` under way whose entry is gone, or one that returned ok and is still to be marked. */
  function InFlightOf(s: Drain, id: Id): int {
    match s.at
    case Sending(_, at, _) => One(at == id && !IsPending(s.queue, id))
    case Marking(_, at, _, ok) => 0 - One(ok && at == id && IsPending(s.queue, id))
    case _ => 0
  }

  lemma StepPaysFor(s: Drain, e: Event, cap: nat, id: Id)
    requires Good(s)
    ensures var after := Step(s, e, cap);
            One(Is(s, e, ASendOf(id))) + One(IsPending(after.queue, id)) + InFlightOf(after, id)
            <= One(IsPending(s.queue, id)) + InFlightOf(s, id) + One(Is(s, e, AnEnqueueOf(id))) + One(Is(s, e, AFaultOf(id)))
  {
    if e.Enqueue? { EnqueueEvicts(s.queue, cap); }
    if e.Answered? && s.at.Asking? && WithStatus(s.queue, Pending) != map[] {
      assert First(WithStatus(s.queue, Pending)) in WithStatus(s.queue, Pending);
    }
  }

  /** At most one successful send per enqueue: only a lost mark lets an id be sent again. */
  lemma {:induction false} SentOncePerEnqueue(s: Drain, es: seq<Event>, cap: nat, id: Id)
    requires Good(s) && s.at.Idle?
    ensures var end := StateAt(s, es, cap);
            Times(s, es, cap, ASendOf(id)) + One(IsPending(end.queue, id)) + InFlightOf(end, id)
            <= One(IsPending(s.queue, id)) + Times(s, es, cap, AnEnqueueOf(id)) + Times(s, es, cap, AFaultOf(id))
    decreases |es|
  {
    if es != [] {
      var before := es[..|es| - 1];
      SentOncePerEnqueue(s, before, cap, id);
      EveryRunIsGood(s, before, cap);
      StepPaysFor(StateAt(s, before, cap), es[|es| - 1], cap, id);
    }
  }

  lemma Extend(s: Drain, es: seq<Event>, e: Event, cap: nat, kind: Kind)
    ensures StateAt(s, es + [e], cap) == Step(StateAt(s, es, cap), e, cap)
    ensures Times(s, es + [e], cap, kind) == Times(s, es, cap, kind) + One(Is(StateAt(s, es, cap), e, kind))
  {
    assert (es + [e])[..|es + [e]| - 1] == es;
  }

  /** A lost mark does send twice: the mark rejects, the entry is still pending, the next cycle takes it again. */
  lemma LostMarkSendsTwice(s: Drain, cap: nat)
    requires s.at.Idle? && WithStatus(s.queue, Pending) != map[]
    ensures Times(s, [Online, Answered, Returned(true), Rejected] + [Online] + [Answered] + [Returned(true)], cap,
                  ASendOf(First(WithStatus(s.queue, Pending)))) == 2
  {
    var kind := ASendOf(First(WithStatus(s.queue, Pending)));
    var es: seq<Event> := [];
    Extend(s, es, Online, cap, kind);
    es := es + [Online];
    Extend(s, es, Answered, cap, kind);
    es := es + [Answered];
    Extend(s, es, Returned(true), cap, kind);
    es := es + [Returned(true)];
    Extend(s, es, Rejected, cap, kind);
    es := es + [Rejected];
    assert es == [Online, Answered, Returned(true), Rejected];
    Extend(s, es, Online, cap, kind);
    Extend(s, es + [Online], Answered, cap, kind);
    Extend(s, es + [Online] + [Answered], Returned(true), cap, kind);
  }

  function LeftInCycle(at: Await): int {
    match at
    case Idle => 0
    case Marking(drained, _, _, _) => MAX_DRAIN_PER_CYCLE - drained - 1
    case _ => MAX_DRAIN_PER_CYCLE - at.drained
  }

  /** One cycle makes at most 50 sends, and online events during it start no second one. */
  lemma {:induction false} FiftyPerCycle(s: Drain, es: seq<Event>, cap: nat)
    requires Good(s) && s.at.Idle?
    ensures Times(s, es, cap, ASend) + LeftInCycle(StateAt(s, es, cap).at) <= MAX_DRAIN_PER_CYCLE * Times(s, es, cap, ACycle)
    decreases |es|
  {
    if es != [] {
      var before := es[..|es| - 1];
      FiftyPerCycle(s, before, cap);
      EveryRunIsGood(s, before, cap);
      StepKeepsGood(StateAt(s, before, cap), es[|es| - 1], cap);
    }
  }

  ghost predicate IsSent(q: Queue, id: Id) { id in q && q[id].entry.status == Sent }

  /** What is known of `id` after a run in which it was not replaced in flight. */
  ghost predicate Honest(s: Drain, es: seq<Event>, cap: nat, id: Id) {
    var end := StateAt(s, es, cap);
    && (Carries(end.at, id) && id in end.queue ==> end.queue[id].entry.bundle == end.at.entry.bundle)
    && (end.at.Marking? && end.at.ok && end.at.id == id ==> Times(s, es, cap, ASendOfBundle(id, end.at.entry.bundle)) > 0)
    && (IsSent(end.queue, id) ==> Times(s, es, cap, ASendOfBundle(id, end.queue[id].entry.bundle)) > 0)
  }

  lemma CallerStaysHonest(s: Drain, es: seq<Event>, e: Event, cap: nat, id: Id)
    requires Honest(s, es, cap, id) && Is(StateAt(s, es, cap), e, AnotherCaller) && !Is(StateAt(s, es, cap), e, AReplacement(id))
    ensures Honest(s, es + [e], cap, id)
  {
    assert (es + [e])[..|es|] == es;
    if e.Enqueue? { EnqueueEvicts(StateAt(s, es, cap).queue, cap); }
  }

  lemma DrainerStaysHonest(s: Drain, es: seq<Event>, e: Event, cap: nat, id: Id)
    requires Honest(s, es, cap, id) && !Is(StateAt(s, es, cap), e, AnotherCaller)
    ensures Honest(s, es + [e], cap, id)
  {
    var t := StateAt(s, es, cap);
    assert (es + [e])[..|es|] == es;
    if e.Answered? && t.at.Asking? && WithStatus(t.queue, Pending) != map[] {
      assert First(WithStatus(t.queue, Pending)) in WithStatus(t.queue, Pending);
    }
  }

  /** No false delivery: while no entry is replaced in flight, an entry is marked sent only if a send of
      its own bundle returned ok. */
  lemma {:induction false} SentMeansDelivered(s: Drain, es: seq<Event>, cap: nat, id: Id)
    requires s.at.Idle? && !IsSent(s.queue, id) && Times(s, es, cap, AReplacement(id)) == 0
    ensures Honest(s, es, cap, id)
    ensures var q := StateAt(s, es, cap).queue;
            IsSent(q, id) ==> Times(s, es, cap, ASendOfBundle(id, q[id].entry.bundle)) > 0
    decreases |es|
  {
    if es != [] {
      var before, e := es[..|es| - 1], es[|es| - 1];
      SentMeansDelivered(s, before, cap, id);
      if Is(StateAt(s, before, cap), e, AnotherCaller) {
        CallerStaysHonest(s, before, e, cap, id);
      } else {
        DrainerStaysHonest(s, before, e, cap, id);
      }
      assert es == before + [e];
    }
  }

  /** The bundle last enqueued under `id` along a run, `bundle` if none was. */
  function LastEnqueued(es: seq<Event>, id: Id, bundle: bytes): bytes
    decreases |es|
  {
    if es == [] then bundle
    else
      var e := es[|es| - 1];
      if e.Enqueue? && e.id == id then e.bundle else LastEnqueued(es[..|es| - 1], id, bundle)
  }

  /** What happens between the answer that picks an entry and the mark of it. */
  predicate InFlightOnly(es: seq<Event>) { forall e | e in es :: !e.Marked? && !e.Rejected? }

  lemma {:induction false} TheLastBundleIsThere(s: Drain, es: seq<Event>, cap: nat)
    requires s.at.Sending? && InFlightOnly(es) && (s.at.id in s.queue ==> s.queue[s.at.id].entry.bundle == s.at.entry.bundle)
    ensures var end := StateAt(s, es, cap);
            && Carries(end.at, s.at.id) && end.at.entry == s.at.entry
            && (s.at.id in end.queue ==> end.queue[s.at.id].entry.bundle == LastEnqueued(es, s.at.id, s.at.entry.bundle))
    decreases |es|
  {
    if es != [] {
      var before, e := es[..|es| - 1], es[|es| - 1];
      assert e in es && forall x | x in before :: x in es;
      TheLastBundleIsThere(s, before, cap);
      if e.Enqueue? { EnqueueEvicts(StateAt(s, before, cap).queue, cap); }
    }
  }

  /** Exactly when a mark is right: the entry it marks sent carries the bundle that was handed over if
      and only if that is the bundle last enqueued under the id while the send was under way. */
  lemma MarkIsRightExactly(s: Drain, es: seq<Event>, cap: nat, now: int)
    requires s.at.Sending? && InFlightOnly(es) && (s.at.id in s.queue ==> s.queue[s.at.id].entry.bundle == s.at.entry.bundle)
    requires var t := StateAt(s, es, cap); t.at.Marking? && t.at.ok && t.at.id in t.queue
    ensures var q := Step(StateAt(s, es, cap), Marked(now), cap).queue;
            && IsSent(q, s.at.id)
            && (q[s.at.id].entry.bundle == s.at.entry.bundle <==> LastEnqueued(es, s.at.id, s.at.entry.bundle) == s.at.entry.bundle)
  {
    TheLastBundleIsThere(s, es, cap);
  }

  /** It can be wrong: replaced in flight, the new bundle is marked sent without ever being handed over. */
  lemma ReplacedInFlight(s: Drain, cap: nat, channelId: bytes, bundle: bytes)
    requires s.at.Idle? && WithStatus(s.queue, Pending) != map[]
    ensures var pending := WithStatus(s.queue, Pending);
            var id := First(pending);
            var es := [Online, Answered, Enqueue(id, 0, channelId, bundle)];
            var end := StateAt(s, es + [Returned(true)] + [Marked(0)], cap);
            && IsSent(end.queue, id) && end.queue[id].entry.bundle == bundle
            && (bundle != pending[id].entry.bundle ==> Times(s, es + [Returned(true)] + [Marked(0)], cap, ASendOfBundle(id, bundle)) == 0)
  {
    var id := First(WithStatus(s.queue, Pending));
    var kind := ASendOfBundle(id, bundle);
    var es: seq<Event> := [];
    Extend(s, es, Online, cap, kind);
    es := es + [Online];
    Extend(s, es, Answered, cap, kind);
    es := es + [Answered];
    Extend(s, es, Enqueue(id, 0, channelId, bundle), cap, kind);
    es := es + [Enqueue(id, 0, channelId, bundle)];
    assert es == [Online, Answered, Enqueue(id, 0, channelId, bundle)];
    Extend(s, es, Returned(true), cap, kind);
    Extend(s, es + [Returned(true)], Marked(0), cap, kind);
  }

  /** The same ids, each with its content. */
  ghost predicate SameContents(before: Queue, after: Queue) {
    && after.Keys == before.Keys
    && forall id | id in after :: after[id].entry.bundle == before[id].entry.bundle && after[id].entry.channelId == before[id].entry.channelId
  }

  lemma DrainerKeepsContents(s: Drain, e: Event, cap: nat)
    requires !Is(s, e, AnotherCaller)
    ensures SameContents(s.queue, Step(s, e, cap).queue)
  {
  }

  /** Draining loses nothing: while no one else writes the outbox, every id stays, with its bundle, and
      no id appears. */
  lemma {:induction false} DrainingLosesNothing(s: Drain, es: seq<Event>, cap: nat)
    requires Times(s, es, cap, AnotherCaller) == 0
    ensures SameContents(s.queue, StateAt(s, es, cap).queue)
    decreases |es|
  {
    if es != [] {
      var before := es[..|es| - 1];
      DrainingLosesNothing(s, before, cap);
      DrainerKeepsContents(StateAt(s, before, cap), es[|es| - 1], cap);
    }
  }

  /** One turn of the loop with a bridge that accepts. */
  ghost function Turn(s: Drain, cap: nat): Drain {
    Step(Step(Step(s, Answered, cap), Returned(true), cap), Marked(0), cap)
  }

  ghost function Turns(s: Drain, n: nat, cap: nat): Drain
    decreases n
  {
    if n == 0 then s else Turn(Turns(s, n - 1, cap), cap)
  }

  lemma OneTurn(s: Drain, cap: nat)
    requires s.at.Asking? && WithStatus(s.queue, Pending) != map[]
    ensures var pending := WithStatus(s.queue, Pending);
            var next := s.at.drained + 1;
            && WithStatus(Turn(s, cap).queue, Pending) == pending - {First(pending)}
            && Turn(s, cap).at == (if next < MAX_DRAIN_PER_CYCLE then Asking(next) else Idle)
  {
    var pending := WithStatus(s.queue, Pending);
    var first := First(pending);
    assert first in pending;
    var after := MarkedSent(s.queue, first);
    assert Turn(s, cap).queue == after;
    assert WithStatus(after, Pending) == pending - {first};
  }

  lemma NothingToTurn(s: Drain, cap: nat)
    requires s.at.Idle? || (s.at.Asking? && WithStatus(s.queue, Pending) == map[])
    ensures Turn(s, cap) == s.(at := Idle)
  {
  }

  lemma {:induction false} EvictAnother<E>(t: Table<E>, n: nat)
    ensures var kept := EvictOldest(t, n);
            EvictOldest(t, n + 1) == if kept == map[] then kept else kept - {First(kept)}
    decreases n
  {
    if n > 0 && t != map[] { EvictAnother(t - {First(t)}, n - 1); }
  }

  /** Where a healthy cycle over `pending` stands after `n` turns. */
  ghost predicate Delivered(s: Drain, pending: Queue, n: nat) {
    && WithStatus(s.queue, Pending) == EvictOldest(pending, n)
    && s.at == (if n > |pending| || n == MAX_DRAIN_PER_CYCLE then Idle else Asking(n))
  }

  lemma AnotherTurn(s: Drain, pending: Queue, n: nat, cap: nat)
    requires Delivered(s, pending, n) && n < MAX_DRAIN_PER_CYCLE
    ensures Delivered(Turn(s, cap), pending, n + 1)
  {
    var left := WithStatus(s.queue, Pending);
    EvictAnother(pending, n);
    EvictionDropsTheOldest(pending, n);
    if n < |pending| {
      assert |left| > 0;
      OneTurn(s, cap);
    } else {
      assert |left| == 0;
      NothingToTurn(s, cap);
    }
  }

  /** A healthy cycle delivers in order: after n turns exactly the n pending entries with the least ids
      are sent, and the cycle ends when none is left or 50 are done. */
  lemma {:induction false} HealthyCycleDeliversInOrder(s: Drain, n: nat, cap: nat)
    requires s.at == Asking(0) && n <= MAX_DRAIN_PER_CYCLE
    ensures Delivered(Turns(s, n, cap), WithStatus(s.queue, Pending), n)
    decreases n
  {
    if n == 0 {
      assert |WithStatus(s.queue, Pending)| >= 0;
    } else {
      HealthyCycleDeliversInOrder(s, n - 1, cap);
      AnotherTurn(Turns(s, n - 1, cap), WithStatus(s.queue, Pending), n - 1, cap);
    }
  }
}
