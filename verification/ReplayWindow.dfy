/** The 64-entry sliding replay bitmap, and the set of counters it stands for. */
module Replay {
  import opened Bits

  const REPLAY_WINDOW_SIZE := 64

  /** Not more than 63 behind any accepted counter. */
  predicate InWindow(seen: set<int>, counter: int) {
    counter >= 0 && forall s | s in seen :: s - counter < REPLAY_WINDOW_SIZE
  }

  /** What the window decides, as a statement about the set of accepted counters. */
  predicate Acceptable(seen: set<int>, counter: int) {
    counter !in seen && InWindow(seen, counter)
  }

  /** Bits 0 to 63 of the bitmap: bit i stands for the counter highest - i. */
  ghost predicate Represents(bitmap: nat, highest: int, seen: set<int>) {
    forall i: nat | i < REPLAY_WINDOW_SIZE && i <= highest :: Bit(bitmap, i) <==> highest - i in seen
  }

  /** No bits above 63. */
  ghost predicate Tight(bitmap: nat) { forall i: nat | i >= REPLAY_WINDOW_SIZE :: !Bit(bitmap, i) }

  /** A jump forward: shift the bitmap up (or drop it), set bit 0, cut it at 64 bits. */
  lemma SlideForward(bitmap: nat, highest: int, seen: set<int>, counter: int, shifted: nat)
    requires Represents(bitmap, highest, seen) && counter > highest >= 0
    requires forall s | s in seen :: s <= highest
    requires shifted == if counter - highest >= REPLAY_WINDOW_SIZE then 1 else Or(Shl(bitmap, counter - highest), 1)
    ensures Represents(And(shifted, Shl(1, REPLAY_WINDOW_SIZE) - 1), counter, seen + {counter})
    ensures Tight(And(shifted, Shl(1, REPLAY_WINDOW_SIZE) - 1))
  {
    var cut := And(shifted, Shl(1, REPLAY_WINDOW_SIZE) - 1);
    Masked(shifted, cut);
    assert Tight(cut);
    forall i: nat | i < REPLAY_WINDOW_SIZE && i <= counter ensures Bit(shifted, i) <==> counter - i in seen + {counter} {
      SlideOne(bitmap, highest, seen, counter, shifted, i);
    }
    assert Represents(cut, counter, seen + {counter});
  }

  lemma Masked(shifted: nat, cut: nat)
    requires cut == And(shifted, Shl(1, REPLAY_WINDOW_SIZE) - 1)
    ensures forall i: nat :: Bit(cut, i) <==> i < REPLAY_WINDOW_SIZE && Bit(shifted, i)
  {
    var mask := Shl(1, REPLAY_WINDOW_SIZE) - 1;
    forall i: nat ensures Bit(cut, i) <==> i < REPLAY_WINDOW_SIZE && Bit(shifted, i) {
      BitAnd(shifted, mask, i);
      BitMask(REPLAY_WINDOW_SIZE, i);
    }
  }

  lemma SlideOne(bitmap: nat, highest: int, seen: set<int>, counter: int, shifted: nat, i: nat)
    requires Represents(bitmap, highest, seen) && counter > highest >= 0
    requires forall s | s in seen :: s <= highest
    requires shifted == if counter - highest >= REPLAY_WINDOW_SIZE then 1 else Or(Shl(bitmap, counter - highest), 1)
    requires i < REPLAY_WINDOW_SIZE && i <= counter
    ensures Bit(shifted, i) <==> counter - i in seen + {counter}
  {
    var shift := counter - highest;
    ShiftedBit(bitmap, shift, i, shifted);
    if shift <= i { assert counter - i == highest - (i - shift); }
  }

  lemma ShiftedBit(bitmap: nat, shift: nat, i: nat, shifted: nat)
    requires shift > 0 && shifted == if shift >= REPLAY_WINDOW_SIZE then 1 else Or(Shl(bitmap, shift), 1)
    ensures Bit(shifted, i) <==> i == 0 || (shift < REPLAY_WINDOW_SIZE && i >= shift && Bit(bitmap, i - shift))
  {
    BitOne(0, i);
    if shift < REPLAY_WINDOW_SIZE {
      BitOr(Shl(bitmap, shift), 1, i);
      BitShl(bitmap, shift, i);
    }
  }

  lemma SetBehind(bitmap: nat, highest: int, seen: set<int>, counter: int)
    requires Represents(bitmap, highest, seen) && counter <= highest
    ensures Represents(Or(bitmap, Shl(1, highest - counter)), highest, seen + {counter})
    ensures Tight(Or(bitmap, Shl(1, highest - counter))) <==> Tight(bitmap) && highest - counter < REPLAY_WINDOW_SIZE
  {
    var offset := highest - counter;
    var bits := Or(bitmap, Shl(1, offset));
    forall i: nat ensures Bit(bits, i) <==> Bit(bitmap, i) || i == offset {
      BitOr(bitmap, Shl(1, offset), i);
      BitOne(offset, i);
    }
    if offset >= REPLAY_WINDOW_SIZE { assert Bit(bits, offset); }
    if !Tight(bitmap) {
      var i: nat :| i >= REPLAY_WINDOW_SIZE && Bit(bitmap, i);
      assert Bit(bits, i);
    }
  }

  class ReplayWindow {
    var highest: int
    var bitmap: nat
    ghost var seen: set<int>

    /** `seen` is every counter committed. Negative ones, which no frame carries, are lost. */
    ghost predicate Valid()
      reads this
    {
      && (forall s | s in seen :: s <= highest || s < 0)
      && (highest >= 0 ==> highest in seen && Represents(bitmap, highest, seen))
    }

    constructor ()
      ensures Valid() && seen == {} && Tight(bitmap)
    {
      highest, bitmap, seen := -1, 0, {};
      new;
      forall i: nat ensures !Bit(bitmap, i) { ZeroHasNoBits(i); }
    }

    method CanAccept(counter: int) returns (ok: bool)
      requires Valid()
      ensures ok <==> Acceptable(seen, counter)
    {
      if counter < 0 { return false; }
      if highest < 0 { return true; }
      if counter > highest { return true; }
      var offset := highest - counter;
      if offset >= REPLAY_WINDOW_SIZE { return false; }
      TestBit(bitmap, offset);
      assert highest - offset == counter;
      return And(bitmap, Shl(1, offset)) == 0;
    }

    /** Records any counter. One too old for the window changes no answer, but leaves the bitmap with
        a bit above 63 until the window next slides. */
    method Commit(counter: int)
      requires Valid()
      modifies this
      ensures Valid() && seen == old(seen) + {counter}
      ensures Tight(bitmap) <==> old(highest) < 0 || counter > old(highest)
                                 || (old(Tight(bitmap)) && old(highest) - counter < REPLAY_WINDOW_SIZE)
    {
      ghost var before := seen;
      seen := seen + {counter};
      if highest < 0 {
        highest := counter;
        bitmap := 1;
        forall i: nat ensures Bit(1, i) <==> i == 0 { BitOne(0, i); }
        return;
      }
      if counter > highest {
        ghost var bitmap0, highest0 := bitmap, highest;
        var shift := counter - highest;
        if shift >= REPLAY_WINDOW_SIZE {
          bitmap := 1;
        } else {
          bitmap := Or(Shl(bitmap, shift), 1);
        }
        highest := counter;
        SlideForward(bitmap0, highest0, before, counter, bitmap);
        var mask := Shl(1, REPLAY_WINDOW_SIZE) - 1;
        bitmap := And(bitmap, mask);
      } else {
        var offset := highest - counter;
        SetBehind(bitmap, highest, before, counter);
        bitmap := Or(bitmap, Shl(1, offset));
      }
    }

    method CheckAndAccept(counter: int) returns (ok: bool)
      requires Valid()
      modifies this
      ensures Valid()
      ensures ok <==> Acceptable(old(seen), counter)
      ensures seen == if ok then old(seen) + {counter} else old(seen)
      ensures old(Tight(bitmap)) ==> Tight(bitmap)
    {
      ok := CanAccept(counter);
      if ok { Commit(counter); }
    }

    /** As long as every commit was in the window, as after any run of CheckAndAccept, the bitmap is
        below 2^64; one that was not makes it larger. */
    lemma BitmapFits()
      ensures Tight(bitmap) <==> bitmap < Shl(1, REPLAY_WINDOW_SIZE)
    {
      if Tight(bitmap) {
        NoHighBits(bitmap, REPLAY_WINDOW_SIZE);
      } else {
        var i: nat :| i >= REPLAY_WINDOW_SIZE && Bit(bitmap, i);
        HighBitIsLarge(bitmap, i, REPLAY_WINDOW_SIZE);
      }
    }
  }

  lemma {:induction false} HighBitIsLarge(n: nat, i: nat, k: nat)
    requires Bit(n, i) && i >= k
    ensures n >= Shl(1, k)
  {
    if k > 0 { HighBitIsLarge(n / 2, i - 1, k - 1); } else if n == 0 { ZeroHasNoBits(i); }
  }

  /** The answers checkAndAccept gives to a run of counters, starting from `seen`. */
  function Verdicts(seen: set<int>, counters: seq<int>): (v: seq<bool>)
    ensures |v| == |counters|
    decreases |counters|
  {
    if counters == [] then []
    else
      var ok := Acceptable(seen, counters[0]);
      [ok] + Verdicts(if ok then seen + {counters[0]} else seen, counters[1..])
  }

  /** The counters accepted among the first `n` of a run. */
  function AcceptedBefore(counters: seq<int>, verdicts: seq<bool>, n: nat): set<int>
    requires n <= |counters| == |verdicts|
  {
    set i | 0 <= i < n && verdicts[i] :: counters[i]
  }

  /** Over every run: a counter is accepted exactly when it is non-negative, was not accepted
      before, and lies at most 63 behind everything accepted before. */
  lemma {:induction false} VerdictsAreTheSlidingWindow(seen: set<int>, counters: seq<int>, n: nat)
    requires n < |counters|
    ensures var v := Verdicts(seen, counters);
            v[n] <==> Acceptable(seen + AcceptedBefore(counters, v, n), counters[n])
    decreases n
  {
    var v := Verdicts(seen, counters);
    if n == 0 {
      assert AcceptedBefore(counters, v, 0) == {};
      assert seen + {} == seen;
    } else {
      var seen' := if v[0] then seen + {counters[0]} else seen;
      var rest := counters[1..];
      VerdictsAreTheSlidingWindow(seen', rest, n - 1);
      var a, a' := AcceptedBefore(counters, v, n), AcceptedBefore(rest, v[1..], n - 1);
      forall s | s in seen + a ensures s in seen' + a' {
        if s in a {
          var i :| 0 <= i < n && v[i] && counters[i] == s;
          if i > 0 { assert rest[i - 1] == s && v[1..][i - 1]; }
        }
      }
      forall s | s in seen' + a' ensures s in seen + a {
        if s in a' {
          var i :| 0 <= i < n - 1 && v[1..][i] && rest[i] == s;
          assert v[i + 1] && counters[i + 1] == s;
        } else if s !in seen {
          assert v[0] && counters[0] == s;
        }
      }
      assert seen + a == seen' + a';
    }
  }

  /** Over every run, no counter is accepted twice. */
  lemma NoCounterAcceptedTwice(counters: seq<int>, i: nat, j: nat)
    requires i < j < |counters| && counters[i] == counters[j]
    ensures !(Verdicts({}, counters)[i] && Verdicts({}, counters)[j])
  {
    VerdictsAreTheSlidingWindow({}, counters, j);
    var v := Verdicts({}, counters);
    if v[i] { assert counters[i] in AcceptedBefore(counters, v, j); }
  }
}
