/** The receiver's rolling cache of frame keys, with key buffers that are zeroed in place. */
module KeyCache {
  import opened Basics
  import opened KeySchedule

  const RECV_WINDOW_SIZE := 64
  const RECV_LOOKAHEAD := 8

  predicate Blank(content: bytes) {
    forall x | x in content :: x == 0
  }

  /** What a buffer is in use for: the key of a frame counter, one of the two chain keys, or nothing. */
  datatype Use = KeyOf(counter: int) | Chain | ChainAtLowest | Wiped

  /** A byte buffer on the heap. The ghost `use` keeps one buffer from serving in two places. */
  class Buffer {
    var content: bytes
    ghost var use: Use

    constructor (content: bytes, ghost use: Use)
      ensures this.content == content && this.use == use
    {
      this.content, this.use := content, use;
    }

    method Wipe()
      modifies this
      ensures use == Wiped && Blank(content) && |content| == |old(content)|
    {
      content, use := seq(|content|, i => 0), Wiped;
    }
  }

  class RecvKeyCache {
    const suite: Suite
    ghost const initial: bytes
    ghost const start: nat
    var keys: map<int, Buffer>
    var lowestCounter: int
    var chainAtLowest: Buffer
    var chain: Buffer
    var highestDerived: int
    /** Every buffer this cache has ever held. */
    ghost var repr: set<Buffer>

    /** The keys of counters `low`..highestDerived are held, `chainAtLowest` stands at `lowChain`
        and `chain` at `next`; these are all different buffers, and every other buffer the cache
        ever held is zero. */
    ghost predicate Holds(low: int, lowChain: int, next: int)
      reads this, repr
    {
      && start <= low && start <= lowChain && start <= next
      && (forall c :: c in keys <==> low <= c <= highestDerived)
      && (forall c | c in keys :: keys[c] in repr && keys[c].use == KeyOf(c))
      && (forall c | c in keys :: keys[c].content == FrameKeyAt(suite, initial, c - start))
      && chain in repr && chain.use == Chain
      && chain.content == ChainAt(suite, initial, next - start)
      && chainAtLowest in repr && chainAtLowest.use == ChainAtLowest
      && chainAtLowest.content == ChainAt(suite, initial, lowChain - start)
      && (forall b | b in repr ::
            match b.use
            case KeyOf(c) => c in keys && keys[c] == b
            case Chain => b == chain
            case ChainAtLowest => b == chainAtLowest
            case Wiped => Blank(b.content))
    }

    ghost predicate Valid()
      reads this, repr
    {
      lowestCounter <= highestDerived + 1 && Holds(lowestCounter, lowestCounter, highestDerived + 1)
    }

    /** Of all the buffers the cache ever held, only the keys of lowestCounter..highestDerived and the
        two chain keys are not zero: nothing that derives an older key is left. */
    lemma OnlyLiveBuffersHoldKeyMaterial(b: Buffer)
      requires Valid() && b in repr && !Blank(b.content)
      ensures b == chain || b == chainAtLowest
           || exists c :: lowestCounter <= c <= highestDerived && c in keys && keys[c] == b
    {
      match b.use
      case KeyOf(c) => assert c in keys;
      case _ =>
    }

    constructor (suite: Suite, initialChain: bytes, startCounter: nat)
      ensures Valid() && fresh(repr)
      ensures this.suite == suite && initial == initialChain && start == startCounter
      ensures lowestCounter == startCounter && highestDerived == startCounter + RECV_LOOKAHEAD - 1
    {
      var a := new Buffer(initialChain, ChainAtLowest);
      var b := new Buffer(initialChain, Chain);
      this.suite, initial, start := suite, initialChain, startCounter;
      keys := map[];
      lowestCounter, chainAtLowest, chain, highestDerived := startCounter, a, b, startCounter - 1;
      repr := {a, b};
      new;
      Fill(startCounter + RECV_LOOKAHEAD - 1);
    }

    /** Derives keys up to and including `upTo`, wiping each chain key it steps past. */
    method Fill(upTo: int)
      requires Valid()
      modifies this, repr
      ensures Valid() && old(repr) <= repr && fresh(repr - old(repr))
      ensures lowestCounter == old(lowestCounter) && highestDerived == Max(old(highestDerived), upTo)
      ensures chainAtLowest == old(chainAtLowest)
      ensures forall c | c in old(keys) :: c in keys && keys[c] == old(keys[c])
    {
      while highestDerived < upTo
        invariant Valid() && old(repr) <= repr && fresh(repr - old(repr))
        invariant lowestCounter == old(lowestCounter)
        invariant old(highestDerived) <= highestDerived <= Max(old(highestDerived), upTo)
        invariant chainAtLowest == old(chainAtLowest)
        invariant forall c | c in old(keys) :: c in keys && keys[c] == old(keys[c])
        decreases upTo - highestDerived
      {
        SetNextKey(lowestCounter);
        StepChain(lowestCounter);
      }
    }

    /** First half of a turn of Fill: derive the key of the counter after highestDerived. */
    method SetNextKey(ghost low: int)
      requires low <= highestDerived + 1 && Holds(low, low, highestDerived + 1)
      modifies this
      ensures Holds(low, low, highestDerived)
      ensures highestDerived == old(highestDerived) + 1 && highestDerived in keys
      ensures fresh(keys[highestDerived]) && keys == old(keys)[highestDerived := keys[highestDerived]]
      ensures repr == old(repr) + {keys[highestDerived]}
      ensures lowestCounter == old(lowestCounter) && chain == old(chain) && chainAtLowest == old(chainAtLowest)
    {
      var ctr := highestDerived + 1;
      var key := new Buffer(suite.DeriveFrameKey(chain.content), KeyOf(ctr));
      keys, highestDerived, repr := keys[ctr := key], ctr, repr + {key};
    }

    /** Second half of a turn of Fill: step the chain and wipe the chain key stepped past. */
    method StepChain(ghost low: int)
      requires Holds(low, low, highestDerived)
      modifies this, chain
      ensures Holds(low, low, highestDerived + 1)
      ensures fresh(chain) && repr == old(repr) + {chain} && old(chain).use == Wiped
      ensures lowestCounter == old(lowestCounter) && highestDerived == old(highestDerived)
      ensures keys == old(keys) && chainAtLowest == old(chainAtLowest)
    {
      var nextChain := new Buffer(suite.RatchetChain(chain.content), Chain);
      chain.Wipe();
      chain, repr := nextChain, repr + {nextChain};
    }

    /** The key of `counter`: null below the oldest retained counter, and null more than
        2 * RECV_LOOKAHEAD past the newest derived one. A hit past the newest one derives ahead. */
    method Get(counter: int) returns (key: Buffer?)
      requires Valid()
      modifies this, repr
      ensures Valid() && fresh(repr - old(repr))
      ensures old(repr) <= repr
      ensures lowestCounter == old(lowestCounter)
      ensures key != null <==> lowestCounter <= counter <= old(highestDerived) + 2 * RECV_LOOKAHEAD
      ensures key != null ==> counter in keys && keys[counter] == key
      ensures highestDerived ==
        if old(highestDerived) < counter <= old(highestDerived) + 2 * RECV_LOOKAHEAD
        then counter + RECV_LOOKAHEAD else old(highestDerived)
    {
      if counter < lowestCounter { return null; }
      var maxExtend := highestDerived + 2 * RECV_LOOKAHEAD;
      if highestDerived < counter <= maxExtend {
        Fill(counter + RECV_LOOKAHEAD);
      }
      return if counter in keys then keys[counter] else null;
    }

    /** After decrypting `counter`: drops and wipes every key older than counter - 63, moves
        chainAtLowest up with them, and derives ahead of `counter` again. */
    method PruneOlderThan(counter: int)
      requires Valid() && counter <= highestDerived
      modifies this, repr
      ensures Valid() && fresh(repr - old(repr))
      ensures old(repr) <= repr
      ensures lowestCounter == Max(old(lowestCounter), counter - RECV_WINDOW_SIZE + 1)
      ensures highestDerived == Max(old(highestDerived), counter + RECV_LOOKAHEAD)
    {
      Prune(counter);
      Fill(counter + RECV_LOOKAHEAD);
    }

    method Prune(counter: int)
      requires Valid() && counter <= highestDerived
      modifies this, repr
      ensures Valid() && old(repr) <= repr && fresh(repr - old(repr))
      ensures lowestCounter == Max(old(lowestCounter), counter - RECV_WINDOW_SIZE + 1)
      ensures highestDerived == old(highestDerived)
    {
      var windowFloor := counter - RECV_WINDOW_SIZE + 1;
      var pruneBelow := if windowFloor > lowestCounter then windowFloor else lowestCounter;
      PruneLoop(pruneBelow);
      RaiseLowest(pruneBelow);
    }

    /** The end of the prune: lowestCounter follows the keys dropped. */
    method RaiseLowest(pruneBelow: int)
      requires lowestCounter <= pruneBelow <= highestDerived + 1 && Holds(pruneBelow, pruneBelow, highestDerived + 1)
      modifies this`lowestCounter
      ensures Valid() && lowestCounter == pruneBelow
    {
      if pruneBelow > lowestCounter {
        lowestCounter := pruneBelow;
      }
    }

    /** The loop of Prune; it leaves lowestCounter alone. */
    method PruneLoop(pruneBelow: int)
      requires Valid() && lowestCounter <= pruneBelow <= highestDerived + 1
      modifies this, repr
      ensures Holds(pruneBelow, pruneBelow, highestDerived + 1)
      ensures old(repr) <= repr && fresh(repr - old(repr))
      ensures lowestCounter == old(lowestCounter) && highestDerived == old(highestDerived)
    {
      for c := lowestCounter to pruneBelow
        invariant Holds(c, c, highestDerived + 1)
        invariant old(repr) <= repr && fresh(repr - old(repr))
        invariant lowestCounter == old(lowestCounter) && highestDerived == old(highestDerived)
      {
        DropLowest(c);
      }
    }

    /** One turn of the loop. */
    method DropLowest(low: int)
      requires low <= highestDerived && Holds(low, low, highestDerived + 1)
      modifies this, keys[low], chainAtLowest
      ensures Holds(low + 1, low + 1, highestDerived + 1)
      ensures low in old(keys) && keys == old(keys) - {low} && old(keys[low]).use == Wiped
      ensures fresh(chainAtLowest) && repr == old(repr) + {chainAtLowest}
      ensures lowestCounter == old(lowestCounter) && highestDerived == old(highestDerived)
    {
      DropKey(low);
      StepChainAtLowest(low);
    }

    /** First half of a turn of the loop: wipe and drop the key of `low`. */
    method DropKey(low: int)
      requires low <= highestDerived && Holds(low, low, highestDerived + 1)
      modifies this, keys[low]
      ensures Holds(low + 1, low, highestDerived + 1)
      ensures low in old(keys) && keys == old(keys) - {low} && old(keys[low]).use == Wiped
      ensures repr == old(repr) && lowestCounter == old(lowestCounter) && highestDerived == old(highestDerived)
      ensures chain == old(chain) && chainAtLowest == old(chainAtLowest)
    {
      var prunedKey := keys[low];
      prunedKey.Wipe();
      keys := keys - {low};
    }

    /** Second half: step chainAtLowest past `low` and wipe the chain key stepped past. */
    method StepChainAtLowest(ghost low: int)
      requires Holds(low + 1, low, highestDerived + 1)
      modifies this, chainAtLowest
      ensures Holds(low + 1, low + 1, highestDerived + 1)
      ensures fresh(chainAtLowest) && repr == old(repr) + {chainAtLowest} && old(chainAtLowest).use == Wiped
      ensures lowestCounter == old(lowestCounter) && highestDerived == old(highestDerived)
      ensures keys == old(keys) && chain == old(chain)
    {
      var nextAtLowest := new Buffer(suite.RatchetChain(chainAtLowest.content), ChainAtLowest);
      chainAtLowest.Wipe();
      chainAtLowest, repr := nextAtLowest, repr + {nextAtLowest};
    }
  }
}
