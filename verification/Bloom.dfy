/** The Bloom filter that remembers message ids across reloads. */
module Bloom {
  import opened Basics
  import opened Bits

  const TWO_TO_32: nat := 0x1_0000_0000

  type u32 = n: nat | n < TWO_TO_32

  /** murmur3_32 stands for any seeded hash: nothing below depends on which. */
  datatype Hash = Hash(murmur: (string, u32) -> u32) {
    function Murmur(id: string, seed: u32): u32 { murmur(id, seed) }

    function H2(id: string): u32 {
      var h := Murmur(id, 0xdeadbeef);
      if h == 0 then 1 else h
    }
  }

  type pos = n: nat | n > 0 witness 1

  /** The size in bits and the number of probes of a filter. */
  datatype Params = Params(m: pos, k: pos) {
    function Probe(hash: Hash, id: string, i: nat): (bit: nat)
      ensures bit < m
    {
      (hash.Murmur(id, 0) + i * hash.H2(id)) % TWO_TO_32 % m
    }

    function FirstProbes(hash: Hash, id: string, n: nat): set<nat>
      decreases n
    {
      if n == 0 then {} else FirstProbes(hash, id, n - 1) + {Probe(hash, id, n - 1)}
    }

    function Probes(hash: Hash, id: string): set<nat> { FirstProbes(hash, id, k) }
  }

  /** A filter on values: its parameters and the set bits. */
  datatype Filter = Filter(params: Params, hits: set<nat>) {
    predicate Sees(hash: Hash, id: string) { params.Probes(hash, id) <= hits }

    function Marked(hash: Hash, id: string): Filter { this.(hits := hits + params.Probes(hash, id)) }
  }

  predicate ByteBit(b: byte, i: nat) { Bit(b as nat, i) }

  function SetBits(bits: seq<byte>): set<nat> {
    set bit: nat | bit < 8 * |bits| && ByteBit(bits[bit / 8], bit % 8)
  }

  datatype BloomRow = BloomRow(bits: seq<byte>, params: Params)

  function BytesFor(params: Params): nat { (params.m + 7) / 8 }

  /** What a filter opened with these parameters takes over from the filter saved. */
  function TakenOver(saved: Option<Filter>, params: Params): Filter {
    if saved.Some? && saved.value.params == params then saved.value else Filter(params, {})
  }

  function Saved(row: Option<BloomRow>): Option<Filter> {
    if row.Some? then Some(Filter(row.value.params, SetBits(row.value.bits))) else None
  }

  class BloomStore {
    var row: Option<BloomRow>

    constructor ()
      ensures Valid() && row == None
    {
      row := None;
    }

    /** Rows are written by flush alone. */
    ghost predicate Valid() reads this { row.Some? ==> |row.value.bits| == BytesFor(row.value.params) }
  }

  class BloomDedup {
    const hash: Hash
    const params: Params
    var bits: array<byte>
    var connected: bool

    constructor (hash: Hash, params: Params)
      ensures this.hash == hash && this.params == params && !connected && fresh(bits)
    {
      this.hash, this.params, connected := hash, params, false;
      bits := new byte[0];
    }

    ghost predicate Valid() reads this { connected && bits.Length == BytesFor(params) }

    function View(): Filter
      reads this, bits
    {
      Filter(params, SetBits(bits[..]))
    }

    /** Takes the stored bits over when the parameters are unchanged; otherwise starts empty. */
    method Open(store: BloomStore)
      requires store.Valid() && (connected ==> Valid())
      modifies this
      ensures Valid()
      ensures if old(connected) then bits == old(bits) else fresh(bits) && View() == TakenOver(Saved(store.row), params)
    {
      if connected { return; }
      connected := true;
      var row := store.row;
      bits := new byte[BytesFor(params)](_ => 0);
      if row.Some? && row.value.params == params {
        forall i | 0 <= i < bits.Length { bits[i] := row.value.bits[i]; }
        assert bits[..] == row.value.bits;
      } else {
        NoBitsSet(bits[..]);
      }
    }

    method HasSeen(id: string) returns (r: bool)
      requires Valid()
      ensures r <==> View().Sees(hash, id)
    {
      var h1, h2 := hash.Murmur(id, 0), hash.H2(id);
      var i := 0;
      while i < params.k
        invariant i <= params.k
        invariant params.FirstProbes(hash, id, i) <= SetBits(bits[..])
      {
        var idx := (h1 + i * h2) % TWO_TO_32;
        var bit := idx % params.m;
        TestBit(bits[bit / 8] as nat, bit % 8);
        if And(bits[bit / 8] as nat, Shl(1, bit % 8)) == 0 {
          AmongTheProbes(params, hash, id, i, params.k);
          return false;
        }
        i := i + 1;
      }
      return true;
    }

    method MarkSeen(id: string)
      requires Valid()
      modifies bits
      ensures Valid() && View() == old(View()).Marked(hash, id)
    {
      ghost var before := View();
      var h1, h2 := hash.Murmur(id, 0), hash.H2(id);
      var i := 0;
      while i < params.k
        invariant i <= params.k && Valid()
        invariant SetBits(bits[..]) == before.hits + params.FirstProbes(hash, id, i)
      {
        var idx := (h1 + i * h2) % TWO_TO_32;
        var bit := idx % params.m;
        OrIn(bits, bit);
        i := i + 1;
      }
    }

    method Flush(store: BloomStore)
      requires Valid()
      modifies store
      ensures store.Valid() && Saved(store.row) == Some(View())
    {
      store.row := Some(BloomRow(bits[..], params));
    }
  }

  /** `bits[bit >>> 3] |= 1 << (bit & 7)`. */
  method OrIn(bits: array<byte>, bit: nat)
    requires bit < 8 * bits.Length
    modifies bits
    ensures SetBits(bits[..]) == old(SetBits(bits[..])) + {bit}
  {
    var mask := Shl(1, bit % 8);
    ByteOr(bits[bit / 8], bit % 8);
    ghost var before := bits[..];
    bits[bit / 8] := Or(bits[bit / 8] as nat, mask) as byte;
    SetOneBit(before, bit, bits[..]);
  }

  lemma ByteOr(b: byte, i: nat)
    requires i < 8
    ensures Or(b as nat, Shl(1, i)) < 256
    ensures forall j: nat :: ByteBit(Or(b as nat, Shl(1, i)) as byte, j) <==> ByteBit(b, j) || j == i
  {
    assert Shl(1, 8) == 256;
    ShlGrows(i, 8);
    OrBelow(b as nat, Shl(1, i), 8);
    forall j: nat ensures ByteBit(Or(b as nat, Shl(1, i)) as byte, j) <==> ByteBit(b, j) || j == i {
      BitOr(b as nat, Shl(1, i), j);
      BitOne(i, j);
    }
  }

  lemma {:induction false} ShlGrows(i: nat, k: nat)
    requires i < k
    ensures Shl(1, i) < Shl(1, k)
  {
    if i > 0 { ShlGrows(i - 1, k - 1); }
  }

  lemma SetOneBit(before: seq<byte>, bit: nat, after: seq<byte>)
    requires bit < 8 * |before| && |after| == |before|
    requires forall i | 0 <= i < |before| && i != bit / 8 :: after[i] == before[i]
    requires forall j: nat :: ByteBit(after[bit / 8], j) <==> ByteBit(before[bit / 8], j) || j == bit % 8
    ensures SetBits(after) == SetBits(before) + {bit}
  {
    forall x: nat ensures x in SetBits(after) <==> x in SetBits(before) || x == bit {
      if x / 8 == bit / 8 && x % 8 == bit % 8 { assert x == bit; }
    }
  }

  lemma NoBitsSet(bits: seq<byte>)
    requires forall i | 0 <= i < |bits| :: bits[i] == 0
    ensures SetBits(bits) == {}
  {
    forall x: nat ensures x !in SetBits(bits) {
      ZeroHasNoBits(x % 8);
    }
  }

  lemma {:induction false} AmongTheProbes(p: Params, hash: Hash, id: string, i: nat, n: nat)
    requires i < n
    ensures p.Probe(hash, id, i) in p.FirstProbes(hash, id, n)
    decreases n
  {
    if i < n - 1 { AmongTheProbes(p, hash, id, i, n - 1); }
  }
}
