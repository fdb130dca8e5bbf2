/** Bytes, optional values and results, and the big-endian integers of the wire formats. */
module Basics {

  newtype byte = x: int | 0 <= x < 256

  type bytes = seq<byte>

  datatype Option<+T> = None | Some(value: T)

  datatype Result<+T, +E> = Ok(value: T) | Err(error: E)

  function Max(a: int, b: int): int { if a >= b then a else b }

  function Min(a: int, b: int): int { if a <= b then a else b }

  function HexDigit(n: nat): (c: char)
    requires n < 16
    ensures c != '\0'
  {
    if n < 10 then '0' + n as char else 'a' + (n - 10) as char
  }

  function Zeros(n: nat): (z: bytes)
    ensures |z| == n
  {
    seq(n, _ => 0)
  }

  /** Two lower-case digits to a byte. */
  function Hex(b: bytes): string {
    if b == [] then [] else [HexDigit(b[0] as nat / 16), HexDigit(b[0] as nat % 16)] + Hex(b[1..])
  }

  /** The low `width` bytes of `n`, most significant first, as DataView.setBigUint64 writes them. */
  function BigEndian(n: nat, width: nat): (b: bytes)
    ensures |b| == width
  {
    if width == 0 then [] else BigEndian(n / 256, width - 1) + [(n % 256) as byte]
  }

  function FromBigEndian(b: bytes): nat {
    if b == [] then 0 else FromBigEndian(b[..|b| - 1]) * 256 + b[|b| - 1] as int
  }

  function Pow256(width: nat): (p: nat)
    ensures p >= 1
  {
    if width == 0 then 1 else 256 * Pow256(width - 1)
  }

  const TWO_TO_64: nat := 0x1_0000_0000_0000_0000

  /** A number written in `width` bytes is read back exactly when it fits in them. */
  lemma {:induction false} BigEndianRoundTrip(n: nat, width: nat)
    ensures FromBigEndian(BigEndian(n, width)) == n <==> n < Pow256(width)
    ensures FromBigEndian(BigEndian(n, width)) < Pow256(width)
  {
    if width > 0 {
      var b := BigEndian(n, width);
      assert b[..|b| - 1] == BigEndian(n / 256, width - 1);
      BigEndianRoundTrip(n / 256, width - 1);
    }
  }

  lemma CounterRoundTrip(n: nat)
    ensures FromBigEndian(BigEndian(n, 8)) == n <==> n < TWO_TO_64
  {
    BigEndianRoundTrip(n, 8);
    assert Pow256(8) == TWO_TO_64 by {
      assert Pow256(4) == 0x1_0000_0000;
      assert Pow256(6) == 0x1_0000_0000_0000;
    }
  }
}
