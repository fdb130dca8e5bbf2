/** Bitwise operators on unbounded naturals (JavaScript's non-negative BigInt). */
module Bits {

  /** Bit `i` of `n`. */
  predicate Bit(n: nat, i: nat) {
    if i == 0 then n % 2 == 1 else Bit(n / 2, i - 1)
  }

  function Or(a: nat, b: nat): nat
    decreases a + b
  {
    if a == 0 then b else if b == 0 then a
    else 2 * Or(a / 2, b / 2) + (if a % 2 == 1 || b % 2 == 1 then 1 else 0)
  }

  function And(a: nat, b: nat): nat {
    if a == 0 || b == 0 then 0
    else 2 * And(a / 2, b / 2) + (if a % 2 == 1 && b % 2 == 1 then 1 else 0)
  }

  /** `n << k`. */
  function Shl(n: nat, k: nat): (r: nat)
    ensures n > 0 ==> r > 0
  {
    if k == 0 then n else 2 * Shl(n, k - 1)
  }

  lemma {:induction false} ZeroHasNoBits(i: nat)
    ensures !Bit(0, i)
  {
    if i > 0 { ZeroHasNoBits(i - 1); }
  }

  lemma {:induction false} BitOr(a: nat, b: nat, i: nat)
    ensures Bit(Or(a, b), i) <==> Bit(a, i) || Bit(b, i)
  {
    if a == 0 || b == 0 {
      ZeroHasNoBits(i);
    } else if i > 0 {
      BitOr(a / 2, b / 2, i - 1);
    }
  }

  lemma {:induction false} BitAnd(a: nat, b: nat, i: nat)
    ensures Bit(And(a, b), i) <==> Bit(a, i) && Bit(b, i)
  {
    if a == 0 || b == 0 {
      ZeroHasNoBits(i);
    } else if i > 0 {
      BitAnd(a / 2, b / 2, i - 1);
    }
  }

  lemma {:induction false} BitShl(n: nat, k: nat, i: nat)
    ensures Bit(Shl(n, k), i) <==> i >= k && Bit(n, i - k)
  {
    if k > 0 && i > 0 {
      assert Shl(n, k) / 2 == Shl(n, k - 1);
      BitShl(n, k - 1, i - 1);
    }
  }

  lemma {:induction false} BitOne(k: nat, i: nat)
    ensures Bit(Shl(1, k), i) <==> i == k
  {
    BitShl(1, k, i);
    if i > k { ZeroHasNoBits(i - k - 1); }
  }

  /** The mask `(1 << k) - 1` selects exactly the bits below `k`. */
  lemma {:induction false} BitMask(k: nat, i: nat)
    ensures Bit(Shl(1, k) - 1, i) <==> i < k
  {
    if k == 0 {
      ZeroHasNoBits(i);
    } else if i > 0 {
      assert (Shl(1, k) - 1) / 2 == Shl(1, k - 1) - 1;
      BitMask(k - 1, i - 1);
    }
  }

  /** A number is below `1 << k` when it has no bit at or above `k`. */
  lemma {:induction false} NoHighBits(n: nat, k: nat)
    requires forall i: nat :: i >= k ==> !Bit(n, i)
    ensures n < Shl(1, k)
  {
    if k == 0 {
      if n > 0 { HasABit(n); }
    } else {
      forall i: nat | i >= k - 1 ensures !Bit(n / 2, i) { assert !Bit(n, i + 1); }
      NoHighBits(n / 2, k - 1);
    }
  }

  lemma {:induction false} HasABit(n: nat)
    requires n > 0
    ensures exists i: nat :: Bit(n, i)
  {
    if n % 2 == 1 {
      assert Bit(n, 0);
    } else {
      HasABit(n / 2);
      var i: nat :| Bit(n / 2, i);
      assert Bit(n, i + 1);
    }
  }

  /** Testing one bit with `(n & (1 << k)) === 0`. */
  lemma {:induction false} TestBit(n: nat, k: nat)
    ensures And(n, Shl(1, k)) == 0 <==> !Bit(n, k)
  {
    BitAnd(n, Shl(1, k), k);
    BitOne(k, k);
    ZeroHasNoBits(k);
    if And(n, Shl(1, k)) != 0 {
      HasABit(And(n, Shl(1, k)));
      var i: nat :| Bit(And(n, Shl(1, k)), i);
      BitAnd(n, Shl(1, k), i);
      BitOne(k, i);
    }
  }

  lemma {:induction false} OrBelow(a: nat, b: nat, k: nat)
    requires a < Shl(1, k) && b < Shl(1, k)
    ensures Or(a, b) < Shl(1, k)
  {
    if k > 0 { OrBelow(a / 2, b / 2, k - 1); }
  }
}
