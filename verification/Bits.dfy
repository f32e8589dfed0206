/** Exclusive or of octets, bit by bit, and its laws. */
module Bits {
  import opened Octets

  function Pow2(n: nat): (p: nat)
    ensures p > 0
  {
    if n == 0 then 1 else 2 * Pow2(n - 1)
  }

  /** Exclusive or of the `n` lowest bits. */
  function XorBits(a: nat, b: nat, n: nat): (r: nat)
    ensures r < Pow2(n)
  {
    if n == 0 then 0 else (if a % 2 != b % 2 then 1 else 0) + 2 * XorBits(a / 2, b / 2, n - 1)
  }

  function Xor(a: byte, b: byte): byte {
    assert Pow2(8) == 0x100;
    XorBits(a, b, 8)
  }

  lemma {:induction false} XorBitsCommute(a: nat, b: nat, n: nat)
    ensures XorBits(a, b, n) == XorBits(b, a, n)
  {
    if n > 0 {
      XorBitsCommute(a / 2, b / 2, n - 1);
    }
  }

  lemma {:induction false} XorBitsAssociate(a: nat, b: nat, c: nat, n: nat)
    ensures XorBits(XorBits(a, b, n), c, n) == XorBits(a, XorBits(b, c, n), n)
  {
    if n > 0 {
      XorBitsAssociate(a / 2, b / 2, c / 2, n - 1);
    }
  }

  lemma {:induction false} XorBitsSelf(a: nat, n: nat)
    ensures XorBits(a, a, n) == 0
  {
    if n > 0 {
      XorBitsSelf(a / 2, n - 1);
    }
  }

  lemma {:induction false} XorBitsZero(a: nat, n: nat)
    requires a < Pow2(n)
    ensures XorBits(a, 0, n) == a
  {
    if n > 0 {
      XorBitsZero(a / 2, n - 1);
    }
  }

  lemma XorCommutes(a: byte, b: byte)
    ensures Xor(a, b) == Xor(b, a)
  {
    XorBitsCommute(a, b, 8);
  }

  lemma XorAssociates(a: byte, b: byte, c: byte)
    ensures Xor(Xor(a, b), c) == Xor(a, Xor(b, c))
  {
    XorBitsAssociate(a, b, c, 8);
  }

  lemma XorZero(a: byte)
    ensures Xor(a, 0) == a
  {
    XorBitsZero(a, 8);
  }

  /** Applying the same mask twice undoes it. */
  lemma XorUndoes(a: byte, m: byte)
    ensures Xor(Xor(a, m), m) == a
  {
    XorAssociates(a, m, m);
    XorBitsSelf(m, 8);
    XorZero(a);
  }

  /** Only the zero mask leaves an octet as it is. */
  lemma XorFixes(a: byte, m: byte)
    ensures Xor(a, m) == a <==> m == 0
  {
    XorZero(a);
    if Xor(a, m) == a {
      XorCommutes(a, m);
      XorUndoes(m, a);
      XorBitsSelf(a, 8);
    }
  }
}
