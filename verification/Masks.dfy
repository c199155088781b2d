/** Prefix lengths as 32-bit masks, for routes and for access rules. */
module Masks {

  const WORD: nat := 0x1_0000_0000

  function Pow2(n: nat): nat {
    if n == 0 then 1 else 2 * Pow2(n - 1)
  }

  /** The mask of a prefix length, in 32 bits. */
  function Mask(plen: nat): nat
    requires plen <= 32
  {
    if plen == 0 then 0 else (0xffff_ffff * Pow2(32 - plen)) % WORD
  }

  lemma {:induction false} Pow2Order(a: nat, b: nat)
    requires a <= b
    ensures 1 <= Pow2(a) <= Pow2(b) && (a < b ==> Pow2(a) < Pow2(b))
    decreases b
  {
    if a < b {
      Pow2Order(a, b - 1);
    } else if a > 0 {
      Pow2Order(a - 1, b - 1);
    }
  }

  lemma Pow2Word()
    ensures Pow2(32) == WORD
  {
    assert Pow2(8) == 256;
    assert Pow2(16) == 65536;
    assert Pow2(24) == 0x100_0000;
  }

  lemma MaskValue(plen: nat)
    requires plen <= 32
    ensures Mask(plen) == WORD - Pow2(32 - plen)
  {
    Pow2Word();
    if plen > 0 {
      Pow2Order(32 - plen, 32);
      ShiftedOnes(Pow2(32 - plen));
    }
  }

  lemma ShiftedOnes(p: nat)
    requires 1 <= p <= WORD
    ensures (0xffff_ffff * p) % WORD == WORD - p
  {
    assert 0xffff_ffff * p == WORD * (p - 1) + (WORD - p);
  }

  /** A mask tells its prefix length: two routes with one key are one prefix. */
  lemma MaskInjective(a: nat, b: nat)
    requires a <= 32 && b <= 32 && Mask(a) == Mask(b)
    ensures a == b
  {
    MaskValue(a);
    MaskValue(b);
    if a < b {
      Pow2Order(32 - b, 32 - a);
    } else if b < a {
      Pow2Order(32 - a, 32 - b);
    }
  }
}
