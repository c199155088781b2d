/**
 Prefix lengths and masks, for IPv4 words and IPv6 bytes: making a mask,
 applying it, and counting a mask's leading ones.
 */
module AclBits {
  import opened Masks

  /** The top n bits of a w-bit word, set. */
  function Hi(w: nat, n: nat): nat
    requires n <= w
    ensures Hi(w, n) < Pow2(w)
  {
    Pow2Order(w - n, w);
    Pow2(w) - Pow2(w - n)
  }

  /** Bitwise and. */
  function And(a: nat, b: nat): nat {
    if a == 0 || b == 0 then 0 else 2 * And(a / 2, b / 2) + (if a % 2 == 1 && b % 2 == 1 then 1 else 0)
  }

  /** Masking is idempotent, and only clears. */
  lemma {:induction false} AndTwice(a: nat, b: nat)
    ensures And(And(a, b), b) == And(a, b) <= a
  {
    if a != 0 && b != 0 {
      AndTwice(a / 2, b / 2);
    }
  }

  /** Leading ones of a w-bit word, by shifting it out. */
  function LeadingOnes(w: nat, m: nat): nat
    requires w > 0 && m < Pow2(w)
    decreases m
  {
    if m >= Pow2(w - 1) then 1 + LeadingOnes(w, 2 * m - Pow2(w)) else 0
  }

  lemma {:induction false} LeadingOnesOf(w: nat, n: nat)
    requires 0 < w && n <= w
    ensures LeadingOnes(w, Hi(w, n)) == n
  {
    if n == 0 {
      Pow2Order(w - 1, w);
    } else {
      Pow2Order(w - n, w - 1);
      assert 2 * Hi(w, n) - Pow2(w) == Hi(w, n - 1);
      LeadingOnesOf(w, n - 1);
    }
  }

  // ----- IPv6: sixteen bytes -----

  /** How many of byte i's bits a prefix of this length covers. */
  function Covered(len: nat, i: nat): nat
    ensures Covered(len, i) <= 8
  {
    if len >= 8 * i + 8 then 8 else if len <= 8 * i then 0 else len - 8 * i
  }

  function Mask6(len: nat): (m: seq<nat>)
    ensures |m| == 16 && forall i :: 0 <= i < 16 ==> m[i] == Hi(8, Covered(len, i))
  {
    seq(16, i requires 0 <= i < 16 => Hi(8, Covered(len, i)))
  }

  function And6(a: seq<nat>, m: seq<nat>): (r: seq<nat>)
    requires |a| == 16 && |m| == 16
    ensures |r| == 16 && forall i :: 0 <= i < 16 ==> r[i] == And(a[i], m[i])
  {
    seq(16, i requires 0 <= i < 16 => And(a[i], m[i]))
  }

  lemma And6Twice(a: seq<nat>, m: seq<nat>)
    requires |a| == 16 && |m| == 16
    ensures And6(And6(a, m), m) == And6(a, m)
    ensures Bytes(a) ==> Bytes(And6(a, m))
  {
    forall i | 0 <= i < 16 ensures And6(And6(a, m), m)[i] == And6(a, m)[i] <= a[i] {
      AndTwice(a[i], m[i]);
    }
  }

  predicate Bytes(m: seq<nat>) {
    forall i :: 0 <= i < |m| ==> m[i] < 256
  }

  lemma Pow2Byte()
    ensures Pow2(8) == 256 && Pow2(7) == 128
  {
  }

  /** Leading ones, byte by byte. */
  function Ones6(m: seq<nat>, n: nat): nat
    requires n <= |m| && Bytes(m)
  {
    Pow2Byte();
    if n == 0 then 0 else Ones6(m, n - 1) + LeadingOnes(8, m[n - 1])
  }

  lemma Mask6Bytes(len: nat)
    ensures Bytes(Mask6(len))
  {
    Pow2Byte();
  }

  lemma {:induction false} Ones6Of(len: nat, n: nat)
    requires n <= 16
    ensures Bytes(Mask6(len)) && Ones6(Mask6(len), n) == if len <= 8 * n then len else 8 * n
  {
    Mask6Bytes(len);
    if n > 0 {
      Ones6Of(len, n - 1);
      LeadingOnesOf(8, Covered(len, n - 1));
    }
  }
}
