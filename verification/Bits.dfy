/** The bits of a number, for bitmaps and flags. */
module Bits {
  /** 1 << k */
  function Mask(k: nat): (m: nat)
    ensures m > 0
  {
    if k == 0 then 1 else 2 * Mask(k - 1)
  }

  /** x & (1 << k) */
  predicate Bit(x: nat, k: nat) {
    if k == 0 then x % 2 == 1 else Bit(x / 2, k - 1)
  }

  /** x |= 1 << k for a bit that is clear, and x &= ~(1 << k) for one that is set. */
  function Flip(x: nat, k: nat): nat {
    if k == 0 then (if x % 2 == 1 then x - 1 else x + 1) else 2 * Flip(x / 2, k - 1) + x % 2
  }

  lemma {:induction false} FlipIsMask(x: nat, k: nat)
    ensures Flip(x, k) == if Bit(x, k) then x - Mask(k) else x + Mask(k)
  {
    if k > 0 { FlipIsMask(x / 2, k - 1); }
  }

  lemma {:induction false} FlipBits(x: nat, k: nat, j: nat)
    ensures Bit(Flip(x, k), j) <==> if j == k then !Bit(x, k) else Bit(x, j)
  {
    if j > 0 && k > 0 { FlipBits(x / 2, k - 1, j - 1); }
  }

  lemma {:induction false} FlipFits(x: nat, k: nat, n: nat)
    requires x < Mask(n) && k < n
    ensures Flip(x, k) < Mask(n)
  {
    var m := Mask(n - 1);
    if k > 0 {
      FlipFits(x / 2, k - 1, n - 1);
      assert Flip(x, k) == 2 * Flip(x / 2, k - 1) + x % 2;
    }
  }

  /** x | (1 << k) */
  function SetBit(x: nat, k: nat): nat { if Bit(x, k) then x else Flip(x, k) }

  lemma SetBits(x: nat, k: nat, j: nat)
    ensures Bit(SetBit(x, k), j) <==> j == k || Bit(x, j)
  {
    FlipBits(x, k, j);
  }

  lemma SetFits(x: nat, k: nat, n: nat)
    requires x < Mask(n) && k < n
    ensures SetBit(x, k) < Mask(n)
  {
    FlipFits(x, k, n);
  }
}
