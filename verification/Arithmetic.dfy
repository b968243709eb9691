/** Products, quotients and remainders, one at a time, for the file systems' arithmetic. */
module Arithmetic {
  lemma DivMod(q: nat, n: nat, r: nat)
    requires r < n
    ensures (q * n + r) / n == q && (q * n + r) % n == r
  {
    var x := q * n + r;
    assert x == x / n * n + x % n;
    Times(x / n + 1, q, n);
    Times(q + 1, x / n, n);
  }

  lemma Times(a: int, b: int, n: nat)
    ensures a <= b ==> a * n <= b * n
  {
  }

  /** The block of n bytes, and the place in it, of byte k of a file. */
  function Blk(n: nat, k: nat): nat requires n > 0 { k / n }

  function Ofs(n: nat, k: nat): (o: nat)
    requires n > 0
    ensures o < n
  {
    k % n
  }

  lemma SameBlock(n: nat, off: nat, k: nat)
    requires n > 0 && off <= k < off + (n - Ofs(n, off))
    ensures Blk(n, k) == Blk(n, off) && Ofs(n, k) == Ofs(n, off) + (k - off)
  {
    assert off == off / n * n + off % n;
    DivMod(off / n, n, off % n + (k - off));
  }

  /** Bytes outside the stretch from off to the end of its block, or to off + m, are in other places. */
  lemma OtherPlace(n: nat, off: nat, k: nat)
    requires n > 0 && Blk(n, k) == Blk(n, off)
    ensures k - off == Ofs(n, k) - Ofs(n, off)
  {
    assert off == off / n * n + off % n && k == k / n * n + k % n;
  }

  lemma BlkBelow(n: nat, k: nat, m: nat)
    requires n > 0 && k < m * n
    ensures Blk(n, k) < m
  {
    assert k == k / n * n + k % n;
    Times(m, k / n, n);
  }
}
