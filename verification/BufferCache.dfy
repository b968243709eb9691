/**
 The buffer cache (bio.c): a fixed array of buffers, threaded on a circular
 doubly linked list in least-recently-used order.

 Buffer nbuf of the array is the list head bcache.head; a pointer is an index
 into the array.  A sequential view: locks are the business of LogProtocol.
 */
module BufferCache {
  import opened Common
  import opened LogFormat

  datatype Buf = Buf(valid: bool, dev: nat, blockno: nat, refcnt: nat, prev: nat, next: nat, data: Block)
  {
    predicate Caches(d: nat, b: nat) { dev == d && blockno == b }
    /** Everything but the list links. */
    function Payload(): (bool, nat, nat, nat, Block) { (valid, dev, blockno, refcnt, data) }
  }

  function At(ring: seq<nat>, head: nat, i: int): (k: nat)
    requires -1 <= i <= |ring|
  {
    if 0 <= i < |ring| then ring[i] else head
  }

  /** Both link directions run once round head, ring[0], ..., ring[|ring|-1]. */
  ghost predicate Linked(bufs: seq<Buf>, ring: seq<nat>, head: nat) {
    && head < |bufs|
    && (forall i :: 0 <= i < |ring| ==> ring[i] < head)
    && (forall i {:trigger bufs[ring[i]]} :: 0 <= i < |ring| ==> bufs[ring[i]].next == At(ring, head, i + 1))
    && (forall i {:trigger bufs[ring[i]]} :: 0 <= i < |ring| ==> bufs[ring[i]].prev == At(ring, head, i - 1))
    && bufs[head].next == At(ring, head, 0)
    && bufs[head].prev == At(ring, head, |ring| - 1)
  }

  ghost predicate Permutation(ring: seq<nat>, n: nat) {
    && (forall i :: 0 <= i < |ring| ==> ring[i] < n)
    && (forall i, j :: 0 <= i < j < |ring| ==> ring[i] != ring[j])
    && (forall k: nat :: k < n ==> k in ring)
  }

  /** At most one buffer per block, on every device but the unused device 0. */
  ghost predicate OnePerBlock(bufs: seq<Buf>, n: nat)
    requires n <= |bufs|
  {
    forall j, k ::
      (0 <= j < n && 0 <= k < n && bufs[j].dev != 0
       && bufs[j].dev == bufs[k].dev && bufs[j].blockno == bufs[k].blockno) ==> j == k
  }

  function MoveToFront(ring: seq<nat>, i: nat): (r: seq<nat>)
    requires i < |ring|
  {
    [ring[i]] + ring[..i] + ring[i + 1..]
  }

  lemma MoveToFrontSameElements(ring: seq<nat>, i: nat)
    requires i < |ring|
    ensures multiset(MoveToFront(ring, i)) == multiset(ring)
  {
    assert ring == ring[..i] + [ring[i]] + ring[i + 1..];
  }

  lemma MoveToFrontPermutes(ring: seq<nat>, i: nat, n: nat)
    requires i < |ring| && Permutation(ring, n)
    ensures Permutation(MoveToFront(ring, i), n)
  {
    var r := MoveToFront(ring, i);
    MoveToFrontSameElements(ring, i);
    forall k: nat | k < n ensures k in r {
      assert k in ring && k in multiset(ring);
    }
    forall j | 0 <= j < |r| ensures r[j] == ring[if j == 0 then i else if j <= i then j - 1 else j] {
    }
  }

  ghost predicate ValidCache(bufs: seq<Buf>, ring: seq<nat>, n: nat) {
    && |bufs| == n + 1
    && Linked(bufs, ring, n)
    && Permutation(ring, n)
    && OnePerBlock(bufs, n)
  }

  /** Rewriting one buffer, links apart, keeps the cache valid unless it duplicates a block. */
  lemma TouchKeepsValid(bufs: seq<Buf>, ring: seq<nat>, n: nat, k: nat, b: Buf)
    requires ValidCache(bufs, ring, n) && k < n
    requires b.next == bufs[k].next && b.prev == bufs[k].prev
    requires bufs[k].Caches(b.dev, b.blockno) || forall j :: 0 <= j < n ==> !bufs[j].Caches(b.dev, b.blockno)
    ensures ValidCache(bufs[k := b], ring, n)
  {
  }

  function Without(ring: seq<nat>, i: nat): (r: seq<nat>)
    requires i < |ring|
  {
    ring[..i] + ring[i + 1..]
  }

  /** The two unlinking writes of brelse(). */
  function Unlink(bufs: seq<Buf>, k: nat): (r: seq<Buf>)
    requires k < |bufs| && bufs[k].next < |bufs| && bufs[k].prev < |bufs|
    ensures |r| == |bufs|
  {
    var n, p := bufs[k].next, bufs[k].prev;
    var one := bufs[n := bufs[n].(prev := p)];
    one[p := one[p].(next := n)]
  }

  lemma UnlinkRemoves(bufs: seq<Buf>, ring: seq<nat>, n: nat, i: nat)
    requires |bufs| == n + 1 && Linked(bufs, ring, n) && Permutation(ring, n) && i < |ring|
    ensures bufs[ring[i]].next <= n && bufs[ring[i]].prev <= n
    ensures Linked(Unlink(bufs, ring[i]), Without(ring, i), n)
  {
    assert bufs[ring[i]].next == At(ring, n, i + 1);
    assert bufs[ring[i]].prev == At(ring, n, i - 1);
    forall j | 0 <= j < |ring| - 1 { UnlinkedAt(bufs, ring, n, i, j); }
  }

  lemma UnlinkedAt(bufs: seq<Buf>, ring: seq<nat>, n: nat, i: nat, j: nat)
    requires |bufs| == n + 1 && Linked(bufs, ring, n) && Permutation(ring, n) && i < |ring| && j < |ring| - 1
    requires bufs[ring[i]].next == At(ring, n, i + 1) <= n && bufs[ring[i]].prev == At(ring, n, i - 1) <= n
    ensures var r, e := Without(ring, i), Unlink(bufs, ring[i]);
            r[j] < n && e[r[j]].next == At(r, n, j + 1) && e[r[j]].prev == At(r, n, j - 1)
  {
    hide Permutation;
    var o := if j < i then j else j + 1;
    assert Without(ring, i)[j] == ring[o];
    assert bufs[ring[o]].next == At(ring, n, o + 1) && bufs[ring[o]].prev == At(ring, n, o - 1);
    PermutationDistinct(ring, n, i, o);
    if o > 0 { PermutationDistinct(ring, n, i, o - 1); PermutationDistinct(ring, n, o, o - 1); }
    if o + 1 < |ring| { PermutationDistinct(ring, n, i, o + 1); PermutationDistinct(ring, n, o, o + 1); }
    if i > 0 { PermutationDistinct(ring, n, o, i - 1); }
    if i + 1 < |ring| { PermutationDistinct(ring, n, o, i + 1); }
  }

  lemma PermutationDistinct(ring: seq<nat>, n: nat, i: nat, j: nat)
    requires Permutation(ring, n) && i < |ring| && j < |ring|
    ensures ring[i] == ring[j] ==> i == j
  {
  }

  /** The four writes that put buffer k right after the head. */
  function PushedFront(bufs: seq<Buf>, k: nat, head: nat): (r: seq<Buf>)
    requires k < |bufs| && head < |bufs| && bufs[head].next < |bufs|
    ensures |r| == |bufs|
    ensures forall j :: 0 <= j < |bufs| ==> r[j].Payload() == bufs[j].Payload()
  {
    var f := bufs[head].next;
    var one := bufs[k := bufs[k].(next := f, prev := head)];
    var two := one[f := one[f].(prev := k)];
    two[head := two[head].(next := k)]
  }

  lemma PushedFrontLinks(bufs: seq<Buf>, ring: seq<nat>, head: nat, k: nat)
    requires k < head && k !in ring && Linked(bufs, ring, head)
    requires forall i, j :: 0 <= i < j < |ring| ==> ring[i] != ring[j]
    ensures bufs[head].next <= head
    ensures Linked(PushedFront(bufs, k, head), [k] + ring, head)
  {
    var r, e := [k] + ring, PushedFront(bufs, k, head);
    forall i | 0 <= i < |r| ensures r[i] < head && e[r[i]].next == At(r, head, i + 1)
        && e[r[i]].prev == At(r, head, i - 1) {
      if i > 0 {
        assert r[i] == ring[i - 1];
        assert bufs[ring[i - 1]].next == At(ring, head, i) && bufs[ring[i - 1]].prev == At(ring, head, i - 2);
      }
    }
  }

  lemma PushPermutes(ring: seq<nat>, b: nat)
    requires Permutation(ring, b)
    ensures Permutation([b] + ring, b + 1) && b !in ring
  {
    forall k: nat | k < b + 1 ensures k in [b] + ring {
      if k < b { assert k in ring; } else { assert ([b] + ring)[0] == k; }
    }
  }

  lemma LinksAt(bufs: seq<Buf>, ring: seq<nat>, head: nat, i: int)
    requires Linked(bufs, ring, head) && -1 <= i <= |ring|
    ensures head < |bufs| && At(ring, head, i) <= head
    ensures i < |ring| ==> bufs[At(ring, head, i)].next == At(ring, head, i + 1)
    ensures 0 <= i ==> bufs[At(ring, head, i)].prev == At(ring, head, i - 1)
  {
  }

  lemma AllInUse(bufs: seq<Buf>, ring: seq<nat>, n: nat)
    requires |bufs| == n + 1 && Permutation(ring, n) && InUseBehind(bufs, ring, -1)
    ensures forall k :: 0 <= k < n ==> bufs[k].refcnt > 0
  {
    forall k: nat | k < n ensures bufs[k].refcnt > 0 {
      assert k in ring;
    }
  }

  lemma NoneCaches(bufs: seq<Buf>, ring: seq<nat>, n: nat, dev: nat, blockno: nat)
    requires |bufs| == n + 1 && Permutation(ring, n)
    requires forall j :: 0 <= j < |ring| ==> !bufs[ring[j]].Caches(dev, blockno)
    ensures forall k :: 0 <= k < n ==> !bufs[k].Caches(dev, blockno)
  {
    forall k: nat | k < n ensures !bufs[k].Caches(dev, blockno) {
      assert k in ring;
    }
  }

  lemma NoneBehind(bufs: seq<Buf>, ring: seq<nat>, n: nat)
    requires |bufs| == n + 1 && Permutation(ring, n)
    ensures forall j :: 0 <= j < |ring| ==> ring[j] < n
    ensures InUseBehind(bufs, ring, |ring| - 1)
  {
  }

  lemma InUseOneMore(bufs: seq<Buf>, ring: seq<nat>, i: nat)
    requires forall j :: 0 <= j < |ring| ==> ring[j] < |bufs|
    requires i < |ring| && InUseBehind(bufs, ring, i) && bufs[ring[i]].refcnt > 0
    ensures InUseBehind(bufs, ring, i - 1)
  {
  }

  lemma WithoutDistinct(ring: seq<nat>, n: nat, i: nat)
    requires Permutation(ring, n) && i < |ring|
    ensures ring[i] !in Without(ring, i)
    ensures forall j, m :: 0 <= j < m < |ring| - 1 ==> Without(ring, i)[j] != Without(ring, i)[m]
    ensures [ring[i]] + Without(ring, i) == MoveToFront(ring, i)
  {
  }

  /** No referenced buffer is skipped: buffers behind position i are all in use. */
  ghost predicate InUseBehind(bufs: seq<Buf>, ring: seq<nat>, i: int)
    requires forall j :: 0 <= j < |ring| ==> ring[j] < |bufs|
  {
    forall j :: 0 <= j < |ring| && i < j ==> bufs[ring[j]].refcnt > 0
  }

  lemma SamePayloadsOnePerBlock(bufs: seq<Buf>, now: seq<Buf>, n: nat)
    requires |bufs| == |now| == n + 1 && OnePerBlock(bufs, n)
    requires forall j :: 0 <= j < n ==> now[j].Payload() == bufs[j].Payload()
    ensures OnePerBlock(now, n)
  {
  }

  /** What a block holds once the modified buffers listed in dirty are written home. */
  function Logical(dirty: map<nat, Block>, disk: Disk, b: nat): Block
    requires b < |disk|
  {
    if b in dirty then dirty[b] else disk[b]
  }

  /**
   Valid buffers agree with the disk, except that the blocks in dirty are held,
   with that newer content, by referenced (pinned) buffers.
   */
  ghost predicate Coherent(bufs: seq<Buf>, n: nat, disk: Disk, dev: nat, dirty: map<nat, Block>)
    requires n <= |bufs|
  {
    && dev != 0
    && (forall k :: 0 <= k < n && bufs[k].valid && bufs[k].dev == dev ==>
                      && bufs[k].blockno < |disk|
                      && bufs[k].data == Logical(dirty, disk, bufs[k].blockno))
    && (forall b :: b in dirty ==> b < |disk| && Holds(bufs, n, dev, b))
  }

  ghost predicate Holds(bufs: seq<Buf>, n: nat, dev: nat, b: nat)
    requires n <= |bufs|
  {
    exists k :: 0 <= k < n && bufs[k].Caches(dev, b) && bufs[k].valid && bufs[k].refcnt > 0
  }

  /**
   bread() returned buffer k: a hit gained a reference and kept its contents if
   they were valid; otherwise an unreferenced buffer now holds the disk's.
   */
  ghost predicate Got(was: seq<Buf>, now: seq<Buf>, n: nat, onDisk: Block, dev: nat, b: nat, k: nat)
    requires |was| == |now| == n + 1 && k < n
  {
    && now[k].Caches(dev, b) && now[k].valid
    && now[k].data == (if was[k].Caches(dev, b) && was[k].valid then was[k].data else onDisk)
    && now[k].refcnt == (if was[k].Caches(dev, b) then was[k].refcnt + 1 else 1)
    && (!was[k].Caches(dev, b) ==>
          was[k].refcnt == 0 && forall j :: 0 <= j < n ==> !was[j].Caches(dev, b))
    && (forall j :: 0 <= j <= n && j != k ==> now[j] == was[j])
  }

  /** Reading a block keeps the cache coherent and yields the block's logical content. */
  lemma GotIsCoherent(was: seq<Buf>, now: seq<Buf>, n: nat, disk: Disk, dev: nat,
                      dirty: map<nat, Block>, b: nat, k: nat)
    requires |was| == |now| == n + 1 && k < n && b < |disk|
    requires OnePerBlock(was, n) && Coherent(was, n, disk, dev, dirty)
    requires Got(was, now, n, disk[b], dev, b, k)
    ensures Coherent(now, n, disk, dev, dirty)
    ensures now[k].data == Logical(dirty, disk, b)
    ensures b in dirty ==> now[k].refcnt >= 2
  {
    forall c | c in dirty ensures Holds(now, n, dev, c) {
      assert Holds(was, n, dev, c);
      var j :| 0 <= j < n && was[j].Caches(dev, c) && was[j].valid && was[j].refcnt > 0;
      assert now[j].Caches(dev, c) && now[j].valid && now[j].refcnt > 0;
    }
    if b in dirty {
      assert Holds(was, n, dev, b);
      var j :| 0 <= j < n && was[j].Caches(dev, b) && was[j].valid && was[j].refcnt > 0;
      assert j == k;
    }
  }

  ghost predicate SameOthers(was: seq<Buf>, now: seq<Buf>, n: nat, k: nat)
    requires |was| == |now| == n + 1
  {
    forall j :: 0 <= j < n && j != k ==> now[j].Payload() == was[j].Payload()
  }

  /** Dropping a reference keeps the cache coherent, unless it was a dirty block's pin. */
  lemma DropIsCoherent(was: seq<Buf>, now: seq<Buf>, n: nat, disk: Disk, dev: nat,
                       dirty: map<nat, Block>, k: nat)
    requires |was| == |now| == n + 1 && k < n && was[k].refcnt > 0
    requires OnePerBlock(was, n) && Coherent(was, n, disk, dev, dirty)
    requires now[k].Payload() == was[k].(refcnt := was[k].refcnt - 1).Payload()
    requires SameOthers(was, now, n, k)
    requires was[k].dev == dev && was[k].blockno in dirty ==> was[k].refcnt >= 2
    ensures Coherent(now, n, disk, dev, dirty)
  {
    forall c | c in dirty ensures Holds(now, n, dev, c) {
      assert Holds(was, n, dev, c);
      var j :| 0 <= j < n && was[j].Caches(dev, c) && was[j].valid && was[j].refcnt > 0;
      assert now[j].Caches(dev, c) && now[j].valid && now[j].refcnt > 0;
    }
  }

  ghost predicate Free(bufs: seq<Buf>, n: nat) { exists k :: 0 <= k < n && k < |bufs| && bufs[k].refcnt == 0 }

  ghost predicate TwoFree(bufs: seq<Buf>, n: nat) {
    exists j, k :: 0 <= j < k < n && k < |bufs| && bufs[j].refcnt == 0 && bufs[k].refcnt == 0
  }

  class BCache {
    const nbuf: nat
    var buf: array<Buf>
    var disk: Disk
    /** Buffers from most to least recently released. */
    ghost var ring: seq<nat>
    /** Every content the disk has had, one entry a bwrite. */
    ghost var trace: seq<Disk>

    ghost predicate Valid()
      reads this, buf
    {
      ValidCache(buf[..], ring, nbuf)
    }

    /** binit(): every buffer starts as block 0 of device 0. */
    constructor (nbuf: nat, disk: Disk)
      ensures Valid() && fresh(buf) && this.nbuf == nbuf
      ensures this.disk == disk && trace == [disk]
      ensures forall k :: 0 <= k < nbuf ==> buf[k].Payload() == (false, 0, 0, 0, [])
    {
      this.nbuf := nbuf;
      this.disk := disk;
      this.trace := [disk];
      this.ring := [];
      var a := new Buf[nbuf + 1](_ => Buf(false, 0, 0, 0, nbuf, nbuf, []));
      this.buf := a;
      new;
      var b := 0;
      while b < nbuf
        invariant b <= nbuf && buf.Length == nbuf + 1 && fresh(buf)
        invariant Linked(buf[..], ring, nbuf) && Permutation(ring, b)
        invariant this.disk == disk && trace == [disk]
        invariant forall k :: 0 <= k <= nbuf ==> buf[k].Payload() == (false, 0, 0, 0, [])
      {
        PushPermutes(ring, b);
        PushFront(b, ring);
        ring := [b] + ring;
        b := b + 1;
      }
    }

    /** Unreferenced buffers from which bget() can recycle one. */
    ghost predicate HasFree()
      reads this, buf
    {
      Free(buf[..], nbuf)
    }

    ghost predicate HasTwoFree()
      reads this, buf
    {
      TwoFree(buf[..], nbuf)
    }

    /** Every buffer released less recently than k is referenced. */
    ghost predicate LeastRecent(k: nat)
      reads this, buf
      requires Valid()
    {
      exists i :: 0 <= i < |ring| && ring[i] == k && InUseBehind(buf[..], ring, i)
    }

    /**
     bget(): a hit takes a reference; a miss recycles the least recently
     released unreferenced buffer; None is the panic "bget: no buffers".
     */
    method Bget(dev: nat, blockno: nat) returns (r: Option<nat>)
      requires Valid()
      modifies buf
      ensures Valid()
      ensures r.Some? ==> r.value < nbuf && buf[r.value].Caches(dev, blockno)
      ensures r.Some? ==> forall j :: 0 <= j <= nbuf && j != r.value ==> buf[j] == old(buf[j])
      ensures r.Some? && old(buf[r.value].Caches(dev, blockno)) ==>
                buf[r.value] == old(buf[r.value].(refcnt := buf[r.value].refcnt + 1))
      ensures r.Some? && !old(buf[r.value].Caches(dev, blockno)) ==>
                && (forall k :: 0 <= k < nbuf ==> !old(buf[k].Caches(dev, blockno)))
                && old(buf[r.value].refcnt) == 0
                && !buf[r.value].valid && buf[r.value].refcnt == 1
                && old(LeastRecent(r.value))
      ensures r.None? ==> buf[..] == old(buf[..])
      ensures r.None? <==> old(!HasFree() && forall k :: 0 <= k < nbuf ==> !buf[k].Caches(dev, blockno))
    {
      hide Linked, Permutation, OnePerBlock;
      r := Hit(dev, blockno);
      if r.Some? {
        var b := r.value;
        TouchKeepsValid(buf[..], ring, nbuf, b, buf[b].(refcnt := buf[b].refcnt + 1));
        ghost var was := buf[..];
        buf[b] := buf[b].(refcnt := buf[b].refcnt + 1);
        assert buf[..] == was[b := was[b].(refcnt := was[b].refcnt + 1)];
        return;
      }
      r := Oldest();
      if r.Some? {
        var b := r.value;
        ghost var was := buf[..];
        ghost var now := was[b].(dev := dev, blockno := blockno, valid := false, refcnt := 1);
        TouchKeepsValid(was, ring, nbuf, b, now);
        buf[b] := buf[b].(dev := dev, blockno := blockno, valid := false, refcnt := 1);
        assert buf[..] == was[b := now];
      }
    }

    /** First loop of bget(): is the block already cached? */
    method Hit(dev: nat, blockno: nat) returns (r: Option<nat>)
      requires Valid()
      ensures r.Some? ==> r.value < nbuf && buf[r.value].Caches(dev, blockno)
      ensures r.None? ==> forall k :: 0 <= k < nbuf ==> !buf[k].Caches(dev, blockno)
    {
      hide Linked, Permutation, OnePerBlock;
      ghost var bufs := buf[..];
      ghost var i := 0;
      NoneBehind(bufs, ring, nbuf);
      LinksAt(bufs, ring, nbuf, -1);
      var b := buf[nbuf].next;
      while b != nbuf
        invariant 0 <= i <= |ring| && b == At(ring, nbuf, i) <= nbuf
        invariant forall j :: 0 <= j < i ==> !bufs[ring[j]].Caches(dev, blockno)
        decreases |ring| - i
      {
        LinksAt(bufs, ring, nbuf, i);
        assert b == ring[i];
        if buf[b].dev == dev && buf[b].blockno == blockno {
          return Some(b);
        }
        b := buf[b].next;
        i := i + 1;
        LinksAt(bufs, ring, nbuf, i);
      }
      NoneCaches(bufs, ring, nbuf, dev, blockno);
      return None;
    }

    /** Second loop of bget(): the unreferenced buffer nearest the tail of the list. */
    method Oldest() returns (r: Option<nat>)
      requires Valid()
      ensures r.Some? ==> r.value < nbuf && buf[r.value].refcnt == 0 && LeastRecent(r.value)
      ensures r.None? <==> !HasFree()
    {
      hide Linked, Permutation, OnePerBlock, InUseBehind;
      ghost var bufs := buf[..];
      ghost var i := |ring| - 1;
      LinksAt(bufs, ring, nbuf, |ring|);
      NoneBehind(bufs, ring, nbuf);
      var b := buf[nbuf].prev;
      while b != nbuf
        invariant -1 <= i < |ring| && b == At(ring, nbuf, i) <= nbuf
        invariant InUseBehind(bufs, ring, i)
        decreases i + 1
      {
        LinksAt(bufs, ring, nbuf, i);
        assert ring[i] == b;
        if buf[b].refcnt == 0 {
          return Some(b);
        }
        InUseOneMore(bufs, ring, i);
        b := buf[b].prev;
        i := i - 1;
        LinksAt(bufs, ring, nbuf, i);
      }
      AllInUse(bufs, ring, nbuf);
      return None;
    }

    /** bread(): a referenced buffer with the contents of the block. */
    method Bread(dev: nat, blockno: nat) returns (r: Option<nat>)
      requires Valid() && blockno < |disk|
      modifies buf
      ensures Valid()
      ensures r.Some? ==>
                r.value < nbuf && Got(old(buf[..]), buf[..], nbuf, disk[blockno], dev, blockno, r.value)
      ensures r.None? ==> buf[..] == old(buf[..])
      ensures r.None? <==> old(!HasFree() && forall k :: 0 <= k < nbuf ==> !buf[k].Caches(dev, blockno))
    {
      r := Bget(dev, blockno);
      if r.Some? && !buf[r.value].valid {
        var k := r.value;
        ghost var was := buf[..];
        TouchKeepsValid(was, ring, nbuf, k, was[k].(data := disk[blockno], valid := true));
        buf[k] := buf[k].(data := disk[blockno], valid := true);
        assert buf[..] == was[k := was[k].(data := disk[blockno], valid := true)];
      }
    }

    /** bwrite(): one atomic disk write. */
    method Bwrite(k: nat)
      requires Valid() && k < nbuf && buf[k].blockno < |disk|
      modifies this`disk, this`trace
      ensures Valid()
      ensures disk == old(disk)[buf[k].blockno := buf[k].data]
      ensures trace == old(trace) + [disk]
    {
      disk := disk[buf[k].blockno := buf[k].data];
      trace := trace + [disk];
    }

    /** A change of buffer contents by the holder of the buffer. */
    method SetData(k: nat, data: Block)
      requires Valid() && k < nbuf
      modifies buf
      ensures Valid() && buf[k] == old(buf[k]).(data := data)
      ensures forall j :: 0 <= j <= nbuf && j != k ==> buf[j] == old(buf[j])
    {
      buf[k] := buf[k].(data := data);
    }

    /** brelse(): drops a reference; the last one moves the buffer to the front. */
    method Brelse(k: nat)
      requires Valid() && k < nbuf && buf[k].refcnt > 0
      modifies this`ring, buf
      ensures Valid()
      ensures forall j :: 0 <= j < nbuf && j != k ==> buf[j].Payload() == old(buf[j].Payload())
      ensures buf[k].Payload() == old(buf[k].(refcnt := buf[k].refcnt - 1).Payload())
      ensures old(buf[k].refcnt) > 1 ==> ring == old(ring)
      ensures old(buf[k].refcnt) == 1 ==>
                exists i :: 0 <= i < |old(ring)| && old(ring)[i] == k && ring == MoveToFront(old(ring), i)
    {
      hide Linked, OnePerBlock;
      ghost var was := buf[..];
      TouchKeepsValid(was, ring, nbuf, k, was[k].(refcnt := was[k].refcnt - 1));
      buf[k] := buf[k].(refcnt := buf[k].refcnt - 1);
      assert buf[..] == was[k := was[k].(refcnt := was[k].refcnt - 1)];
      if buf[k].refcnt == 0 {
        assert k in ring;
        ghost var i :| 0 <= i < |ring| && ring[i] == k;
        MoveToFrontPermutes(ring, i, nbuf);
        Relink(k, i);
      }
    }

    /** The six pointer writes that move buffer k, at position i, to the front. */
    method Relink(k: nat, ghost i: nat)
      requires Valid() && i < |ring| && ring[i] == k
      requires Permutation(MoveToFront(ring, i), nbuf)
      modifies this`ring, buf
      ensures Valid() && ring == MoveToFront(old(ring), i)
      ensures forall j :: 0 <= j < nbuf ==> buf[j].Payload() == old(buf[j].Payload())
    {
      ghost var was := buf[..];
      UnlinkRemoves(was, ring, nbuf, i);
      WithoutDistinct(ring, nbuf, i);
      var n, p := buf[k].next, buf[k].prev;
      buf[n] := buf[n].(prev := p);
      buf[p] := buf[p].(next := n);
      assert buf[..] == Unlink(was, k);
      ghost var rest := Without(ring, i);
      PushFront(k, rest);
      ring := MoveToFront(ring, i);
      SamePayloadsOnePerBlock(was, buf[..], nbuf);
    }

    method PushFront(k: nat, ghost rest: seq<nat>)
      requires buf.Length == nbuf + 1 && k < nbuf && k !in rest
      requires Linked(buf[..], rest, nbuf)
      requires forall i, j :: 0 <= i < j < |rest| ==> rest[i] != rest[j]
      modifies buf
      ensures Linked(buf[..], [k] + rest, nbuf)
      ensures forall j :: 0 <= j <= nbuf ==> buf[j].Payload() == old(buf[j].Payload())
    {
      ghost var was := buf[..];
      PushedFrontLinks(was, rest, nbuf, k);
      buf[k] := buf[k].(next := buf[nbuf].next, prev := nbuf);
      var f := buf[nbuf].next;
      buf[f] := buf[f].(prev := k);
      buf[nbuf] := buf[nbuf].(next := k);
      assert buf[..] == PushedFront(was, k, nbuf);
      forall j | 0 <= j <= nbuf ensures buf[j].Payload() == was[j].Payload() {
        assert buf[j] == buf[..][j];
      }
    }

    /** bpin() */
    method Bpin(k: nat)
      requires Valid() && k < nbuf
      modifies buf
      ensures Valid() && buf[k] == old(buf[k].(refcnt := buf[k].refcnt + 1))
      ensures forall j :: 0 <= j <= nbuf && j != k ==> buf[j] == old(buf[j])
    {
      buf[k] := buf[k].(refcnt := buf[k].refcnt + 1);
    }

    /** bunpin() */
    method Bunpin(k: nat)
      requires Valid() && k < nbuf && buf[k].refcnt > 0
      modifies buf
      ensures Valid() && buf[k] == old(buf[k].(refcnt := buf[k].refcnt - 1))
      ensures forall j :: 0 <= j <= nbuf && j != k ==> buf[j] == old(buf[j])
    {
      buf[k] := buf[k].(refcnt := buf[k].refcnt - 1);
    }
  }
}
