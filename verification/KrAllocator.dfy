/**
 malloc() and free() (umalloc.c, after section 8.7 of The C Programming Language,
 2nd edition): free blocks on a circular list in address order, joined with their
 neighbours when they are freed.

 An address is a number of header-sized units; hdr[a] is the header at a, 0 is the
 null pointer and BASE the address of the static header, which is below the heap.
 */
module KrAllocator {
  import opened Common

  datatype Header = Header(ptr: nat, size: nat)

  const BASE: nat := 1

  /** sizeof(Header), in bytes */
  const UNIT: nat := 16

  // ---------- the list ----------

  /** The element after the ith, round the ring. */
  function After(ring: seq<nat>, i: nat): nat
    requires i < |ring|
  {
    if i + 1 < |ring| then ring[i + 1] else ring[0]
  }

  /** The ring from BASE on: links, one wrap, ascending addresses. */
  ghost predicate Linked(h: seq<Header>, ring: seq<nat>) {
    && 0 < |ring| && ring[0] == BASE
    && (forall i {:trigger ring[i]} :: 0 <= i < |ring| ==> BASE <= ring[i] < |h|)
    && (forall i, j {:trigger ring[i], ring[j]} :: 0 <= i < j < |ring| ==> ring[i] < ring[j])
    && (forall i {:trigger h[ring[i]]} :: 0 <= i < |ring| ==> h[ring[i]].ptr == After(ring, i))
  }

  predicate Apart(a: nat, m: nat, b: nat, n: nat) { a + m <= b || b + n <= a }

  /** Unit u belongs to a block. */
  ghost predicate InBlock(blocks: map<nat, nat>, u: nat) {
    exists a {:trigger blocks[a]} :: a in blocks && a <= u < a + blocks[a]
  }

  /** The blocks, with their sizes, are disjoint, and together are the units that sbrk() gave. */
  ghost predicate Partition(blocks: map<nat, nat>, brk: nat, given: set<nat>) {
    && (forall a {:trigger blocks[a]} :: a in blocks ==> BASE < a && 0 < blocks[a] && a + blocks[a] <= brk)
    && (forall a, b {:trigger blocks[a], blocks[b]} :: a in blocks && b in blocks && a != b ==>
        Apart(a, blocks[a], b, blocks[b]))
    && (forall u: nat :: u in given <==> InBlock(blocks, u))
  }

  /** A block is live or on the ring, and its header holds its size. */
  ghost predicate Sorted(h: seq<Header>, ring: seq<nat>, live: set<nat>, blocks: map<nat, nat>) {
    && BASE < |h| && h[BASE].size == 0
    && (forall a {:trigger a in blocks} {:trigger a in live} :: a in blocks <==> a in live || (a in ring && a != BASE))
    && (forall a {:trigger a in live} :: a in live ==> a !in ring && a < |h|)
    && (forall a {:trigger a in blocks} :: a in blocks ==> a < |h| && h[a].size == blocks[a])
  }

  /** No two free blocks are adjacent. */
  ghost predicate Gapped(h: seq<Header>, ring: seq<nat>) {
    forall i {:trigger ring[i]} :: 1 <= i && i + 1 < |ring| && ring[i] < |h| ==> ring[i] + h[ring[i]].size < ring[i + 1]
  }

  /**
   The allocator's state, seen as blocks: the ring of free ones, the live ones, all with sizes, and what sbrk() gave.
   */
  datatype View = View(ring: seq<nat>, live: set<nat>, blocks: map<nat, nat>, brk: nat, given: set<nat>)

  ghost predicate HeapOk(h: seq<Header>, v: View)
    ensures HeapOk(h, v) ==> Linked(h, v.ring) && forall a :: a in v.live ==> a in v.blocks && a < |h|
  {
    && Linked(h, v.ring) && Gapped(h, v.ring) && Sorted(h, v.ring, v.live, v.blocks)
        && Partition(v.blocks, v.brk, v.given)
    && BASE < v.brk <= |h|
  }

  // ---------- what can happen to blocks ----------

  function SetPtr(h: seq<Header>, a: nat, p: nat): (r: seq<Header>)
    requires a < |h|
    ensures |r| == |h|
  {
    h[a := h[a].(ptr := p)]
  }

  function SetSize(h: seq<Header>, a: nat, n: nat): (r: seq<Header>)
    requires a < |h|
    ensures |r| == |h|
  {
    h[a := h[a].(size := n)]
  }

  function Removed(ring: seq<nat>, k: nat): (r: seq<nat>)
    requires k < |ring|
    ensures |r| == |ring| - 1
  {
    ring[..k] + ring[k + 1..]
  }

  function Inserted(ring: seq<nat>, k: nat, bp: nat): (r: seq<nat>)
    requires k <= |ring|
    ensures |r| == |ring| + 1
  {
    ring[..k] + [bp] + ring[k..]
  }

  lemma RemovedLinked(h: seq<Header>, ring: seq<nat>, k: nat)
    requires Linked(h, ring) && 1 <= k < |ring|
    ensures Linked(SetPtr(h, ring[k - 1], After(ring, k)), Removed(ring, k))
  {
    var h', r := SetPtr(h, ring[k - 1], After(ring, k)), Removed(ring, k);
    forall i {:trigger r[i]} | 0 <= i < |r| ensures r[i] == ring[if i < k then i else i + 1] { }
    forall i | 0 <= i < |r| ensures h'[r[i]].ptr == After(r, i) {
      var j := if i < k then i else i + 1;
      assert h[ring[j]].ptr == After(ring, j) && (j != k - 1 ==> ring[j] != ring[k - 1]);
    }
  }

  /** A block at bp belongs after the tth of the ring. */
  ghost predicate Between(ring: seq<nat>, t: nat, bp: nat) {
    t < |ring| && ring[t] < bp && (t + 1 < |ring| ==> bp < ring[t + 1])
  }

  lemma InsertedAt(ring: seq<nat>, k: nat, bp: nat)
    requires k <= |ring|
    ensures forall i {:trigger Inserted(ring, k, bp)[i]} :: 0 <= i <= |ring| ==>
              Inserted(ring, k, bp)[i] == if i < k then ring[i] else if i == k then bp else ring[i - 1]
  {
  }

  lemma InsertedSorted(ring: seq<nat>, t: nat, bp: nat)
    requires Between(ring, t, bp) && forall i, j {:trigger ring[i], ring[j]} :: 0 <= i < j < |ring| ==>
        ring[i] < ring[j]
    ensures forall i, j {:trigger Inserted(ring, t + 1, bp)[i], Inserted(ring, t + 1, bp)[j]} ::
              0 <= i < j <= |ring| ==> Inserted(ring, t + 1, bp)[i] < Inserted(ring, t + 1, bp)[j]
  {
    hide Inserted;
    InsertedAt(ring, t + 1, bp);
    var r := Inserted(ring, t + 1, bp);
    forall i, j | 0 <= i < j <= |ring| ensures r[i] < r[j] {
      if i <= t { assert ring[i] <= ring[t]; }
      if j > t + 1 { assert ring[t + 1] <= ring[j - 1]; }
    }
  }

  lemma InsertedLinks(h: seq<Header>, ring: seq<nat>, t: nat, bp: nat, i: nat)
    requires Linked(h, ring) && Between(ring, t, bp) && bp < |h| && i <= |ring|
    ensures var h', r := SetPtr(SetPtr(h, bp, After(ring, t)), ring[t], bp), Inserted(ring, t + 1, bp);
            r[i] < |h| && h'[r[i]].ptr == After(r, i)
  {
    hide Inserted;
    InsertedAt(ring, t + 1, bp);
    if i != t + 1 {
      var j := if i <= t then i else i - 1;
      assert h[ring[j]].ptr == After(ring, j);
      if j < t { assert ring[j] < ring[t]; }
      if j > t { assert ring[t] < ring[j] && ring[t + 1] <= ring[j]; }
    }
  }

  lemma InsertedLinked(h: seq<Header>, ring: seq<nat>, t: nat, bp: nat)
    requires Linked(h, ring) && Between(ring, t, bp) && bp < |h|
    ensures Linked(SetPtr(SetPtr(h, bp, After(ring, t)), ring[t], bp), Inserted(ring, t + 1, bp))
  {
    hide Inserted, After;
    InsertedAt(ring, t + 1, bp);
    InsertedSorted(ring, t, bp);
    forall i {:trigger Inserted(ring, t + 1, bp)[i]} | 0 <= i <= |ring| ensures
      var h', r := SetPtr(SetPtr(h, bp, After(ring, t)), ring[t], bp), Inserted(ring, t + 1, bp);
      BASE <= r[i] < |h| && h'[r[i]].ptr == After(r, i)
    {
      InsertedLinks(h, ring, t, bp, i);
    }
  }

  /** The block that ends the ring's kth leaves it for the program. */
  lemma Take(h: seq<Header>, v: View, k: nat)
    requires HeapOk(h, v) && 1 <= k < |v.ring|
    ensures HeapOk(SetPtr(h, v.ring[k - 1], After(v.ring, k)),
        v.(ring := Removed(v.ring, k), live := v.live + {v.ring[k]}))
    ensures v.ring[k] !in v.live && v.ring[k] in v.blocks && h[v.ring[k]].size == v.blocks[v.ring[k]]
  {
    hide Partition, Linked, Removed;
    RemovedLinked(h, v.ring, k);
    RemovedMembers(h, v.ring, k);
    RemovedGapped(h, v.ring, k);
  }

  lemma RemovedAt(ring: seq<nat>, k: nat)
    requires k < |ring|
    ensures forall i {:trigger Removed(ring, k)[i]} :: 0 <= i < |ring| - 1 ==>
        Removed(ring, k)[i] == if i < k then ring[i] else ring[i + 1]
  {
  }

  lemma RemovedMembers(h: seq<Header>, ring: seq<nat>, k: nat)
    requires Linked(h, ring) && 1 <= k < |ring|
    ensures forall x :: x in Removed(ring, k) <==> x in ring && x != ring[k]
    ensures ring[k] != BASE && ring[k] in ring && ring[k - 1] in ring
  {
    hide Removed;
    RemovedAt(ring, k);
    var r := Removed(ring, k);
    forall x ensures x in r <==> x in ring && x != ring[k] {
      if x in ring && x != ring[k] {
        var i :| 0 <= i < |ring| && ring[i] == x;
        assert r[if i < k then i else i - 1] == x;
      }
      if x in r {
        var i :| 0 <= i < |r| && r[i] == x;
        assert x == ring[if i < k then i else i + 1];
      }
    }
  }

  lemma RemovedGapped(h: seq<Header>, ring: seq<nat>, k: nat)
    requires Linked(h, ring) && Gapped(h, ring) && 1 <= k < |ring|
    ensures Gapped(SetPtr(h, ring[k - 1], After(ring, k)), Removed(ring, k))
  {
    hide Removed, After;
    RemovedAt(ring, k);
    var r := Removed(ring, k);
    forall i {:trigger r[i]} | 1 <= i && i + 1 < |r| ensures r[i] + h[r[i]].size < r[i + 1] {
      if i < k - 1 { assert r[i] == ring[i] && r[i + 1] == ring[i + 1]; }
      else if i == k - 1 { assert r[i] == ring[i] && ring[i + 1] == ring[k] && r[i + 1] == ring[k + 1]
          && ring[k] < ring[k + 1]; }
      else { assert r[i] == ring[i + 1] && r[i + 1] == ring[i + 2]; }
    }
  }

  lemma InsertedMembers(ring: seq<nat>, k: nat, bp: nat)
    requires k <= |ring|
    ensures forall x :: x in Inserted(ring, k, bp) <==> x in ring || x == bp
  {
    hide Inserted;
    InsertedAt(ring, k, bp);
    var r := Inserted(ring, k, bp);
    forall x ensures x in r <==> x in ring || x == bp {
      if x in ring {
        var i :| 0 <= i < |ring| && ring[i] == x;
        assert r[if i < k then i else i + 1] == x;
      }
      if x == bp { assert r[k] == bp; }
      if x in r {
        var i :| 0 <= i < |r| && r[i] == x;
      }
    }
  }

  /** A live block between two free ones that it does not touch goes on the ring between them. */
  lemma Put(h: seq<Header>, v: View, t: nat, bp: nat)
    requires HeapOk(h, v) && bp in v.live && Between(v.ring, t, bp)
    requires v.ring[t] + h[v.ring[t]].size != bp && bp + h[bp].size != After(v.ring, t)
    ensures HeapOk(SetPtr(SetPtr(h, bp, After(v.ring, t)), v.ring[t], bp),
        v.(ring := Inserted(v.ring, t + 1, bp), live := v.live - {bp}))
  {
    hide Linked, Inserted, Gapped;
    LiveBlock(h, v, bp);
    InsertedLinked(h, v.ring, t, bp);
    InsertedMembers(v.ring, t + 1, bp);
    InsertedGapped(h, v, t, bp);
    RingBlock(h, v, t);
  }

  lemma LiveBlock(h: seq<Header>, v: View, a: nat)
    requires HeapOk(h, v) && a in v.live
    ensures BASE < a < |h| && a in v.blocks && h[a].size == v.blocks[a] > 0 && a + v.blocks[a] <= v.brk && a !in v.ring
  {
    hide Linked, Gapped;
    var n := v.blocks[a];
  }

  lemma RingBlock(h: seq<Header>, v: View, k: nat)
    requires HeapOk(h, v) && k < |v.ring|
    ensures v.ring[k] in v.ring && BASE <= v.ring[k] < |h| && (k == 0 <==> v.ring[k] == BASE) && v.ring[k] !in v.live
    ensures k > 0 ==>
              v.ring[k] in v.blocks && h[v.ring[k]].size == v.blocks[v.ring[k]] > 0
              && v.ring[k] + v.blocks[v.ring[k]] <= v.brk
    ensures k == 0 ==> h[v.ring[k]].size == 0
  {
    hide Gapped;
    if k > 0 {
      assert v.ring[0] < v.ring[k];
      var n := v.blocks[v.ring[k]];
    }
  }

  /** A live block neither overlaps a free one nor lies in it. */
  lemma FreeApart(h: seq<Header>, v: View, k: nat, a: nat)
    requires HeapOk(h, v) && k < |v.ring| && a in v.live
    ensures h[a].size > 0 && (if v.ring[k] < a then v.ring[k] + h[v.ring[k]].size <= a else a + h[a].size <= v.ring[k])
  {
    hide HeapOk;
    LiveBlock(h, v, a);
    RingBlock(h, v, k);
    if k > 0 { BlocksApart(h, v, v.ring[k], a); }
  }

  lemma BlocksApart(h: seq<Header>, v: View, a: nat, b: nat)
    requires HeapOk(h, v) && a in v.blocks && b in v.blocks && a != b
    ensures Apart(a, v.blocks[a], b, v.blocks[b])
  {
    hide Linked, Gapped, Sorted, InBlock;
  }

  lemma InsertedGapped(h: seq<Header>, v: View, t: nat, bp: nat)
    requires HeapOk(h, v) && bp in v.live && Between(v.ring, t, bp)
    requires v.ring[t] + h[v.ring[t]].size != bp && bp + h[bp].size != After(v.ring, t)
    ensures Gapped(SetPtr(SetPtr(h, bp, After(v.ring, t)), v.ring[t], bp), Inserted(v.ring, t + 1, bp))
  {
    hide HeapOk, Gapped, Linked, Inserted;
    FreeApart(h, v, t, bp);
    if t + 1 < |v.ring| { FreeApart(h, v, t + 1, bp); }
    HeapGapped(h, v);
    var h' := SetPtr(SetPtr(h, bp, After(v.ring, t)), v.ring[t], bp);
    assert forall a :: 0 <= a < |h| ==> h'[a].size == h[a].size;
    GappedWith(h, h', v.ring, t, bp);
  }

  lemma HeapGapped(h: seq<Header>, v: View)
    requires HeapOk(h, v)
    ensures Gapped(h, v.ring)
  {
    hide Gapped, Linked, Sorted, Partition;
  }

  lemma GappedWith(h: seq<Header>, h': seq<Header>, ring: seq<nat>, t: nat, bp: nat)
    requires Linked(h, ring) && Gapped(h, ring) && t < |ring| && bp < |h| && |h'| == |h|
    requires forall a :: 0 <= a < |h| ==> h'[a].size == h[a].size
    requires ring[t] < |h| && ring[t] + h[ring[t]].size < bp && (t + 1 < |ring| ==> bp + h[bp].size < ring[t + 1])
    ensures Gapped(h', Inserted(ring, t + 1, bp))
  {
    hide Inserted, After, Linked, Gapped;
    InsertedAt(ring, t + 1, bp);
    TthOfRing(h, ring, t);
    var r := Inserted(ring, t + 1, bp);
    GappedIs(h', r);
    forall i {:trigger r[i]} | 1 <= i && i + 1 < |r| && r[i] < |h| ensures r[i] + h'[r[i]].size < r[i + 1] {
      GapAt(h, h', ring, r, t, bp, i);
    }
  }

  lemma TthOfRing(h: seq<Header>, ring: seq<nat>, t: nat)
    requires Linked(h, ring) && t < |ring|
    ensures ring[t] < |h|
  {
  }

  lemma GappedIs(h: seq<Header>, ring: seq<nat>)
    ensures Gapped(h, ring) <==>
            forall i {:trigger ring[i]} :: 1 <= i && i + 1 < |ring| && ring[i] < |h| ==>
                ring[i] + h[ring[i]].size < ring[i + 1]
  {
  }

  lemma GapAt(h: seq<Header>, h': seq<Header>, ring: seq<nat>, r: seq<nat>, t: nat, bp: nat, i: nat)
    requires Gapped(h, ring) && t < |ring| && ring[t] < |h| && bp < |h| && |h'| == |h| && |r| == |ring| + 1
    requires forall a :: 0 <= a < |h| ==> h'[a].size == h[a].size
    requires forall j :: 0 <= j < |r| ==> r[j] == if j < t + 1 then ring[j] else if j == t + 1 then bp else ring[j - 1]
    requires ring[t] + h[ring[t]].size < bp && (t + 1 < |ring| ==> bp + h[bp].size < ring[t + 1])
    requires 1 <= i && i + 1 < |r| && r[i] < |h|
    ensures r[i] + h'[r[i]].size < r[i + 1]
  {
    if i < t {
      assert r[i] == ring[i] && r[i + 1] == ring[i + 1];
      assert ring[i] + h[ring[i]].size < ring[i + 1];
      assert h'[r[i]].size == h[ring[i]].size;
    } else if i > t + 1 {
      assert r[i] == ring[i - 1] && r[i + 1] == ring[i];
      assert ring[i - 1] + h[ring[i - 1]].size < ring[i];
      assert h'[r[i]].size == h[ring[i - 1]].size;
    } else if i == t {
      assert r[i] == ring[t] && r[i + 1] == bp && h'[r[i]].size == h[ring[t]].size;
    } else {
      assert r[i] == bp && r[i + 1] == ring[t + 1] && h'[r[i]].size == h[bp].size;
    }
  }

  /** A live block takes in the live block that follows it. */
  lemma JoinLive(h: seq<Header>, v: View, bp: nat, x: nat)
    requires HeapOk(h, v) && bp in v.live && x in v.live && x == bp + h[bp].size
    ensures HeapOk(SetSize(h, bp, h[bp].size + h[x].size),
                   v.(live := v.live - {x}, blocks := Joined(v.blocks, bp, x)))
  {
    hide Linked, Partition;
    LiveBlock(h, v, bp);
    LiveBlock(h, v, x);
    SizeOnly(h, v.ring, bp, h[bp].size + h[x].size);
    JoinedPartition(v.blocks, v.brk, v.given, bp, x);
  }

  /** The blocks after x, which begins where a ends, has become part of a. */
  function Joined(blocks: map<nat, nat>, a: nat, x: nat): map<nat, nat>
    requires a in blocks && x in blocks
  {
    (blocks - {x})[a := blocks[a] + blocks[x]]
  }

  lemma JoinedPartition(blocks: map<nat, nat>, brk: nat, given: set<nat>, a: nat, x: nat)
    requires Partition(blocks, brk, given) && a in blocks && x in blocks && x == a + blocks[a]
    ensures Partition(Joined(blocks, a, x), brk, given)
  {
    hide InBlock, Apart;
    assert x != a;
    JoinedCover(blocks, a, x);
    JoinedApart(blocks, a, x);
  }

  lemma JoinedCover(blocks: map<nat, nat>, a: nat, x: nat)
    requires a in blocks && x in blocks && x == a + blocks[a] && x != a
    ensures forall u: nat :: InBlock(Joined(blocks, a, x), u) <==> InBlock(blocks, u)
  {
    var now := Joined(blocks, a, x);
    forall u: nat ensures InBlock(now, u) <==> InBlock(blocks, u) {
      if InBlock(blocks, u) {
        var b :| b in blocks && b <= u < b + blocks[b];
        var c: nat := if b == x then a else b;
        assert c in now && c <= u < c + now[c];
      }
      if InBlock(now, u) {
        var b :| b in now && b <= u < b + now[b];
        var c: nat := if b == a && u >= x then x else b;
        assert c in blocks && c <= u < c + blocks[c];
      }
    }
  }

  lemma JoinedApart(blocks: map<nat, nat>, a: nat, x: nat)
    requires a in blocks && x in blocks && x == a + blocks[a]
        && (forall b {:trigger blocks[b]} :: b in blocks ==> 0 < blocks[b])
    requires forall a, b {:trigger blocks[a], blocks[b]} :: a in blocks && b in blocks && a != b ==>
        Apart(a, blocks[a], b, blocks[b])
    ensures var now := Joined(blocks, a, x);
            forall b, c {:trigger now[b], now[c]} :: b in now && c in now && b != c ==> Apart(b, now[b], c, now[c])
  {
    forall c | c in blocks && c != a && c != x ensures c + blocks[c] <= a || x + blocks[x] <= c {
      assert Apart(a, blocks[a], c, blocks[c]) && Apart(x, blocks[x], c, blocks[c]);
    }
  }

  lemma SizeOnly(h: seq<Header>, ring: seq<nat>, a: nat, n: nat)
    requires Linked(h, ring) && a < |h|
    ensures Linked(SetSize(h, a, n), ring)
  {
    forall i {:trigger h[ring[i]]} | 0 <= i < |ring| ensures SetSize(h, a, n)[ring[i]].ptr == After(ring, i) {
      assert h[ring[i]].ptr == After(ring, i);
    }
  }

  /** A free block takes in the live block that follows it, which does not reach the next free one. */
  lemma JoinFree(h: seq<Header>, v: View, t: nat, bp: nat)
    requires HeapOk(h, v) && bp in v.live && 1 <= t < |v.ring| && bp == v.ring[t] + h[v.ring[t]].size
    requires bp + h[bp].size != After(v.ring, t)
    ensures HeapOk(SetSize(h, v.ring[t], h[v.ring[t]].size + h[bp].size),
                   v.(live := v.live - {bp}, blocks := Joined(v.blocks, v.ring[t], bp)))
  {
    hide Linked, Partition, Gapped;
    LiveBlock(h, v, bp);
    RingBlock(h, v, t);
    var n := h[v.ring[t]].size + h[bp].size;
    SizeOnly(h, v.ring, v.ring[t], n);
    JoinedPartition(v.blocks, v.brk, v.given, v.ring[t], bp);
    if t + 1 < |v.ring| { NextApart(h, v, t, bp); }
    GappedGrown(h, v.ring, t, n);
  }

  lemma NextApart(h: seq<Header>, v: View, t: nat, bp: nat)
    requires HeapOk(h, v) && bp in v.live && t + 1 < |v.ring| && 1 <= t && bp == v.ring[t] + h[v.ring[t]].size
    ensures bp + h[bp].size <= v.ring[t + 1] == After(v.ring, t)
  {
    hide Partition, Sorted;
    FreeApart(h, v, t + 1, bp);
    assert v.ring[t] + h[v.ring[t]].size < v.ring[t + 1];
  }

  lemma GappedGrown(h: seq<Header>, ring: seq<nat>, t: nat, n: nat)
    requires Linked(h, ring) && Gapped(h, ring) && t < |ring| && (t + 1 < |ring| ==> ring[t] + n < ring[t + 1])
    ensures Gapped(SetSize(h, ring[t], n), ring)
  {
    forall i {:trigger ring[i]} | 1 <= i && i + 1 < |ring|
        ensures ring[i] + SetSize(h, ring[t], n)[ring[i]].size < ring[i + 1] {
      if i != t { assert ring[i] != ring[t]; }
    }
  }

  /** The tail of a free block becomes a live block of n units. */
  lemma Split(h: seq<Header>, v: View, k: nat, n: nat)
    requires HeapOk(h, v) && 1 <= k < |v.ring| && 0 < n < h[v.ring[k]].size
    ensures var p, q := v.ring[k], v.ring[k] + h[v.ring[k]].size - n;
            && q < |h| && q !in v.blocks
            && HeapOk(SetSize(SetSize(h, p, h[p].size - n), q, n),
                      v.(live := v.live + {q}, blocks := v.blocks[p := h[p].size - n][q := n]))
  {
    hide Linked, Partition, Gapped;
    RingBlock(h, v, k);
    var p, q := v.ring[k], v.ring[k] + h[v.ring[k]].size - n;
    SplitPartition(v.blocks, v.brk, v.given, p, n);
    SizeOnly(h, v.ring, p, h[p].size - n);
    SizeOnly(SetSize(h, p, h[p].size - n), v.ring, q, n);
    GappedShrunk(h, SetSize(SetSize(h, p, h[p].size - n), q, n), v.ring);
  }

  lemma GappedShrunk(h: seq<Header>, now: seq<Header>, ring: seq<nat>)
    requires Linked(h, ring) && Gapped(h, ring) && |now| == |h|
    requires forall a {:trigger now[a]} :: a in ring && 0 <= a < |h| ==> now[a].size <= h[a].size
    ensures Gapped(now, ring)
  {
    forall i {:trigger ring[i]} | 1 <= i && i + 1 < |ring| ensures ring[i] + now[ring[i]].size < ring[i + 1] {
    }
  }

  lemma SplitPartition(blocks: map<nat, nat>, brk: nat, given: set<nat>, p: nat, n: nat)
    requires Partition(blocks, brk, given) && p in blocks && 0 < n < blocks[p]
    ensures p + blocks[p] - n !in blocks && Partition(blocks[p := blocks[p] - n][p + blocks[p] - n := n], brk, given)
  {
    hide InBlock, Apart;
    SplitApart(blocks, p, n);
    SplitCover(blocks, p, n);
  }

  lemma SplitApart(blocks: map<nat, nat>, p: nat, n: nat)
    requires p in blocks && 0 < n < blocks[p] && forall a :: a in blocks ==> 0 < blocks[a]
    requires forall a, b {:trigger blocks[a], blocks[b]} :: a in blocks && b in blocks && a != b ==>
        Apart(a, blocks[a], b, blocks[b])
    ensures p + blocks[p] - n !in blocks
    ensures var now := blocks[p := blocks[p] - n][p + blocks[p] - n := n];
            forall a, b {:trigger now[a], now[b]} :: a in now && b in now && a != b ==> Apart(a, now[a], b, now[b])
  {
    var q: nat, now := p + blocks[p] - n, blocks[p := blocks[p] - n][p + blocks[p] - n := n];
    forall c | c in blocks && c != p ensures c + blocks[c] <= p || q + n <= c {
      assert Apart(p, blocks[p], c, blocks[c]);
    }
  }

  lemma SplitCover(blocks: map<nat, nat>, p: nat, n: nat)
    requires p in blocks && 0 < n < blocks[p] && p + blocks[p] - n !in blocks
    ensures forall u: nat :: InBlock(blocks[p := blocks[p] - n][p + blocks[p] - n := n], u) <==> InBlock(blocks, u)
  {
    var q: nat, now := p + blocks[p] - n, blocks[p := blocks[p] - n][p + blocks[p] - n := n];
    forall u: nat ensures InBlock(now, u) <==> InBlock(blocks, u) {
      if InBlock(blocks, u) {
        var b :| b in blocks && b <= u < b + blocks[b];
        var c: nat := if b == p && u >= q then q else b;
        assert c in now && c <= u < c + now[c];
      }
      if InBlock(now, u) {
        var b :| b in now && b <= u < b + now[b];
        var c: nat := if b == q then p else b;
        assert c in blocks && c <= u < c + blocks[c];
      }
    }
  }

  /** sbrk() gives nu units from bp on, which begin no lower than the break. */
  lemma Grant(h: seq<Header>, v: View, bp: nat, nu: nat)
    requires HeapOk(h, v) && v.brk <= bp && 0 < nu && bp + nu <= |h|
    ensures HeapOk(SetSize(h, bp, nu),
                   View(v.ring, v.live + {bp}, v.blocks[bp := nu], bp + nu, v.given + Units(bp, nu)))
    ensures bp !in v.blocks && v.given !! Units(bp, nu) && |v.given + Units(bp, nu)| == |v.given| + nu
  {
    hide Linked, Partition, Gapped, Units;
    GrantPartition(v.blocks, v.brk, v.given, bp, nu);
    GrantFresh(h, v, bp);
    SizeOnly(h, v.ring, bp, nu);
    GappedShrunk(h, SetSize(h, bp, nu), v.ring);
    UnitsMore(v.given, bp, nu);
  }

  lemma UnitsMore(given: set<nat>, a: nat, n: nat)
    requires given !! Units(a, n)
    ensures |given + Units(a, n)| == |given| + n
  {
    UnitsCount(a, n);
    assert given * Units(a, n) == {};
  }

  function Units(a: nat, n: nat): (r: set<nat>)
    ensures forall u: nat :: u in r <==> a <= u < a + n
  {
    if n == 0 then {} else Units(a, n - 1) + {a + n - 1}
  }

  lemma {:induction false} UnitsCount(a: nat, n: nat)
    ensures |Units(a, n)| == n
  {
    if n > 0 {
      UnitsCount(a, n - 1);
      assert Units(a, n) == Units(a, n - 1) + {a + n - 1};
    }
  }

  lemma GrantFresh(h: seq<Header>, v: View, bp: nat)
    requires HeapOk(h, v) && v.brk <= bp
    ensures bp !in v.ring && bp !in v.blocks
  {
    forall k | 0 <= k < |v.ring| ensures v.ring[k] < v.brk { RingBlock(h, v, k); }
    forall a | a in v.blocks ensures a < v.brk { var n := v.blocks[a]; }
  }

  lemma GrantPartition(blocks: map<nat, nat>, brk: nat, given: set<nat>, bp: nat, nu: nat)
    requires Partition(blocks, brk, given) && BASE < brk <= bp && 0 < nu
    ensures bp !in blocks && given !! Units(bp, nu)
    ensures Partition(blocks[bp := nu], bp + nu, given + Units(bp, nu))
  {
    hide Units;
    forall b | b in blocks ensures b < brk { var n := blocks[b]; }
    forall u: nat | InBlock(blocks, u) ensures u < brk { }
    GrantCover(blocks, bp, nu);
    assert forall b :: b in blocks ==> Apart(bp, nu, b, blocks[b]);
  }

  lemma GrantCover(blocks: map<nat, nat>, bp: nat, nu: nat)
    requires bp !in blocks
    ensures forall u: nat :: InBlock(blocks[bp := nu], u) <==> InBlock(blocks, u) || u in Units(bp, nu)
  {
    hide Units;
    var now := blocks[bp := nu];
    forall u: nat ensures InBlock(now, u) <==> InBlock(blocks, u) || u in Units(bp, nu) {
      if InBlock(blocks, u) {
        var b :| b in blocks && b <= u < b + blocks[b];
        assert b in now && now[b] == blocks[b];
      }
      if u in Units(bp, nu) { assert now[bp] == nu; }
      if InBlock(now, u) {
        var b :| b in now && b <= u < b + now[b];
        if b != bp { assert blocks[b] == now[b]; }
      }
    }
  }

  /** The link of a header that is not on the ring means nothing. */
  lemma LinkOfLive(h: seq<Header>, v: View, a: nat, p: nat)
    requires HeapOk(h, v) && a < |h| && a !in v.ring
    ensures HeapOk(SetPtr(h, a, p), v)
  {
    hide Partition, Linked, Gapped, Sorted;
    var now := SetPtr(h, a, p);
    assert Linked(now, v.ring) && Gapped(now, v.ring) by { LinkApart(h, v.ring, a, p); }
    assert Sorted(now, v.ring, v.live, v.blocks) by { LinkNoSize(h, v, a, p); }
  }

  lemma LinkApart(h: seq<Header>, ring: seq<nat>, a: nat, p: nat)
    requires Linked(h, ring) && Gapped(h, ring) && a < |h| && a !in ring
    ensures Linked(SetPtr(h, a, p), ring) && Gapped(SetPtr(h, a, p), ring)
  {
    forall i {:trigger ring[i]} | 0 <= i < |ring| ensures ring[i] < |h| && SetPtr(h, a, p)[ring[i]] == h[ring[i]] { }
  }

  lemma LinkNoSize(h: seq<Header>, v: View, a: nat, p: nat)
    requires Sorted(h, v.ring, v.live, v.blocks) && a < |h|
    ensures Sorted(SetPtr(h, a, p), v.ring, v.live, v.blocks)
  {
  }

  // ---------- free() ----------

  /** The headers after free() has found that bp belongs after p. */
  function FreedHeaders(h: seq<Header>, p: nat, bp: nat): (r: seq<Header>)
    requires p < |h| && bp < |h| && h[p].ptr < |h|
    ensures |r| == |h|
  {
    var x := h[p].ptr;
    var h1 := if bp + h[bp].size == x then h[bp := Header(h[x].ptr, h[bp].size + h[x].size)]
        else h[bp := Header(x, h[bp].size)];
    if p + h1[p].size == bp then h1[p := Header(h1[bp].ptr, h1[p].size + h1[bp].size)]
        else h1[p := Header(bp, h1[p].size)]
  }

  /** The free block after bp, which touches it, becomes part of it. */
  lemma FreedJoin(h: seq<Header>, v: View, t: nat, bp: nat) returns (h1: seq<Header>, v1: View)
    requires HeapOk(h, v) && bp in v.live && Between(v.ring, t, bp) && t + 1 < |v.ring|
        && bp + h[bp].size == v.ring[t + 1]
    ensures v.ring[t + 1] < |h| && h[v.ring[t + 1]].ptr == After(v.ring, t + 1)
    ensures v1 == v.(ring := Removed(v.ring, t + 1), blocks := v1.blocks) && HeapOk(h1, v1)
    ensures forall a :: a in v.live && a != bp ==> a in v1.blocks && a in v.blocks && v1.blocks[a] == v.blocks[a]
    ensures var p, x := v.ring[t], v.ring[t + 1];
            h1 == SetSize(SetPtr(SetPtr(h, bp, h[x].ptr), p, h[x].ptr), bp, h[bp].size + h[x].size)
  {
    hide Partition, Gapped, Sorted, Removed, After;
    LiveBlock(h, v, bp);
    RingBlock(h, v, t);
    RingBlock(h, v, t + 1);
    var p, x := v.ring[t], v.ring[t + 1];
    assert h[x].ptr == After(v.ring, t + 1);
    LinkOfLive(h, v, bp, h[x].ptr);
    var h0 := SetPtr(h, bp, h[x].ptr);
    Take(h0, v, t + 1);
    var v0 := v.(ring := Removed(v.ring, t + 1), live := v.live + {x});
    var h2 := SetPtr(h0, p, h[x].ptr);
    JoinLive(h2, v0, bp, x);
    h1 := SetSize(h2, bp, h[bp].size + h[x].size);
    v1 := v0.(live := v0.live - {x}, blocks := Joined(v.blocks, bp, x));
    assert v1.live == v.live;
  }

  lemma GapAfter(h: seq<Header>, v: View, k: nat)
    requires HeapOk(h, v) && 1 <= k < |v.ring|
    ensures v.ring[k] + h[v.ring[k]].size != After(v.ring, k)
  {
    hide Partition, Sorted;
    if k + 1 < |v.ring| { assert v.ring[k] + h[v.ring[k]].size < v.ring[k + 1]; } else { assert v.ring[0] < v.ring[k]; }
  }

  /** First the block after bp joins it, if it touches it. */
  lemma FreedNext(h: seq<Header>, v: View, t: nat, bp: nat) returns (h1: seq<Header>, v1: View)
    requires HeapOk(h, v) && bp in v.live && Between(v.ring, t, bp)
    ensures HeapOk(h1, v1) && bp in v1.live && Between(v1.ring, t, bp) && v1.ring[t] == v.ring[t]
    ensures bp + h1[bp].size != After(v1.ring, t)
    ensures v1.live == v.live && v1.brk == v.brk && v1.given == v.given
    ensures forall a :: a in v.live && a != bp ==> a in v1.blocks && a in v.blocks && v1.blocks[a] == v.blocks[a]
    ensures h[v.ring[t]].ptr == After(v.ring, t) < |h|
    ensures var p, x := v.ring[t], h[v.ring[t]].ptr;
            h1 == if bp + h[bp].size == x
                then SetSize(SetPtr(SetPtr(h, bp, h[x].ptr), p, h[x].ptr), bp, h[bp].size + h[x].size)
                  else SetPtr(h, bp, x)
  {
    hide HeapOk, Removed;
    LiveBlock(h, v, bp);
    RingBlock(h, v, t);
    LinkOfRing(h, v, t);
    var x := After(v.ring, t);
    if bp + h[bp].size == x {
      RingBlock(h, v, 0);
      RingBlock(h, v, t + 1);
      GapAfter(h, v, t + 1);
      h1, v1 := FreedJoin(h, v, t, bp);
      RemovedAt(v.ring, t + 1);
    } else {
      LinkOfLive(h, v, bp, x);
      h1, v1 := SetPtr(h, bp, x), v;
    }
  }

  lemma LinkOfRing(h: seq<Header>, v: View, t: nat)
    requires HeapOk(h, v) && t < |v.ring|
    ensures v.ring[t] < |h| && h[v.ring[t]].ptr == After(v.ring, t) < |h|
  {
    hide Partition, Gapped, Sorted;
  }

  lemma FreedOk(h: seq<Header>, v: View, t: nat, bp: nat) returns (v': View)
    requires HeapOk(h, v) && bp in v.live && Between(v.ring, t, bp)
    ensures h[v.ring[t]].ptr < |h| && HeapOk(FreedHeaders(h, v.ring[t], bp), v')
    ensures v'.live == v.live - {bp} && v'.brk == v.brk && v'.given == v.given && v.ring[t] in v'.ring
    ensures forall a :: a in v'.live ==> a in v'.blocks && a in v.blocks && v'.blocks[a] == v.blocks[a]
    ensures FreeHas(v', bp, h[bp].size)
  {
    hide HeapOk, After, Removed, Inserted;
    var h1, v1 := FreedNext(h, v, t, bp);
    var p := v.ring[t];
    RingBlock(h1, v1, t);
    LiveBlock(h1, v1, bp);
    LiveBlock(h, v, bp);
    RingBlock(h, v, t);
    LinkOfRing(h1, v1, t);
    if p + h1[p].size == bp {
      JoinFree(h1, v1, t, bp);
      v' := v1.(live := v1.live - {bp}, blocks := Joined(v1.blocks, p, bp));
      assert FreedHeaders(h, p, bp) == SetSize(h1, p, h1[p].size + h1[bp].size);
      assert p in v'.ring && v'.blocks[p] == h1[p].size + h1[bp].size;
    } else {
      Put(h1, v1, t, bp);
      v' := v1.(ring := Inserted(v1.ring, t + 1, bp), live := v1.live - {bp});
      InsertedAt(v1.ring, t + 1, bp);
      assert v'.ring[t] == p && v'.ring[t + 1] == bp;
      assert FreedHeaders(h, p, bp) == SetPtr(SetPtr(h1, bp, After(v1.ring, t)), p, bp);
      assert bp in v'.ring && v'.blocks[bp] == h1[bp].size;
    }
  }

  /** Some free block holds all of the units from bp on. */
  ghost predicate FreeHas(v: View, bp: nat, n: nat) {
    exists a {:trigger v.blocks[a]} :: a in v.ring && a in v.blocks && a <= bp && bp + n <= a + v.blocks[a]
  }

  /** The place of bp on the ring. */
  lemma {:induction false} Place(ring: seq<nat>, bp: nat) returns (t: nat)
    requires 0 < |ring| && ring[0] < bp
        && (forall i, j {:trigger ring[i], ring[j]} :: 0 <= i < j < |ring| ==> ring[i] < ring[j])
    requires bp !in ring
    ensures Between(ring, t, bp)
  {
    t := 0;
    while t + 1 < |ring| && ring[t + 1] < bp
      invariant t < |ring| && ring[t] < bp
    {
      t := t + 1;
    }
  }

  /**
   What free()'s two tests find at the ith of the ring: the first holds at bp's place, the second there at the wrap.
   */
  lemma Tests(h: seq<Header>, v: View, i: nat, t: nat, bp: nat)
    requires HeapOk(h, v) && i < |v.ring| && Between(v.ring, t, bp) && BASE < bp
    ensures v.ring[i] < |h|
    ensures var p := v.ring[i]; var x := h[p].ptr;
            (bp > p && bp < x) || (p >= x && (bp > p || bp < x)) <==> i == t
  {
    hide Partition, Gapped, Sorted;
    LinkOfRing(h, v, i);
    if i < t { assert v.ring[i] < v.ring[i + 1] && v.ring[i + 1] <= v.ring[t]; }
    if i > t { assert v.ring[t + 1] <= v.ring[i]; }
    if i + 1 < |v.ring| { assert v.ring[i] < v.ring[i + 1]; }
    assert v.ring[0] <= v.ring[i];
  }

  /** Every free block is found by walking round from any other. */
  function Ahead(n: nat, k: nat, f: nat): nat
    requires k < n && f < n
  {
    if k <= f then f - k else n - k + f
  }

  function Following(n: nat, k: nat): (r: nat)
    requires k < n
    ensures r < n
  {
    if k + 1 < n then k + 1 else 0
  }

  function Preceding(n: nat, k: nat): (r: nat)
    requires k < n
    ensures r < n
  {
    if k == 0 then n - 1 else k - 1
  }

  lemma AfterIs(ring: seq<nat>, k: nat)
    requires k < |ring|
    ensures After(ring, k) == ring[Following(|ring|, k)]
  {
  }

  lemma OneNearer(n: nat, k: nat, f: nat)
    requires k < n && f < n
    ensures k != f ==> Ahead(n, Following(n, k), f) < Ahead(n, k, f)
    ensures Preceding(n, Following(n, k)) == k
  {
  }

  /** From the kth of the ring on to the fth there is a block of n units. */
  ghost predicate RoomAhead(h: seq<Header>, ring: seq<nat>, k: nat, f: nat, n: nat)
    requires Linked(h, ring) && k < |ring| && f < |ring|
  {
    exists j {:trigger ring[j]} :: 0 <= j < |ring| && Ahead(|ring|, k, f) >= Ahead(|ring|, j, f) && h[ring[j]].size >= n
  }

  lemma RoomAfter(h: seq<Header>, ring: seq<nat>, k: nat, f: nat, n: nat)
    requires Linked(h, ring) && k < |ring| && f < |ring| && RoomAhead(h, ring, k, f, n) && h[ring[k]].size < n
    ensures k != f && RoomAhead(h, ring, Following(|ring|, k), f, n)
  {
    var j :| 0 <= j < |ring| && Ahead(|ring|, k, f) >= Ahead(|ring|, j, f) && h[ring[j]].size >= n;
    assert j != k;
  }

  lemma RoomSomewhere(h: seq<Header>, v: View, f: nat, bp: nat, n: nat)
    requires HeapOk(h, v) && f < |v.ring| && FreeHas(v, bp, n)
    ensures RoomAhead(h, v.ring, Following(|v.ring|, f), f, n)
  {
    hide Partition, Linked, Gapped;
    var a :| a in v.ring && a in v.blocks && a <= bp && bp + n <= a + v.blocks[a];
    var j :| 0 <= j < |v.ring| && v.ring[j] == a;
    assert h[v.ring[j]].size >= n;
  }

  /** Some free block has n units. */
  ghost predicate Fits(v: View, n: nat) {
    exists a {:trigger v.blocks[a]} :: a in v.ring && a in v.blocks && v.blocks[a] >= n
  }

  /** If some free block fits, the search, beginning after freep, has one ahead of it. */
  lemma FitsAhead(h: seq<Header>, v: View, f: nat, n: nat)
    requires HeapOk(h, v) && f < |v.ring| && Fits(v, n)
    ensures RoomAhead(h, v.ring, Following(|v.ring|, f), f, n)
  {
    hide Partition, Linked, Gapped;
    var a :| a in v.ring && a in v.blocks && v.blocks[a] >= n;
    var j :| 0 <= j < |v.ring| && v.ring[j] == a;
    assert h[v.ring[j]].size >= n;
  }

  lemma HereFits(h: seq<Header>, v: View, k: nat, n: nat)
    requires HeapOk(h, v) && k < |v.ring| && n >= 1 && v.ring[k] < |h| && h[v.ring[k]].size >= n
    ensures Fits(v, n)
  {
    hide Partition, Linked, Gapped;
    assert v.ring[k] in v.blocks;
  }

  lemma OnlyBaseFits(was: View, now: View, n: nat)
    requires was.ring == [] && was.blocks == map[] && now == was.(ring := [BASE])
    ensures !Fits(was, n) && !Fits(now, n)
  {
  }

  /** The value that a 32-bit int holds after it is given x. */
  function Int32(x: int): int { (x + 0x8000_0000) % 0x1_0000_0000 - 0x8000_0000 }

  /** sbrk(nu * sizeof(Header)) asks for what it means to, exactly below 2^31 bytes. */
  lemma SbrkAsksExactly(nu: nat)
    requires nu <= 0x1000_0001
    ensures Int32(nu * UNIT) == nu * UNIT <==> nu < 0x800_0000
  {
  }

  /** At a multiple of 2^28 units it asks for nothing at all, and morecore() believes it got 4 GB or more. */
  lemma SbrkAsksForNothing(nu: nat)
    ensures Int32(nu * UNIT) == 0 <==> nu % 0x1000_0000 == 0
  {
    assert nu * UNIT == nu / 0x1000_0000 * 0x1_0000_0000 + nu % 0x1000_0000 * UNIT;
  }

  /** The units of a request: (nbytes + sizeof(Header) - 1) / sizeof(Header) + 1. */
  function UnitsFor(nbytes: nat): (n: nat)
    ensures n >= 1 && (n - 1) * UNIT >= nbytes && (n - 1) * UNIT < nbytes + UNIT
  {
    (nbytes + UNIT - 1) / UNIT + 1
  }

  /** The units that morecore() goes to sbrk() for. */
  function Asked(nu: nat): nat { if nu < 4096 then 4096 else nu }

  lemma AskedTooLittle(nbytes: nat)
    requires nbytes < 0x1_0000_0000
    ensures var m := Asked(UnitsFor(nbytes)); Int32(m * UNIT) == m * UNIT <==> UnitsFor(nbytes) < 0x800_0000
  {
  }

  /**
   What sbrk() is to answer if it is asked: None is -1, Some(gap) is memory gap units above the heap's last break,
   which others may have moved, and that too is -1 if what is asked for ends above the limit.
   */
  type Answer = Option<nat>

  predicate Refused(sbrk: Answer, brk: nat, limit: nat, n: nat) {
    sbrk.None? || (n < 0x800_0000 && brk + sbrk.value + Asked(n) > limit)
  }

  /** Overrun: sbrk() was asked for less than morecore() goes on to hand out. */
  datatype MallocResult = Got(ap: nat) | NoMemory | Overrun

  /** The live blocks are still there, with their sizes, and what sbrk() gave has not been given back. */
  ghost predicate Kept(was: View, now: View) {
    && was.given <= now.given
    && forall a {:trigger a in was.live} :: a in was.live ==>
         a in now.live && a in now.blocks && a in was.blocks && now.blocks[a] == was.blocks[a]
  }

  lemma KeptTwice(a: View, b: View, c: View)
    requires Kept(a, b) && Kept(b, c)
    ensures Kept(a, c)
  {
  }

  lemma KeptSame(v: View)
    requires forall a :: a in v.live ==> a in v.blocks && a !in v.ring
    ensures Kept(v, v)
  {
  }

  lemma KeptGrown(was: View, mid: View, now: View, bp: nat, n: nat)
    requires bp !in was.blocks && (forall a :: a in was.live ==> a in was.blocks && a !in was.ring)
    requires mid == View(was.ring, was.live + {bp}, was.blocks[bp := n], bp + n, was.given + Units(bp, n))
    requires now.live == mid.live - {bp} && now.given == mid.given
    requires forall a {:trigger a in now.live} :: a in now.live ==>
        a in now.blocks && a in mid.blocks && now.blocks[a] == mid.blocks[a]
    ensures now.live == was.live && Kept(was, now)
  {
    hide Units;
    assert now.live == was.live;
  }

  class Heap {
    const hdr: array<Header>
    var freep: nat
    /** The process's break; others may move it up. */
    var brk: nat
    ghost var v: View

    ghost predicate Valid()
      reads this, hdr
    {
      && BASE < v.brk <= brk <= hdr.Length
      && if freep == 0 then v.live == {} && v.blocks == map[] && v.given == {} && v.ring == []
         else HeapOk(hdr[..], v) && freep in v.ring
    }

    constructor (limit: nat, end: nat)
      requires BASE < end <= limit
      ensures Valid() && freep == 0 && fresh(hdr) && v.ring == [] && v.blocks == map[]
      ensures hdr.Length == limit && brk == end
    {
      hdr := new Header[limit](_ => Header(0, 0));
      freep, brk := 0, end;
      v := View([], {}, map[], end, {});
    }

    /** The loop of free(). */
    method FindPlace(bp: nat) returns (p: nat, ghost t: nat)
      requires Valid() && freep != 0 && bp in v.live
      ensures t < |v.ring| && Between(v.ring, t, bp) && p == v.ring[t] < hdr.Length
      ensures Below(v.ring, bp, p)
    {
      hide HeapOk, After, Ahead, Below;
      LiveBlock(hdr[..], v, bp);
      RingBlock(hdr[..], v, 0);
      t := Place(v.ring, bp);
      p := freep;
      ghost var i: nat :| i < |v.ring| && v.ring[i] == freep;
      Tests(hdr[..], v, i, t, bp);
      LinkOfRing(hdr[..], v, i);
      while !(bp > p && bp < hdr[p].ptr)
        invariant i < |v.ring| && p == v.ring[i] < hdr.Length && hdr[p].ptr == After(v.ring, i)
        invariant (bp > p && bp < hdr[p].ptr) || (p >= hdr[p].ptr && (bp > p || bp < hdr[p].ptr)) <==> i == t
        decreases Ahead(|v.ring|, i, t)
      {
        if p >= hdr[p].ptr && (bp > p || bp < hdr[p].ptr) { break; }
        OneNearer(|v.ring|, i, t);
        AfterIs(v.ring, i);
        p, i := hdr[p].ptr, Following(|v.ring|, i);
        Tests(hdr[..], v, i, t, bp);
        LinkOfRing(hdr[..], v, i);
      }
      HighestBelow(hdr[..], v, t, bp);
    }

    /** free() of a block that malloc() returned. */
    method Free(ap: nat)
      requires Valid() && ap > 0 && ap - 1 in v.live
      modifies this`freep, this`v, hdr
      ensures Valid() && freep != 0 && v.live == old(v.live) - {ap - 1} && v.given == old(v.given)
          && v.brk == old(v.brk)
      ensures forall a {:trigger a in v.live} :: a in v.live ==>
          a in v.blocks && a in old(v.blocks) && v.blocks[a] == old(v.blocks)[a]
      ensures ap - 1 in old(v.blocks) && FreeHas(v, ap - 1, old(v.blocks)[ap - 1])
    {
      hide HeapOk, Between;
      var bp := ap - 1;
      LiveBlock(hdr[..], v, bp);
      var p, t := FindPlace(bp);
      ghost var h := hdr[..];
      ghost var v' := FreedOk(h, v, t, bp);
      LinkOfRing(h, v, t);
      var x := hdr[p].ptr;
      if bp + hdr[bp].size == x {
        hdr[bp] := Header(hdr[x].ptr, hdr[bp].size + hdr[x].size);
      } else {
        hdr[bp] := Header(x, hdr[bp].size);
      }
      if p + hdr[p].size == bp {
        hdr[p] := Header(hdr[bp].ptr, hdr[p].size + hdr[bp].size);
      } else {
        hdr[p] := Header(bp, hdr[p].size);
      }
      assert hdr[..] == FreedHeaders(h, p, bp);
      freep := p;
      v := v';
    }

    /** morecore(), with the free() in it; p is 0 if sbrk() fails, and exact is false if it gave too little. */
    method MoreCore(nu: nat, sbrk: Answer) returns (p: nat, exact: bool)
      requires Valid() && freep != 0 && 0 < nu
      modifies this, hdr
      ensures exact <==> sbrk.None? || Int32(Asked(nu) * UNIT) == Asked(nu) * UNIT
      ensures exact ==>
                Valid() && freep != 0 && v.live == old(v.live) && Kept(old(v), v)
      ensures exact ==> (p == 0 <==> sbrk.None? || old(brk) + sbrk.value + Asked(nu) > hdr.Length)
      ensures exact && p == 0 ==> v == old(v)
      ensures exact && p != 0 ==>
                && p == freep && |v.given| == |old(v.given)| + Asked(nu)
                && exists bp :: FreeHas(v, bp, nu)
    {
      hide HeapOk, Kept, FreeHas, Units, Int32;
      var n := if nu < 4096 then 4096 else nu;
      ghost var was := v;
      Blocks(hdr[..], v);
      KeptSame(v);
      if sbrk.None? { return 0, true; }
      var bytes := Int32(n * UNIT);
      exact := bytes == n * UNIT;
      if !exact { return 0, false; }
      var bp := brk + sbrk.value;
      if bp + n > hdr.Length { return 0, true; }
      Grant(hdr[..], v, bp, n);
      hdr[bp] := Header(hdr[bp].ptr, n);
      brk := bp + n;
      v := View(v.ring, v.live + {bp}, v.blocks[bp := n], bp + n, v.given + Units(bp, n));
      ghost var mid := v;
      Free(bp + 1);
      KeptGrown(was, mid, v, bp, n);
      FreeHasLess(v, bp, n, nu);
      p := freep;
    }

    /**
     malloc().  A fitting free block is handed out without asking for memory.  Without one the result is 0 exactly if
     sbrk() refuses, and memory that malloc() did not get is handed out exactly if sbrk() does not and 2^27 units or
     more are needed.
     */
    method Malloc(nbytes: nat, sbrk: Answer) returns (r: MallocResult)
      requires Valid() && nbytes < 0x1_0000_0000
      modifies this, hdr
      ensures r == NoMemory <==>
                !old(Fits(v, UnitsFor(nbytes))) && Refused(sbrk, old(brk), hdr.Length, UnitsFor(nbytes))
      ensures r == Overrun <==>
                !old(Fits(v, UnitsFor(nbytes))) && sbrk.Some? && UnitsFor(nbytes) >= 0x800_0000
      ensures old(Fits(v, UnitsFor(nbytes))) ==> v.given == old(v.given) && brk == old(brk)
      ensures r.Got? && !old(Fits(v, UnitsFor(nbytes))) ==>
                |v.given| == |old(v.given)| + Asked(UnitsFor(nbytes))
      ensures r != Overrun ==> Valid() && Kept(old(v), v)
      ensures r == NoMemory ==> v.live == old(v.live)
      ensures r.Got? ==>
                && r.ap > 0 && r.ap - 1 !in old(v.live) && v.live == old(v.live) + {r.ap - 1}
                && r.ap - 1 in v.blocks && v.blocks[r.ap - 1] == UnitsFor(nbytes)
    {
      hide HeapOk, Linked, RoomAhead, FreeHas, Kept, Ahead, Following, Preceding, UnitsFor, Int32, After, Fits, Asked;
      var nunits := UnitsFor(nbytes);
      ghost var start := v;
      FirstCall(nunits);
      ghost var first := v;
      var prevp := freep;
      ghost var f: nat :| f < |v.ring| && v.ring[f] == freep;
      ghost var k: nat := Following(|v.ring|, f);
      ghost var grown := false;
      LinkOfRing(hdr[..], v, f);
      AfterIs(v.ring, f);
      OneNearer(|v.ring|, f, f);
      var p := hdr[prevp].ptr;
      if Fits(v, nunits) { FitsAhead(hdr[..], v, f, nunits); }
      while true
        invariant Valid() && freep != 0 && f < |v.ring| && v.ring[f] == freep && k < |v.ring|
        invariant p == v.ring[k] && prevp == v.ring[Preceding(|v.ring|, k)]
        invariant grown || Fits(first, nunits) ==> RoomAhead(hdr[..], v.ring, k, f, nunits)
        invariant if grown then nunits < 0x800_0000 && !Refused(sbrk, old(brk), hdr.Length, nunits)
                                && !Fits(first, nunits) && |v.given| == |first.given| + Asked(nunits)
                  else v == first && brk == old(brk)
        invariant v.live == start.live && Kept(start, v) && nunits >= 1
        decreases if grown then 0 else 1, Ahead(|v.ring|, k, f)
      {
        RingBlock(hdr[..], v, k);
        ghost var here := v;
        if hdr[p].size >= nunits {
          HereFits(hdr[..], v, k, nunits);
          r := Hand(prevp, p, k, nunits);
          KeptTwice(start, here, v);
          return;
        }
        if grown || Fits(first, nunits) { RoomAfter(hdr[..], v.ring, k, f, nunits); }
        if p == freep {
          Unique(hdr[..], v, k, f);
          var exact;
          p, exact, f := Grow(nunits, sbrk);
          AskedTooLittle(nbytes);
          if !exact { return Overrun; }
          KeptTwice(start, here, v);
          if p == 0 { return NoMemory; }
          k, grown := f, true;
        }
        LinkOfRing(hdr[..], v, k);
        AfterIs(v.ring, k);
        OneNearer(|v.ring|, k, f);
        prevp, p := p, hdr[p].ptr;
        k := Following(|v.ring|, k);
      }
    }

    /** The first call of malloc() makes the ring of BASE alone. */
    method FirstCall(ghost n: nat)
      requires Valid()
      modifies this`freep, this`v, hdr
      ensures Fits(v, n) <==> old(Fits(v, n))
      ensures Valid() && freep != 0 && v.live == old(v.live) && v.given == old(v.given) && Kept(old(v), v)
    {
      hide HeapOk;
      if freep == 0 {
        hdr[BASE] := Header(BASE, 0);
        freep := BASE;
        v := v.(ring := [BASE]);
        OnlyBaseFits(old(v), v, n);
        OnlyBase(hdr[..], v);
      } else {
        Blocks(hdr[..], v);
      }
    }

    /** morecore() in malloc(), after which the search finds a block before it comes to freep again. */
    method Grow(nunits: nat, sbrk: Answer) returns (p: nat, exact: bool, ghost f: nat)
      requires Valid() && freep != 0 && 0 < nunits
      modifies this, hdr
      ensures exact <==> sbrk.None? || Int32(Asked(nunits) * UNIT) == Asked(nunits) * UNIT
      ensures exact ==> (p == 0 <==> sbrk.None? || old(brk) + sbrk.value + Asked(nunits) > hdr.Length)
      ensures exact ==> Valid() && freep != 0 && v.live == old(v.live) && Kept(old(v), v)
      ensures exact && p != 0 ==>
                && p == freep && f < |v.ring| && v.ring[f] == freep && |v.given| == |old(v.given)| + Asked(nunits)
                && RoomAhead(hdr[..], v.ring, Following(|v.ring|, f), f, nunits)
    {
      hide HeapOk, RoomAhead, FreeHas, Kept;
      p, exact := MoreCore(nunits, sbrk);
      f := 0;
      if exact && p != 0 {
        ghost var bp :| FreeHas(v, bp, nunits);
        f :| 0 <= f < |v.ring| && v.ring[f] == freep;
        RoomSomewhere(hdr[..], v, f, bp, nunits);
      }
    }

    /** The branch of malloc() that takes the block at p, or its tail. */
    method Hand(prevp: nat, at: nat, ghost k: nat, nunits: nat) returns (r: MallocResult)
      requires Valid() && freep != 0 && 1 <= nunits && k < |v.ring| && at == v.ring[k] < hdr.Length
          && hdr[at].size >= nunits
      requires prevp == v.ring[Preceding(|v.ring|, k)]
      modifies this`freep, this`v, hdr
      ensures Valid() && Kept(old(v), v) && v.given == old(v.given)
      ensures r.Got? && r.ap > 0 && r.ap - 1 !in old(v.live) && v.live == old(v.live) + {r.ap - 1}
      ensures r.ap - 1 in v.blocks && v.blocks[r.ap - 1] == nunits
    {
      hide HeapOk, After, Removed, Linked;
      ghost var h := hdr[..];
      var p := at;
      RingBlock(h, v, k);
      RingBlock(h, v, k - 1);
      LinkOfRing(h, v, k);
      Blocks(h, v);
      if hdr[p].size == nunits {
        Take(h, v, k);
        RemovedAt(v.ring, k);
        hdr[prevp] := Header(hdr[p].ptr, hdr[prevp].size);
        assert hdr[..] == SetPtr(h, v.ring[k - 1], After(v.ring, k));
        v := v.(ring := Removed(v.ring, k), live := v.live + {p});
        assert v.ring[k - 1] == prevp;
      } else {
        Split(h, v, k, nunits);
        hdr[p] := Header(hdr[p].ptr, hdr[p].size - nunits);
        ghost var n := hdr[p].size;
        p := p + hdr[p].size;
        hdr[p] := Header(hdr[p].ptr, nunits);
        v := v.(live := v.live + {p}, blocks := v.blocks[at := n][p := nunits]);
      }
      freep := prevp;
      return Got(p + 1);
    }
  }

  /** p is the highest block of the ring below bp. */
  ghost predicate Below(ring: seq<nat>, bp: nat, p: nat) {
    p in ring && p < bp && forall q :: q in ring && q < bp ==> q <= p
  }

  lemma HighestBelow(h: seq<Header>, v: View, t: nat, bp: nat)
    requires HeapOk(h, v) && Between(v.ring, t, bp)
    ensures Below(v.ring, bp, v.ring[t])
  {
    hide Partition, Gapped, Sorted;
  }

  /** The first request of a program, if sbrk() does not refuse, overruns exactly for 2^31 - 31 bytes or more. */
  method FirstRequest(limit: nat, end: nat, nbytes: nat, sbrk: Answer) returns (r: MallocResult)
    requires BASE < end <= limit && nbytes < 0x1_0000_0000
    ensures r == Overrun <==> sbrk.Some? && nbytes >= 0x7FFF_FFE1
    ensures r.Got? <==> sbrk.Some? && nbytes < 0x7FFF_FFE1 && end + sbrk.value + Asked(UnitsFor(nbytes)) <= limit
  {
    var heap := new Heap(limit, end);
    r := heap.Malloc(nbytes, sbrk);
  }

  lemma Blocks(h: seq<Header>, v: View)
    requires HeapOk(h, v)
    ensures forall a :: a in v.live ==> a in v.blocks && a !in v.ring
  {
  }

  lemma OnlyBase(h: seq<Header>, v: View)
    requires BASE < |h| && h[BASE] == Header(BASE, 0) && v == View([BASE], {}, map[], v.brk, {}) && BASE < v.brk <= |h|
    ensures HeapOk(h, v)
  {
  }

  lemma FreeHasLess(v: View, bp: nat, n: nat, m: nat)
    requires FreeHas(v, bp, n) && m <= n
    ensures FreeHas(v, bp, m)
  {
    var a :| a in v.ring && a in v.blocks && a <= bp && bp + n <= a + v.blocks[a];
    assert v.blocks[a] >= m;
  }

  lemma Unique(h: seq<Header>, v: View, i: nat, j: nat)
    requires HeapOk(h, v) && i < |v.ring| && j < |v.ring| && v.ring[i] == v.ring[j]
    ensures i == j
  {
    hide Partition, Gapped, Sorted;
  }
}
