/**
 Growing, shrinking, copying and freeing user memory (uvmalloc() to uvmcopy() in
 vm.c): every frame is free, part of a page table, or a user page, and no
 operation loses one.
 */
module UserMemory {
  import opened Bits
  import opened Common
  import opened PageAllocator
  import opened Sv39
  import opened AddressSpace

  /** The frames bound one after the other to the pages from v on; the rest is as before. */
  ghost predicate BoundTo(mem: Memory, t: Tree, now: Memory, t': Tree, v: nat, frames: seq<nat>, perms: seq<nat>)
  {
    |perms| == |frames| && (forall i :: 0 <= i < |perms| ==> perms[i] < 1024)
    && forall vb: nat :: vb < MAXVA ==>
      Lookup(now, t', vb) ==
        if v <= vb / PGSIZE < v + |frames| then Some(Entry(frames[vb / PGSIZE - v] * PGSIZE, perms[vb / PGSIZE - v]))
        else Lookup(mem, t, vb)
  }

  /** What was free or table before is now free, table or one of the frames, and only once. */
  ghost predicate Accounted(free: seq<nat>, t: Tree, free': seq<nat>, t': Tree, frames: seq<nat>) {
    && t'.root == t.root && t.pages <= t'.pages
    && ToSet(free) + t.pages == ToSet(free') + t'.pages + ToSet(frames)
    && |free| + |t.pages| == |free'| + |t'.pages| + |frames|
    && (forall i :: 0 <= i < |frames| ==> frames[i] !in free' && frames[i] !in t'.pages)
    && (forall i, j :: 0 <= i < j < |frames| ==> frames[i] != frames[j])
  }

  /** Pages that were neither free nor part of the table were not written. */
  ghost predicate Untouched(mem: Memory, now: Memory, free: seq<nat>, t: Tree) {
    |now| == |mem| && forall f :: 0 <= f < |mem| && f !in free && f !in t.pages ==> now[f] == mem[f]
  }

  /** kalloc() a page, fill it, mappages() it at a; give it back if there is no room for the table. */
  method AddPage(m: Mem, pagetable: nat, a: nat, page: Page, perm: nat, ghost t: Tree)
    returns (r: MapResult, f: nat, ghost t': Tree)
    requires Table(m, t) && pagetable == t.root * PGSIZE && a % PGSIZE == 0 && perm < 1024 && |page| == 512
    modifies m, m.mem
    ensures Table(m, t') && Untouched(old(m.mem[..]), m.mem[..], old(m.free), t)
    ensures r.Mapped? ==>
              && BoundTo(old(m.mem[..]), t, m.mem[..], t', a / PGSIZE, [f], [perm]) && m.lo <= f < m.mem.Length
              && Accounted(old(m.free), t, m.free, t', [f]) && m.mem[f] == page
              && a < MAXVA && Lookup(old(m.mem[..]), t, a) == None
    ensures r.Mapped? ==> Spans(t, t', a / PGSIZE, 1)
    ensures r.NoMemory? ==> SameMap(old(m.mem[..]), t, m.mem[..], t') && Accounted(old(m.free), t, m.free, t', [])
    ensures r.NoMemory? ==> |old(m.free)| < 1 + Missing(t, a / PGSIZE, 1)
    ensures r.MapPanic? ==> a >= MAXVA || Lookup(old(m.mem[..]), t, a).Some?
  {
    hide IsTree, FreeList, Entry, Lookup, SameMap, MapsRange, BoundTo, OnlyTable, Conserved, Untouched, Accounted,
        Spans, FallsShort, Missing;
    t' := t;
    StartAccount(m.mem[..], m.free, t);
    WalkStart(m.mem[..], t, m.free);
    var pa := m.Kalloc();
    f := pa / PGSIZE;
    if pa == 0 { return NoMemory, 0, t; }
    ghost var free1 := m.free;
    assert f == old(m.free)[0] && f in old(m.free);
    m.Store(f, page);
    ghost var mem1 := m.mem[..];
    assert mem1 == old(m.mem[..])[f := page];
    SameTablesMap(old(m.mem[..]), mem1, m.lo, t);
    assert Table(m, t);
    ghost var k;
    r, t', k := MapPages(m, pagetable, a, PGSIZE, pa, perm, t);
    assert (a + PGSIZE - 1) / PGSIZE == a / PGSIZE && a / PGSIZE * PGSIZE == a;
    if a < MAXVA { SameAt(old(m.mem[..]), t, mem1, t, a); }
    ghost var mem2 := m.mem[..];
    AfterPop(old(m.mem[..]), mem1, mem2, old(m.free), free1, m.free, t, t', f, page);
    if r.Mapped? {
      UnmappedAt(mem1, t, a / PGSIZE, 1);
      BoundOne(old(m.mem[..]), mem1, mem2, t, t', a / PGSIZE, f, perm);
    } else if r.NoMemory? {
      ghost var t1 :| Spans(t, t1, a / PGSIZE, 0) && FallsShort(t1, t', a / PGSIZE);
      OutOfMemory(mem1, t, t1, mem2, t', m.lo, a / PGSIZE, free1, m.free);
      BoundNone(old(m.mem[..]), mem1, mem2, t, t', a / PGSIZE, pa, perm);
      ghost var free2 := m.free;
      FreeLeaf(m, pa, t');
      SameMapTrans(old(m.mem[..]), t, mem2, t', m.mem[..], t');
      BackAgain(old(m.free), free2, m.free, t, t', f);
      UntouchedMore(old(m.mem[..]), mem2, m.mem[..], old(m.free), t, f);
    }
  }

  /** A walk that ran out of memory has used up what was free, and that was less than what was missing. */
  lemma OutOfMemory(m0: Memory, t: Tree, t1: Tree, m1: Memory, t': Tree, lo: nat, v: nat, free: seq<nat>,
                    free': seq<nat>)
    requires IsTree(m0, lo, t) && IsTree(m1, lo, t') && Conserved(free, t, free', t') && free' == []
    requires Spans(t, t1, v, 0) && FallsShort(t1, t', v)
    ensures |free| < Missing(t, v, 1)
  {
    hide IsTree, Missing;
    NoPages(v);
    ShortSize(m0, t, m1, t', lo, v);
  }

  lemma UnmappedAt(mem: Memory, t: Tree, v: nat, k: nat)
    requires Unmapped(mem, t, v, k) && 0 < k
    ensures v * PGSIZE < MAXVA && Lookup(mem, t, v * PGSIZE) == None
  {
  }

  lemma SameTablesMap(mem: Memory, now: Memory, lo: nat, t: Tree)
    requires IsTree(mem, lo, t) && |now| == |mem| && Pages(now)
    requires forall f :: 0 <= f < |mem| && f in t.pages ==> now[f] == mem[f]
    ensures IsTree(now, lo, t) && SameMap(mem, t, now, t)
  {
    hide IsTree, Lookup;
    SameTables(mem, now, lo, t);
  }

  lemma StartAccount(mem: Memory, free: seq<nat>, t: Tree)
    ensures Accounted(free, t, free, t, []) && Untouched(mem, mem, free, t)
  {
  }

  lemma AfterPop(m0: Memory, m1: Memory, m2: Memory, free0: seq<nat>, free1: seq<nat>, free2: seq<nat>,
                 t: Tree, t': Tree, f: nat, page: Page)
    requires free0 != [] && f == free0[0] && free1 == free0[1..] && f !in free1 && f !in t.pages && f < |m0|
    requires m1 == m0[f := page] && Conserved(free1, t, free2, t') && OnlyTable(m1, m2, t')
    requires forall x :: x in free2 ==> x !in t'.pages
    ensures Accounted(free0, t, free2, t', [f]) && m2[f] == page && Untouched(m0, m2, free0, t)
    ensures f !in free2 && f !in t'.pages
  {
    hide Accounted, Untouched;
    PopAccount(free0, free1, free2, t, t', f);
    forall g | 0 <= g < |m0| && g !in free0 && g !in t.pages ensures m2[g] == m0[g] {
      assert g !in t'.pages by { assert g !in ToSet(free1) + t.pages; }
    }
    UntouchedIf(m0, m2, free0, t);
  }

  lemma UntouchedIf(m0: Memory, m2: Memory, free0: seq<nat>, t: Tree)
    requires |m2| == |m0| && forall g :: 0 <= g < |m0| && g !in free0 && g !in t.pages ==> m2[g] == m0[g]
    ensures Untouched(m0, m2, free0, t)
  {
  }

  lemma PopAccount(free0: seq<nat>, free1: seq<nat>, free2: seq<nat>, t: Tree, t': Tree, f: nat)
    requires free0 != [] && f == free0[0] && free1 == free0[1..] && f !in free1 && f !in t.pages
    requires Conserved(free1, t, free2, t')
    ensures Accounted(free0, t, free2, t', [f]) && f !in free2 && f !in t'.pages
  {
    var all := ToSet(free1) + t.pages;
    assert f !in all && all == ToSet(free2) + t'.pages;
    assert ToSet([f]) == {f};
    assert ToSet(free0) == {f} + ToSet(free1) by { assert free0 == [f] + free1; }
  }

  lemma BoundOne(m0: Memory, m1: Memory, m2: Memory, t: Tree, t': Tree, v: nat, f: nat, perm: nat)
    requires perm < 1024 && SameMap(m0, t, m1, t) && MapsRange(m1, t, m2, t', v, 1, f * PGSIZE, perm)
    ensures BoundTo(m0, t, m2, t', v, [f], [perm])
  {
    hide Lookup, Entry;
  }

  lemma BoundNone(m0: Memory, m1: Memory, m2: Memory, t: Tree, t': Tree, v: nat, pa: nat, perm: nat)
    requires perm < 1024 && SameMap(m0, t, m1, t) && MapsRange(m1, t, m2, t', v, 0, pa, perm)
    ensures SameMap(m0, t, m2, t')
  {
    hide Lookup, Entry;
  }

  lemma BackAgain(free0: seq<nat>, free2: seq<nat>, free3: seq<nat>, t: Tree, t': Tree, f: nat)
    requires Accounted(free0, t, free2, t', [f]) && free3 == [f] + free2
    ensures Accounted(free0, t, free3, t', [])
  {
  }

  lemma UntouchedMore(m0: Memory, m1: Memory, m2: Memory, free0: seq<nat>, t: Tree, f: nat)
    requires Untouched(m0, m1, free0, t) && f in free0 && |m2| == |m1|
    requires forall g :: 0 <= g < |m1| && g != f ==> m2[g] == m1[g]
    ensures Untouched(m0, m2, free0, t)
  {
  }

  // ---------- uvmalloc() and uvmdealloc() ----------

  lemma BoundEmpty(mem: Memory, t: Tree, v: nat)
    ensures BoundTo(mem, t, mem, t, v, [], [])
  {
  }

  lemma BoundMore(m0: Memory, t0: Tree, m1: Memory, t1: Tree, m2: Memory, t2: Tree, v: nat,
                  frames: seq<nat>, perms: seq<nat>, f: nat, perm: nat)
    requires BoundTo(m0, t0, m1, t1, v, frames, perms) && BoundTo(m1, t1, m2, t2, v + |frames|, [f], [perm])
    ensures BoundTo(m0, t0, m2, t2, v, frames + [f], perms + [perm])
  {
    hide Lookup, Entry;
    var fs, ps := frames + [f], perms + [perm];
    forall vb: nat | vb < MAXVA
      ensures Lookup(m2, t2, vb) == if v <= vb / PGSIZE < v + |fs|
          then Some(Entry(fs[vb / PGSIZE - v] * PGSIZE, ps[vb / PGSIZE - v]))
                                    else Lookup(m0, t0, vb)
    {
      if vb / PGSIZE == v + |frames| { assert [f][vb / PGSIZE - (v + |frames|)] == f; }
    }
  }

  lemma AccountMore(free0: seq<nat>, t0: Tree, free1: seq<nat>, t1: Tree, free2: seq<nat>, t2: Tree,
                    frames: seq<nat>, more: seq<nat>)
    requires Accounted(free0, t0, free1, t1, frames) && Accounted(free1, t1, free2, t2, more)
    ensures Accounted(free0, t0, free2, t2, frames + more)
  {
    var fs := frames + more;
    var all := ToSet(free1) + t1.pages;
    assert ToSet(fs) == ToSet(frames) + ToSet(more) by {
      assert forall x :: x in fs <==> x in frames || x in more;
    }
    forall i | 0 <= i < |fs| ensures fs[i] !in free2 && fs[i] !in t2.pages {
      if i < |frames| { assert frames[i] !in all && all == ToSet(free2) + t2.pages + ToSet(more); }
    }
    forall i, j | 0 <= i < j < |fs| ensures fs[i] != fs[j] {
      if i < |frames| <= j {
        assert frames[i] !in all && more[j - |frames|] in all;
      }
    }
  }

  lemma UntouchedChain(m0: Memory, m1: Memory, m2: Memory, free0: seq<nat>, t0: Tree, free1: seq<nat>, t1: Tree,
      frames: seq<nat>)
    requires Untouched(m0, m1, free0, t0) && Untouched(m1, m2, free1, t1) && Accounted(free0, t0, free1, t1, frames)
    ensures Untouched(m0, m2, free0, t0)
    ensures |m2| == |m1| && forall f :: 0 <= f < |m1| && f in frames ==> m2[f] == m1[f]
  {
    forall f | 0 <= f < |m0| && f !in free0 && f !in t0.pages ensures m2[f] == m0[f] {
      assert f !in ToSet(free1) + t1.pages by { assert f !in ToSet(free0) + t0.pages; }
    }
  }

  /**
   The pages from v on were not mapped, and are now bound to new frames holding
   the given pages; nothing else has changed but the free list.
   */
  ghost predicate Growing(m0: Memory, t0: Tree, free0: seq<nat>, m1: Memory, t1: Tree, free1: seq<nat>,
                          v: nat, frames: seq<nat>, perms: seq<nat>, pages: seq<Page>) {
    && BoundTo(m0, t0, m1, t1, v, frames, perms) && Accounted(free0, t0, free1, t1, frames)
    && Untouched(m0, m1, free0, t0) && Unmapped(m0, t0, v, |frames|)
    && Holding(m1, frames, perms, pages)
  }

  ghost predicate Holding(mem: Memory, frames: seq<nat>, perms: seq<nat>, pages: seq<Page>) {
    && |pages| == |perms| == |frames|
    && (forall i :: 0 <= i < |frames| ==> 0 < frames[i] < |mem| && mem[frames[i]] == pages[i] && 2 <= perms[i])
  }

  lemma GrowingStart(mem: Memory, t: Tree, free: seq<nat>, v: nat)
    ensures Growing(mem, t, free, mem, t, free, v, [], [], [])
  {
    BoundEmpty(mem, t, v);
    StartAccount(mem, free, t);
  }

  lemma GrowingMore(m0: Memory, t0: Tree, free0: seq<nat>, m1: Memory, t1: Tree, free1: seq<nat>,
                    m2: Memory, t2: Tree, free2: seq<nat>,
                    v: nat, frames: seq<nat>, perms: seq<nat>, pages: seq<Page>, f: nat, perm: nat, page: Page)
    requires Growing(m0, t0, free0, m1, t1, free1, v, frames, perms, pages)
    requires BoundTo(m1, t1, m2, t2, v + |frames|, [f], [perm]) && Accounted(free1, t1, free2, t2, [f])
    requires Untouched(m1, m2, free1, t1) && 0 < f < |m2| && m2[f] == page && 2 <= perm
    requires (v + |frames|) * PGSIZE < MAXVA && Lookup(m1, t1, (v + |frames|) * PGSIZE) == None
    ensures Growing(m0, t0, free0, m2, t2, free2, v, frames + [f], perms + [perm], pages + [page])
  {
    hide BoundTo, Accounted, Untouched, Unmapped, Lookup;
    BoundMore(m0, t0, m1, t1, m2, t2, v, frames, perms, f, perm);
    AccountMore(free0, t0, free1, t1, free2, t2, frames, [f]);
    UntouchedChain(m0, m1, m2, free0, t0, free1, t1, frames);
    UnmappedMore(m0, t0, m1, t1, v, frames, perms);
    var fs, ps, qs := frames + [f], perms + [perm], pages + [page];
    forall i | 0 <= i < |fs| ensures 0 < fs[i] < |m2| && m2[fs[i]] == qs[i] && 2 <= ps[i] {
      if i < |frames| { assert fs[i] == frames[i] && frames[i] in frames; }
    }
  }

  lemma UnmappedMore(m0: Memory, t0: Tree, m1: Memory, t1: Tree, v: nat, frames: seq<nat>, perms: seq<nat>)
    requires BoundTo(m0, t0, m1, t1, v, frames, perms) && Unmapped(m0, t0, v, |frames|)
    requires (v + |frames|) * PGSIZE < MAXVA && Lookup(m1, t1, (v + |frames|) * PGSIZE) == None
    ensures Unmapped(m0, t0, v, |frames| + 1)
  {
    hide Lookup, Entry;
    assert (v + |frames|) * PGSIZE / PGSIZE == v + |frames|;
  }

  /** The new pages are there to be unmapped and freed. */
  lemma GrownFrame(m0: Memory, t0: Tree, m1: Memory, t1: Tree, v: nat, frames: seq<nat>, perms: seq<nat>, i: nat)
    requires BoundTo(m0, t0, m1, t1, v, frames, perms) && i < |frames|
    requires (v + i) * PGSIZE < MAXVA && 2 <= perms[i]
    ensures Leaf(m1, t1, v + i) && FrameAt(m1, t1, v + i) == frames[i]
  {
    hide Lookup, Entry;
    assert (v + i) * PGSIZE / PGSIZE == v + i;
    assert Lookup(m1, t1, (v + i) * PGSIZE) == Some(Entry(frames[i] * PGSIZE, perms[i]));
  }

  lemma GrownOwned(m0: Memory, t0: Tree, free0: seq<nat>, lo: nat, m1: Memory, t1: Tree, free1: seq<nat>,
                   v: nat, frames: seq<nat>, perms: seq<nat>, pages: seq<Page>)
    requires Growing(m0, t0, free0, m1, t1, free1, v, frames, perms, pages)
    requires forall i :: 0 <= i < |frames| ==> lo <= frames[i]
    ensures Leaves(m1, t1, v, |frames|) && Owned(m1, lo, free1, t1, v, |frames|)
    ensures forall f :: f in Frames(m1, t1, v, |frames|) <==> f in frames
  {
    hide BoundTo, Untouched, Lookup, Frames, Leaf, FrameAt;
    forall i | v <= i < v + |frames|
      ensures i * PGSIZE < MAXVA && Leaf(m1, t1, i) && FrameAt(m1, t1, i) == frames[i - v]
    {
      assert i * PGSIZE < MAXVA by { var e := Lookup(m0, t0, i * PGSIZE); }
      GrownFrame(m0, t0, m1, t1, v, frames, perms, i - v);
    }
    forall f ensures f in Frames(m1, t1, v, |frames|) <==> f in frames {
      if f >= 0 { FramesAre(m1, t1, v, |frames|, f); }
      if f in frames {
        var k :| 0 <= k < |frames| && frames[k] == f;
        assert FrameAt(m1, t1, v + k) == f;
      }
    }
  }

  /** Unmapping the new pages again gives every frame back and restores the map. */
  lemma Undone(m0: Memory, t0: Tree, free0: seq<nat>, lo: nat, m1: Memory, t1: Tree, free1: seq<nat>, m2: Memory,
               free2: seq<nat>, v: nat, frames: seq<nat>, perms: seq<nat>, pages: seq<Page>)
    requires Growing(m0, t0, free0, m1, t1, free1, v, frames, perms, pages)
    requires forall i :: 0 <= i < |frames| ==> lo <= frames[i]
    requires Unbound(m1, t1, m2, v, |frames|) && free2 == Frames(m1, t1, v, |frames|) + free1
    requires OnlyTableAnd(m1, m2, t1, Frames(m1, t1, v, |frames|))
    ensures SameMap(m0, t0, m2, t1) && Accounted(free0, t0, free2, t1, []) && Untouched(m0, m2, free0, t0)
  {
    hide Lookup, Entry, BoundTo, Unbound, Unmapped, SameMap, Frames;
    var back := Frames(m1, t1, v, |frames|);
    GrownOwned(m0, t0, free0, lo, m1, t1, free1, v, frames, perms, pages);
    RestoredMap(m0, t0, m1, t1, m2, v, frames, perms);
    assert ToSet(free2) == ToSet(frames) + ToSet(free1) by {
      assert forall x :: x in free2 <==> x in back || x in free1;
    }
    forall f | 0 <= f < |m0| && f !in free0 && f !in t0.pages ensures m2[f] == m0[f] {
      assert f !in ToSet(free1) + t1.pages + ToSet(frames) by { assert f !in ToSet(free0) + t0.pages; }
    }
  }

  lemma RestoredMap(m0: Memory, t0: Tree, m1: Memory, t1: Tree, m2: Memory, v: nat, frames: seq<nat>, perms: seq<nat>)
    requires BoundTo(m0, t0, m1, t1, v, frames, perms) && Unbound(m1, t1, m2, v, |frames|)
        && Unmapped(m0, t0, v, |frames|)
    ensures SameMap(m0, t0, m2, t1)
  {
    hide Lookup, Entry;
    forall vb: nat | vb < MAXVA ensures Lookup(m2, t1, vb) == Lookup(m0, t0, vb) {
      LookupByPage(m0, t0, vb);
    }
  }

  function NPages(sz: nat): nat { (sz + PGSIZE - 1) / PGSIZE }

  lemma RoundUpPages(sz: nat, other: nat)
    ensures PgRoundUp(sz) == NPages(sz) * PGSIZE && PgRoundUp(sz) / PGSIZE == NPages(sz)
        && sz <= PgRoundUp(sz) < sz + PGSIZE
    ensures sz <= other ==> NPages(sz) <= NPages(other)
    ensures PgRoundUp(PgRoundUp(sz)) == PgRoundUp(sz)
  {
  }

  /** How many pages uvmdealloc() is to take away. */
  function Surplus(oldsz: nat, newsz: nat): nat {
    if newsz >= oldsz then 0 else NPages(oldsz) - NPages(newsz)
  }

  /** uvmdealloc(); not ok is a panic of uvmunmap(). */
  method Uvmdealloc(m: Mem, pagetable: nat, oldsz: nat, newsz: nat, ghost t: Tree) returns (ok: bool, sz: nat)
    requires Table(m, t) && pagetable == t.root * PGSIZE
    requires Owned(m.mem[..], m.lo, m.free, t, NPages(newsz), Surplus(oldsz, newsz))
    modifies m, m.mem
    ensures Table(m, t)
    ensures ok <==> Leaves(old(m.mem[..]), t, NPages(newsz), Surplus(oldsz, newsz))
    ensures ok ==>
              && sz == (if newsz >= oldsz then oldsz else newsz)
              && Unbound(old(m.mem[..]), t, m.mem[..], NPages(newsz), Surplus(oldsz, newsz))
              && m.free == Frames(old(m.mem[..]), t, NPages(newsz), Surplus(oldsz, newsz)) + old(m.free)
              && OnlyTableAnd(old(m.mem[..]), m.mem[..], t,
                  Frames(old(m.mem[..]), t, NPages(newsz), Surplus(oldsz, newsz)))
  {
    hide IsTree, FreeList, Lookup, Unbound, Owned, Leaves, OnlyTableAnd, PgRoundUp, NPages, Frames;
    RoundUpPages(oldsz, oldsz);
    RoundUpPages(newsz, oldsz);
    NothingToUnmap(m.mem[..], t, NPages(newsz), m.free);
    if newsz >= oldsz { return true, oldsz; }
    if PgRoundUp(newsz) < PgRoundUp(oldsz) {
      var npages := (PgRoundUp(oldsz) - PgRoundUp(newsz)) / PGSIZE;
      assert npages == Surplus(oldsz, newsz) && PgRoundUp(newsz) % PGSIZE == 0;
      ghost var k;
      ok, k := Unmap(m, pagetable, PgRoundUp(newsz), npages, true, t);
      return ok, newsz;
    }
    return true, newsz;
  }

  lemma NothingToUnmap(mem: Memory, t: Tree, v: nat, free: seq<nat>)
    ensures Unbound(mem, t, mem, v, 0) && Leaves(mem, t, v, 0) && OnlyTableAnd(mem, mem, t, Frames(mem, t, v, 0))
    ensures free == Frames(mem, t, v, 0) + free
  {
  }

  /** A page that did not fit leaves the growth so far as it was. */
  lemma GrowingSame(m0: Memory, t0: Tree, free0: seq<nat>, m1: Memory, t1: Tree, free1: seq<nat>,
                    m2: Memory, t2: Tree, free2: seq<nat>,
                    v: nat, frames: seq<nat>, perms: seq<nat>, pages: seq<Page>)
    requires Growing(m0, t0, free0, m1, t1, free1, v, frames, perms, pages)
    requires SameMap(m1, t1, m2, t2) && Accounted(free1, t1, free2, t2, []) && Untouched(m1, m2, free1, t1)
    ensures Growing(m0, t0, free0, m2, t2, free2, v, frames, perms, pages)
  {
    hide BoundTo, Accounted, Untouched, Unmapped, Lookup;
    assert frames + [] == frames;
    AccountMore(free0, t0, free1, t1, free2, t2, frames, []);
    UntouchedChain(m0, m1, m2, free0, t0, free1, t1, frames);
    BoundSame(m0, t0, m1, t1, m2, t2, v, frames, perms);
    forall i | 0 <= i < |frames| ensures m2[frames[i]] == pages[i] { assert frames[i] in frames; }
  }

  lemma BoundSame(m0: Memory, t0: Tree, m1: Memory, t1: Tree, m2: Memory, t2: Tree, v: nat, frames: seq<nat>,
      perms: seq<nat>)
    requires BoundTo(m0, t0, m1, t1, v, frames, perms) && SameMap(m1, t1, m2, t2)
    ensures BoundTo(m0, t0, m2, t2, v, frames, perms)
  {
    hide Lookup, Entry;
    forall vb: nat | vb < MAXVA
      ensures Lookup(m2, t2, vb) == if v <= vb / PGSIZE < v + |frames|
          then Some(Entry(frames[vb / PGSIZE - v] * PGSIZE, perms[vb / PGSIZE - v]))
                                    else Lookup(m0, t0, vb)
    {
      assert Lookup(m2, t2, vb) == Lookup(m1, t1, vb);
    }
  }

  /** The frames it takes to map n new pages from page number v on: the pages and the table pages missing for them. */
  ghost function Demand(t: Tree, v: nat, n: nat): nat { n + Missing(t, v, n) }

  lemma DemandAtMost(t: Tree, v: nat, n: nat)
    ensures n <= Demand(t, v, n) <= 3 * n
  {
    MissingAtMost(t, v, n);
  }

  /** A growth takes exactly what it demands. */
  lemma AsDemanded(m0: Memory, t0: Tree, free0: seq<nat>, m1: Memory, t1: Tree, free1: seq<nat>, lo: nat,
                   v: nat, frames: seq<nat>)
    requires IsTree(m0, lo, t0) && IsTree(m1, lo, t1) && Spans(t0, t1, v, |frames|)
    requires Accounted(free0, t0, free1, t1, frames)
    ensures |free0| == |free1| + Demand(t0, v, |frames|)
  {
    hide IsTree, Spans, Missing;
    SpansSize(m0, t0, m1, t1, lo, v, |frames|);
  }

  /** A growth that had no room for its next page had less than the whole of it demands. */
  lemma TooLittle(m0: Memory, t0: Tree, free0: seq<nat>, m1: Memory, t1: Tree, free1: seq<nat>, lo: nat,
                  v: nat, frames: seq<nat>, n: nat)
    requires IsTree(m0, lo, t0) && IsTree(m1, lo, t1) && Spans(t0, t1, v, |frames|) && |frames| < n
    requires Accounted(free0, t0, free1, t1, frames) && |free1| < 1 + Missing(t1, v + |frames|, 1)
    ensures |free0| < Demand(t0, v, n)
  {
    hide IsTree, Spans, Missing, Accounted;
    AsDemanded(m0, t0, free0, m1, t1, free1, lo, v, frames);
    MissingMore(t0, t1, v, |frames|);
    MissingGrows(t0, v, |frames| + 1, n);
  }

  function Repeat<T>(x: T, n: nat): (s: seq<T>)
    ensures |s| == n && forall i :: 0 <= i < n ==> s[i] == x
  {
    seq(n, _ => x)
  }

  datatype GrowResult = Size(sz: nat) | NoRoom | GrowPanic

  /** A page in the way of the growth. */
  ghost predicate Blocked(mem: Memory, t: Tree, v: nat) {
    v * PGSIZE >= MAXVA || Lookup(mem, t, v * PGSIZE).Some?
  }

  lemma BlockedStays(m0: Memory, t0: Tree, m1: Memory, t1: Tree, v: nat, frames: seq<nat>, perms: seq<nat>)
    requires BoundTo(m0, t0, m1, t1, v, frames, perms)
    requires (v + |frames|) * PGSIZE >= MAXVA || Lookup(m1, t1, (v + |frames|) * PGSIZE).Some?
    ensures Blocked(m0, t0, v + |frames|)
  {
    hide Lookup, Entry;
    assert (v + |frames|) * PGSIZE / PGSIZE == v + |frames|;
  }

  /** The rights of a user page: PTE_R | PTE_U | xperm. */
  function UserPerm(xperm: nat): (perm: nat)
    requires xperm < 1024
    ensures perm < 1024 && forall k: nat :: Bit(perm, k) <==> k == 1 || k == 4 || Bit(xperm, k)
  {
    TenBits();
    SetFits(xperm, 1, 10);
    SetFits(SetBit(xperm, 1), 4, 10);
    assert forall k: nat :: Bit(SetBit(SetBit(xperm, 1), 4), k) <==> k == 1 || k == 4 || Bit(xperm, k) by {
      forall k: nat ensures Bit(SetBit(SetBit(xperm, 1), 4), k) <==> k == 1 || k == 4 || Bit(xperm, k) {
        SetBits(xperm, 1, k);
        SetBits(SetBit(xperm, 1), 4, k);
      }
    }
    SetBit(SetBit(xperm, 1), 4)
  }

  lemma TenBits()
    ensures Mask(10) == 1024
  {
    assert Mask(5) == 32;
  }

  /** uvmalloc(): NoRoom stands for the result 0 with which it reports failure. */
  method Uvmalloc(m: Mem, pagetable: nat, oldsz: nat, newsz: nat, xperm: nat, ghost t: Tree)
    returns (r: GrowResult, ghost t': Tree, ghost frames: seq<nat>)
    requires Table(m, t) && pagetable == t.root * PGSIZE && xperm < 1024
    modifies m, m.mem
    ensures !r.GrowPanic? ==> Table(m, t') && Untouched(old(m.mem[..]), m.mem[..], old(m.free), t)
    ensures r.Size? && newsz < oldsz ==>
              r.sz == oldsz && t' == t && frames == [] && m.mem[..] == old(m.mem[..]) && m.free == old(m.free)
    ensures r.Size? && newsz >= oldsz ==>
              && r.sz == newsz && |frames| == NPages(newsz) - NPages(oldsz)
              && Growing(old(m.mem[..]), t, old(m.free), m.mem[..], t', m.free, NPages(oldsz), frames,
                         Repeat(UserPerm(xperm), |frames|), Repeat(Filled(0), |frames|))
              && forall i :: 0 <= i < |frames| ==> m.lo <= frames[i] < m.mem.Length
    ensures r.Size? && newsz >= oldsz ==> |old(m.free)| == |m.free| + Demand(t, NPages(oldsz), |frames|)
    ensures r.NoRoom? ==> SameMap(old(m.mem[..]), t, m.mem[..], t') && Accounted(old(m.free), t, m.free, t', [])
    ensures r.NoRoom? ==>
              newsz > oldsz && |old(m.free)| < Demand(t, NPages(oldsz), NPages(newsz) - NPages(oldsz))
    ensures r.GrowPanic? ==> exists v :: NPages(oldsz) <= v < NPages(newsz) && Blocked(old(m.mem[..]), t, v)
  {
    hide IsTree, FreeList, Lookup, Growing, BoundTo, Accounted, Untouched, SameMap, Owned, Leaves, NPages, PgRoundUp,
        Blocked, Filled, Frames, Unbound, OnlyTableAnd, Spans, Missing, Demand;
    t', frames := t, [];
    ghost var mem, free, v, perm := m.mem[..], m.free, NPages(oldsz), UserPerm(xperm);
    GrowingStart(mem, t, free, v);
    GrowingParts(mem, t, free, mem, t, free, v, [], [], []);
    if newsz < oldsz { return Size(oldsz), t, []; }
    RoundUpPages(oldsz, newsz);
    RoundUpPages(newsz, newsz);
    assert Repeat(perm, 0) == [] && Repeat(Filled(0), 0) == [];
    SpansNone(t, v);
    var start := PgRoundUp(oldsz);
    var a := start;
    while a < newsz
      invariant a == (v + |frames|) * PGSIZE && v + |frames| <= NPages(newsz) && Table(m, t')
      invariant Spans(t, t', v, |frames|)
      invariant Growing(mem, t, free, m.mem[..], t', m.free, v, frames, Repeat(perm, |frames|),
          Repeat(Filled(0), |frames|))
      invariant forall i :: 0 <= i < |frames| ==> m.lo <= frames[i] < m.mem.Length
    {
      ghost var mem1, t1, free1 := m.mem[..], t', m.free;
      GrowingParts(mem, t, free, mem1, t1, free1, v, frames, Repeat(perm, |frames|), Repeat(Filled(0), |frames|));
      var added, f;
      FilledPage();
      added, f, t' := AddPage(m, pagetable, a, Filled(0), UserPerm(xperm), t1);
      assert NPages(newsz) * PGSIZE >= newsz;
      if added.MapPanic? {
        BlockedStays(mem, t, mem1, t1, v, frames, Repeat(perm, |frames|));
        return GrowPanic, t', frames;
      }
      if added.NoMemory? {
        TooLittle(mem, t, free, mem1, t1, free1, m.lo, v, frames, NPages(newsz) - v);
        GrowingSame(mem, t, free, mem1, t1, free1, m.mem[..], t', m.free, v, frames, Repeat(perm, |frames|),
            Repeat(Filled(0), |frames|));
        GrowingParts(mem, t, free, m.mem[..], t', m.free, v, frames, Repeat(perm, |frames|),
            Repeat(Filled(0), |frames|));
        Restore(m, pagetable, a, start, t, t', mem, free, v, frames, Repeat(perm, |frames|),
            Repeat(Filled(0), |frames|));
        return NoRoom, t', [];
      }
      GrowingMore(mem, t, free, mem1, t1, free1, m.mem[..], t', m.free, v, frames, Repeat(perm, |frames|),
                  Repeat(Filled(0), |frames|), f, perm, Filled(0));
      SpansMore(t, t1, t', v, |frames|);
      assert Repeat(perm, |frames|) + [perm] == Repeat(perm, |frames + [f]|);
      assert Repeat(Filled(0), |frames|) + [Filled(0)] == Repeat(Filled(0), |frames + [f]|);
      frames := frames + [f];
      a := a + PGSIZE;
    }
    GrowingParts(mem, t, free, m.mem[..], t', m.free, v, frames, Repeat(perm, |frames|), Repeat(Filled(0), |frames|));
    AsDemanded(mem, t, free, m.mem[..], t', m.free, m.lo, v, frames);
    r := Size(newsz);
  }

  lemma FilledPage()
    ensures |Filled(0)| == 512
  {
  }

  lemma GrowingParts(m0: Memory, t0: Tree, free0: seq<nat>, m1: Memory, t1: Tree, free1: seq<nat>,
                     v: nat, frames: seq<nat>, perms: seq<nat>, pages: seq<Page>)
    requires Growing(m0, t0, free0, m1, t1, free1, v, frames, perms, pages)
    ensures BoundTo(m0, t0, m1, t1, v, frames, perms) && Accounted(free0, t0, free1, t1, frames)
    ensures Untouched(m0, m1, free0, t0) && t1.root == t0.root && |perms| == |pages| == |frames|
  {
    hide BoundTo;
  }

  /** uvmalloc()'s way out: uvmdealloc(pagetable, a, oldsz). */
  method Restore(m: Mem, pagetable: nat, a: nat, start: nat, ghost t: Tree, ghost t1: Tree, ghost mem: Memory,
      ghost free: seq<nat>,
                 ghost v: nat, ghost frames: seq<nat>, ghost perms: seq<nat>, ghost pages: seq<Page>)
    requires Table(m, t1) && pagetable == t1.root * PGSIZE && start == v * PGSIZE && a == (v + |frames|) * PGSIZE
    requires Growing(mem, t, free, m.mem[..], t1, m.free, v, frames, perms, pages)
    requires forall i :: 0 <= i < |frames| ==> m.lo <= frames[i]
    modifies m, m.mem
    ensures Table(m, t1) && SameMap(mem, t, m.mem[..], t1) && Accounted(free, t, m.free, t1, [])
    ensures Untouched(mem, m.mem[..], free, t)
  {
    hide IsTree, FreeList, Lookup, Growing, Accounted, Untouched, SameMap, Owned, Leaves, NPages, Frames, Unbound,
        OnlyTableAnd;
    ghost var mem1, free1 := m.mem[..], m.free;
    PagesOf(v);
    PagesOf(v + |frames|);
    GrownOwned(mem, t, free, m.lo, mem1, t1, free1, v, frames, perms, pages);
    assert Surplus(a, start) == |frames|;
    var ok, sz := Uvmdealloc(m, pagetable, a, start, t1);
    Undone(mem, t, free, m.lo, mem1, t1, free1, m.mem[..], m.free, v, frames, perms, pages);
  }

  lemma PagesOf(v: nat)
    ensures NPages(v * PGSIZE) == v
  {
  }

  // ---------- uvmcopy() ----------

  /** What the first n pages of a parent must be for its memory to be copied and the copy undone. */
  ghost predicate UserPages(mem: Memory, lo: nat, free: seq<nat>, t: Tree, n: nat, child: Tree) {
    forall i {:trigger FrameAt(mem, t, i)} :: 0 <= i < n && Lookup(mem, t, i * PGSIZE).Some? ==>
      && lo <= FrameAt(mem, t, i) < |mem| && FrameAt(mem, t, i) !in free && FrameAt(mem, t, i) !in child.pages
      && Leaf(mem, t, i)
  }

  /** The rights and the contents of the parent's first pages. */
  ghost predicate Copied(mem: Memory, t: Tree, perms: seq<nat>, pages: seq<Page>) {
    && |perms| == |pages|
    && forall i {:trigger pages[i]} :: 0 <= i < |pages| ==>
         match Lookup(mem, t, i * PGSIZE)
         case Some(e) => perms[i] == Flags(e) && FrameAt(mem, t, i) < |mem| && pages[i] == mem[FrameAt(mem, t, i)]
         case None => false
  }

  /** Growing one address space does not disturb another. */
  lemma OtherTable(m0: Memory, t0: Tree, free0: seq<nat>, m1: Memory, t1: Tree, free1: seq<nat>, frames: seq<nat>,
                   lo: nat, other: Tree)
    requires Accounted(free0, t0, free1, t1, frames) && Untouched(m0, m1, free0, t0) && Pages(m1)
    requires IsTree(m0, lo, other) && other.pages !! t0.pages && forall f :: f in free0 ==> f !in other.pages
    ensures IsTree(m1, lo, other) && SameMap(m0, other, m1, other)
    ensures other.pages !! t1.pages && forall f :: f in free1 ==> f !in other.pages
  {
    hide IsTree, Lookup;
    assert forall f :: f in other.pages ==> f !in ToSet(free0) + t0.pages;
    SameTablesMap(m0, m1, lo, other);
  }

  datatype CopyResult = Copied | CopyNoRoom | CopyPanic

  /** A page that stops uvmcopy() with a panic. */
  ghost predicate Uncopyable(mem: Memory, parent: Tree, child: Tree, v: nat) {
    v * PGSIZE >= MAXVA || Lookup(mem, parent, v * PGSIZE) == None || Lookup(mem, child, v * PGSIZE).Some?
  }

  /** uvmcopy(); CopyNoRoom is its result -1. */
  method Uvmcopy(m: Mem, parentpt: nat, childpt: nat, sz: nat, ghost parent: Tree, ghost child: Tree)
    returns (r: CopyResult, ghost child': Tree, ghost frames: seq<nat>, ghost perms: seq<nat>, ghost pages: seq<Page>)
    requires Table(m, parent) && Table(m, child) && parent.pages !! child.pages
    requires parentpt == parent.root * PGSIZE && childpt == child.root * PGSIZE
    requires UserPages(m.mem[..], m.lo, m.free, parent, NPages(sz), child)
    modifies m, m.mem
    ensures !r.CopyPanic? ==>
              && Table(m, parent) && SameMap(old(m.mem[..]), parent, m.mem[..], parent)
              && Table(m, child') && parent.pages !! child'.pages
                  && Untouched(old(m.mem[..]), m.mem[..], old(m.free), child)
    ensures r.Copied? ==>
              && Growing(old(m.mem[..]), child, old(m.free), m.mem[..], child', m.free, 0, frames, perms, pages)
              && |frames| == NPages(sz) && Copied(old(m.mem[..]), parent, perms, pages)
    ensures r.Copied? ==> |old(m.free)| == |m.free| + Demand(child, 0, NPages(sz))
    ensures r.CopyNoRoom? ==>
              SameMap(old(m.mem[..]), child, m.mem[..], child') && Accounted(old(m.free), child, m.free, child', [])
    ensures r.CopyNoRoom? ==> |old(m.free)| < Demand(child, 0, NPages(sz))
    ensures r.CopyPanic? ==> exists v :: 0 <= v < NPages(sz) && Uncopyable(old(m.mem[..]), parent, child, v)
  {
    hide IsTree, FreeList, Lookup, Growing, BoundTo, Accounted, Untouched, SameMap, NPages, IsV, Frame, Flags, Ptr, Px,
        Copied, UserPages, Uncopyable, Frames, FrameAt, Leaf, Spans, Missing, Demand, Climbed;
    child', frames, perms, pages := child, [], [], [];
    ghost var mem, free := m.mem[..], m.free;
    GrowingStart(mem, child, free, 0);
    RoundUpPages(sz, sz);
    SpansNone(child, 0);
    assert Copied(mem, parent, [], []) by { NothingCopied(mem, parent); }
    var i := 0;
    while i < sz
      invariant i == |frames| * PGSIZE && |frames| <= NPages(sz) && Table(m, child')
      invariant Spans(child, child', 0, |frames|)
      invariant Growing(mem, child, free, m.mem[..], child', m.free, 0, frames, perms, pages)
      invariant Copied(mem, parent, perms, pages) && forall j :: 0 <= j < |frames| ==> m.lo <= frames[j]
    {
      ghost var mem1, t1, free1 := m.mem[..], child', m.free;
      GrowingParts(mem, child, free, mem1, t1, free1, 0, frames, perms, pages);
      OtherTable(mem, child, free, mem1, t1, free1, frames, m.lo, parent);
      assert Table(m, parent);
      var w, g := Walk(m, parentpt, i, false, parent);
      if !w.Pte? {
        if w.Null? { SameAt(mem, parent, mem1, parent, i); }
        NotThere(mem, parent, child, |frames|);
        return CopyPanic, child', frames, perms, pages;
      }
      SameAt(mem, parent, mem1, parent, i);
      LeafEntry(mem1, m.lo, parent, i, w.frame);
      var e := m.mem[w.frame][w.index];
      if !IsV(e) {
        NotThere(mem, parent, child, |frames|);
        return CopyPanic, child', frames, perms, pages;
      }
      ParentPage(mem, m.lo, free, parent, NPages(sz), child, mem1, |frames|, e);
      var page, flags := m.mem[Frame(e)], Flags(e);
      var added, f;
      added, f, child' := AddPage(m, childpt, i, page, flags, t1);
      if added.MapPanic? {
        BlockedStays(mem, child, mem1, t1, 0, frames, perms);
        InTheWay(mem, parent, child, |frames|);
        return CopyPanic, child', frames, perms, pages;
      }
      if added.NoMemory? {
        TooLittle(mem, child, free, mem1, t1, free1, m.lo, 0, frames, NPages(sz));
        GrowingSame(mem, child, free, mem1, t1, free1, m.mem[..], child', m.free, 0, frames, perms, pages);
        GrowingParts(mem, child, free, m.mem[..], child', m.free, 0, frames, perms, pages);
        UndoCopy(m, childpt, i, child, child', mem, free, frames, perms, pages);
        OtherTable(mem, child, free, m.mem[..], child', m.free, [], m.lo, parent);
        return CopyNoRoom, child', [], [], [];
      }
      GrowingMore(mem, child, free, mem1, t1, free1, m.mem[..], child', m.free, 0, frames, perms, pages, f, flags,
          page);
      SpansMore(child, t1, child', 0, |frames|);
      CopiedMore(mem, parent, perms, pages, flags, page, e);
      frames, perms, pages := frames + [f], perms + [flags], pages + [page];
      i := i + PGSIZE;
    }
    GrowingParts(mem, child, free, m.mem[..], child', m.free, 0, frames, perms, pages);
    AsDemanded(mem, child, free, m.mem[..], child', m.free, m.lo, 0, frames);
    OtherTable(mem, child, free, m.mem[..], child', m.free, frames, m.lo, parent);
    r := CopyResult.Copied;
  }

  lemma NothingCopied(mem: Memory, t: Tree)
    ensures Copied(mem, t, [], [])
  {
  }

  lemma NotThere(mem: Memory, parent: Tree, child: Tree, v: nat)
    requires v * PGSIZE >= MAXVA || Lookup(mem, parent, v * PGSIZE) == None
    ensures Uncopyable(mem, parent, child, v)
  {
  }

  lemma InTheWay(mem: Memory, parent: Tree, child: Tree, v: nat)
    requires Blocked(mem, child, 0 + v)
    ensures Uncopyable(mem, parent, child, v)
  {
  }

  lemma ParentPage(mem: Memory, lo: nat, free: seq<nat>, parent: Tree, n: nat, child: Tree, now: Memory, i: nat, e: int)
    requires UserPages(mem, lo, free, parent, n, child) && i < n && Lookup(mem, parent, i * PGSIZE) == Some(e) && IsV(e)
    requires Untouched(mem, now, free, child) && Pages(now) && 0 < lo
    ensures Frame(e) == FrameAt(mem, parent, i) < |now| && now[Frame(e)] == mem[Frame(e)] && |now[Frame(e)]| == 512
    ensures 2 <= Flags(e) < 1024
  {
    hide Lookup, IsV, Flags, Frame;
    LeafFlags(e);
    var f := FrameAt(mem, parent, i);
    assert f == if Frame(e) >= 0 then Frame(e) else 0;
    assert Leaf(mem, parent, i);
  }

  lemma LeafFlags(e: int)
    requires IsV(e)
    ensures Flags(e) % 2 == 1 && Flags(e) < 1024
  {
    var q, h := e / 1024, e / 2;
    assert e == 2 * h + 1;
    assert Flags(e) == 2 * (h - 512 * q) + 1;
  }

  lemma CopiedMore(mem: Memory, parent: Tree, perms: seq<nat>, pages: seq<Page>, perm: nat, page: Page, e: int)
    requires Copied(mem, parent, perms, pages) && Lookup(mem, parent, |pages| * PGSIZE) == Some(e) && perm == Flags(e)
    requires FrameAt(mem, parent, |pages|) < |mem| && page == mem[FrameAt(mem, parent, |pages|)]
    ensures Copied(mem, parent, perms + [perm], pages + [page])
  {
    hide Lookup, FrameAt, Flags;
    var ps, qs := perms + [perm], pages + [page];
    forall i | 0 <= i < |qs|
      ensures match Lookup(mem, parent, i * PGSIZE)
              case Some(x) => ps[i] == Flags(x) && FrameAt(mem, parent, i) < |mem|
                  && qs[i] == mem[FrameAt(mem, parent, i)]
              case None => false
    {
      if i < |pages| { assert qs[i] == pages[i] && ps[i] == perms[i]; }
    }
  }

  /** uvmcopy()'s way out: uvmunmap(new, 0, i / PGSIZE, 1). */
  method UndoCopy(m: Mem, childpt: nat, i: nat, ghost t: Tree, ghost t1: Tree, ghost mem: Memory, ghost free: seq<nat>,
                  ghost frames: seq<nat>, ghost perms: seq<nat>, ghost pages: seq<Page>)
    requires Table(m, t1) && childpt == t1.root * PGSIZE && i == |frames| * PGSIZE
    requires Growing(mem, t, free, m.mem[..], t1, m.free, 0, frames, perms, pages)
    requires forall j :: 0 <= j < |frames| ==> m.lo <= frames[j]
    modifies m, m.mem
    ensures Table(m, t1) && SameMap(mem, t, m.mem[..], t1) && Accounted(free, t, m.free, t1, [])
    ensures Untouched(mem, m.mem[..], free, t)
  {
    hide IsTree, FreeList, Lookup, Growing, Accounted, Untouched, SameMap, Owned, Leaves, Frames, Unbound, OnlyTableAnd;
    ghost var mem1, free1 := m.mem[..], m.free;
    GrownOwned(mem, t, free, m.lo, mem1, t1, free1, 0, frames, perms, pages);
    var ok, k := Unmap(m, childpt, 0, i / PGSIZE, true, t1);
    Undone(mem, t, free, m.lo, mem1, t1, free1, m.mem[..], m.free, 0, frames, perms, pages);
  }
}
