/**
 Physical memory and the free page list (kalloc.c).

 A page is 512 64-bit words.  Addresses are byte addresses; frame f is the page
 at address f * PGSIZE.  The links of the free list are kept in the first word
 of the free pages themselves, 0 ending the list.
 */
module PageAllocator {

  const PGSIZE: nat := 4096

  type Page = seq<int>
  type Memory = seq<Page>

  function PgRoundUp(sz: nat): (r: nat) { (sz + PGSIZE - 1) / PGSIZE * PGSIZE }
  function PgRoundDown(a: nat): (r: nat) { a / PGSIZE * PGSIZE }

  function Filled(w: int): (p: Page) { seq(512, _ => w) }

  /** Each byte set to 1 by kfree(), to 5 by kalloc(). */
  const FREED: int := 0x0101_0101_0101_0101
  const FRESH: int := 0x0505_0505_0505_0505

  function ToSet(s: seq<nat>): set<nat> { set x | x in s }

  ghost predicate Pages(mem: Memory) {
    forall f :: 0 <= f < |mem| ==> |mem[f]| == 512
  }

  /** free lists, head first, the frames linked from freelist. */
  ghost predicate FreeList(mem: Memory, lo: nat, freelist: nat, free: seq<nat>) {
    && Pages(mem) && 0 < lo
    && freelist == (if free == [] then 0 else free[0] * PGSIZE)
    && (forall i :: 0 <= i < |free| ==> lo <= free[i] < |mem|)
    && (forall i, j :: 0 <= i < j < |free| ==> free[i] != free[j])
    && (forall i {:trigger mem[free[i]]} :: 0 <= i < |free| ==>
          mem[free[i]][0] == if i + 1 < |free| then free[i + 1] * PGSIZE else 0)
  }

  lemma PushFree(mem: Memory, lo: nat, freelist: nat, free: seq<nat>, f: nat)
    requires FreeList(mem, lo, freelist, free) && lo <= f < |mem| && f !in free
    ensures FreeList(mem[f := Filled(FREED)[0 := freelist]], lo, f * PGSIZE, [f] + free)
  {
    var now, fs := mem[f := Filled(FREED)[0 := freelist]], [f] + free;
    forall i | 0 <= i < |fs|
      ensures now[fs[i]][0] == if i + 1 < |fs| then fs[i + 1] * PGSIZE else 0
    {
      if i > 0 { assert fs[i] == free[i - 1] && now[fs[i]] == mem[free[i - 1]]; }
    }
  }

  /** A page freed while it is free links the list into a ring, which is no list. */
  lemma DoubleFree(mem: Memory, lo: nat, freelist: nat, free: seq<nat>, f: nat, fs: seq<nat>)
    requires FreeList(mem, lo, freelist, free) && lo <= f < |mem| && f in free
    ensures !FreeList(mem[f := Filled(FREED)[0 := freelist]], lo, f * PGSIZE, fs)
  {
    var now := mem[f := Filled(FREED)[0 := freelist]];
    if FreeList(now, lo, f * PGSIZE, fs) {
      var k :| 0 <= k < |free| && free[k] == f;
      assert fs != [] && fs[0] == f && now[fs[0]][0] == freelist;
      Follows(mem, now, lo, freelist, free, fs, k);
      assert false;
    }
  }

  lemma {:induction false} Follows(mem: Memory, now: Memory, lo: nat, freelist: nat, free: seq<nat>, fs: seq<nat>,
      k: nat)
    requires FreeList(mem, lo, freelist, free) && k < |free| && |now| == |mem| && fs != [] && lo <= fs[0]
    requires FreeList(now, lo, fs[0] * PGSIZE, fs) && now[fs[0]][0] == freelist
    requires forall g :: 0 <= g < |mem| && g != fs[0] ==> now[g] == mem[g]
    requires forall i :: 0 <= i < k ==> free[i] != fs[0]
    ensures k + 1 < |fs| && fs[k + 1] == free[k]
  {
    if k == 0 {
      assert now[fs[0]][0] == if 1 < |fs| then fs[1] * PGSIZE else 0;
    } else {
      Follows(mem, now, lo, freelist, free, fs, k - 1);
      assert now[fs[k]][0] == if k + 1 < |fs| then fs[k + 1] * PGSIZE else 0;
      assert mem[free[k - 1]][0] == free[k] * PGSIZE;
    }
  }

  lemma PopFree(mem: Memory, lo: nat, freelist: nat, free: seq<nat>)
    requires FreeList(mem, lo, freelist, free) && free != []
    ensures freelist / PGSIZE == free[0] && freelist != 0
    ensures FreeList(mem, lo, mem[free[0]][0], free[1..])
    ensures free[0] !in free[1..]
  {
    var fs := free[1..];
    assert mem[free[0]][0] == if 1 < |free| then free[1] * PGSIZE else 0;
    forall i | 0 <= i < |fs| ensures mem[fs[i]][0] == if i + 1 < |fs| then fs[i + 1] * PGSIZE else 0 {
      assert fs[i] == free[i + 1] && mem[free[i + 1]][0] == if i + 2 < |free| then free[i + 2] * PGSIZE else 0;
    }
  }

  /** A page that is not on the free list may hold anything. */
  lemma SetUsed(mem: Memory, lo: nat, freelist: nat, free: seq<nat>, f: nat, p: Page)
    requires FreeList(mem, lo, freelist, free) && f < |mem| && f !in free && |p| == 512
    ensures FreeList(mem[f := p], lo, freelist, free)
  {
    var now := mem[f := p];
    forall i | 0 <= i < |free| ensures now[free[i]][0] == if i + 1 < |free| then free[i + 1] * PGSIZE else 0 {
      assert now[free[i]] == mem[free[i]];
    }
  }

  class Mem {
    /** All of physical memory; frames from lo up are kalloc()'s. */
    const mem: array<Page>
    const lo: nat
    var freelist: nat
    ghost var free: seq<nat>

    ghost predicate Valid()
      reads this, mem
      ensures Valid() ==> 0 < lo && Pages(mem[..]) && forall i :: 0 <= i < |free| ==> lo <= free[i] < mem.Length
    {
      FreeList(mem[..], lo, freelist, free)
    }

    /** kinit(): freerange(end, PHYSTOP) frees every whole page above the kernel. */
    constructor (end: nat, phystop: nat)
      requires 0 < end
      ensures Valid() && fresh(mem)
      ensures lo == PgRoundUp(end) / PGSIZE && mem.Length == phystop / PGSIZE
      ensures forall f: nat :: f in free <==> lo <= f < mem.Length
    {
      var l := PgRoundUp(end) / PGSIZE;
      lo := l;
      mem := new Page[phystop / PGSIZE](_ => Filled(0));
      freelist := 0;
      free := [];
      new;
      var p := l;
      while p < mem.Length
        invariant l <= p && (p <= mem.Length || p == l) && Valid() && lo == l
        invariant forall f: nat :: f in free <==> lo <= f < p
      {
        Push(p);
        p := p + 1;
      }
    }

    /** The end of kfree(): the page becomes the first of the list. */
    method Push(f: nat)
      requires Valid() && lo <= f < mem.Length
      modifies this, mem
      ensures mem[..] == old(mem[..])[f := Filled(FREED)[0 := old(freelist)]] && freelist == f * PGSIZE
      ensures f !in old(free) ==> Valid() && free == [f] + old(free)
      ensures f in old(free) ==> forall fs :: !FreeList(mem[..], lo, freelist, fs)
    {
      hide FreeList;
      ghost var was := mem[..];
      var page := Filled(FREED);
      ghost var now := was[f := Filled(FREED)[0 := freelist]];
      if f !in free {
        PushFree(was, lo, freelist, free, f);
      } else {
        forall fs ensures !FreeList(now, lo, f * PGSIZE, fs) { DoubleFree(was, lo, freelist, free, f, fs); }
      }
      mem[f] := page[0 := freelist];
      assert mem[..] == now;
      freelist := f * PGSIZE;
      free := [f] + free;
    }

    /** kfree(); false is its panic.  What is on the list stays one exactly if the page was not on it already. */
    method Kfree(pa: nat) returns (ok: bool)
      requires Valid()
      modifies this, mem
      ensures ok <==> pa % PGSIZE == 0 && lo <= pa / PGSIZE < mem.Length
      ensures Valid() <==> !ok || pa / PGSIZE !in old(free)
      ensures ok && pa / PGSIZE !in old(free) ==> free == [pa / PGSIZE] + old(free)
      ensures ok && pa / PGSIZE in old(free) ==> forall fs :: !FreeList(mem[..], lo, freelist, fs)
      ensures forall f :: 0 <= f < mem.Length && f != pa / PGSIZE ==> mem[f] == old(mem[f])
      ensures !ok ==> free == old(free) && mem[..] == old(mem[..])
    {
      if pa % PGSIZE != 0 || pa / PGSIZE < lo || pa / PGSIZE >= mem.Length {
        return false;
      }
      Push(pa / PGSIZE);
      return true;
    }

    /** kalloc(): the head of the list, or 0. */
    method Kalloc() returns (pa: nat)
      requires Valid()
      modifies this, mem
      ensures Valid()
      ensures pa == 0 <==> old(free) == []
      ensures pa == 0 ==> free == [] && mem[..] == old(mem[..])
      ensures pa != 0 ==>
                && pa == old(free)[0] * PGSIZE && free == old(free)[1..] && old(free)[0] !in free
                && mem[..] == old(mem[..])[old(free)[0] := Filled(FRESH)]
    {
      hide FreeList;
      pa := freelist;
      if pa != 0 {
        HeadOf();
        PopFree(mem[..], lo, freelist, free);
        ghost var was := mem[..];
        var f := pa / PGSIZE;
        freelist := mem[f][0];
        free := free[1..];
        SetUsed(was, lo, freelist, free, f, Filled(FRESH));
        mem[f] := Filled(FRESH);
        assert mem[..] == was[f := Filled(FRESH)];
      } else {
        HeadOf();
      }
    }

    lemma HeadOf()
      requires Valid()
      ensures freelist == 0 <==> free == []
      ensures freelist != 0 ==> freelist == free[0] * PGSIZE && freelist / PGSIZE == free[0]
    {
    }

    /** A store to a page in use. */
    method Store(f: nat, p: Page)
      requires Valid() && f < mem.Length && f !in free && |p| == 512
      modifies mem
      ensures Valid() && mem[..] == old(mem[..])[f := p]
    {
      hide FreeList;
      SetUsed(mem[..], lo, freelist, free, f, p);
      ghost var was := mem[..];
      mem[f] := p;
      assert mem[..] == was[f := p];
    }
  }
}
