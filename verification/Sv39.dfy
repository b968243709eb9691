/**
 Sv39 page tables (riscv.h, and section 4.4 of the RISC-V Privileged
 Architecture): three levels of 512-entry pages, and the finite map from page
 numbers to leaf entries that they stand for.
 */
module Sv39 {
  import opened Common
  import opened PageAllocator

  /** One bit less than Sv39 allows, to avoid sign extension. */
  const MAXVA: nat := 0x40_0000_0000

  // ---------- entries ----------

  predicate IsV(e: int) { e % 2 == 1 }
  function Flags(e: int): nat { e % 1024 }
  /** PTE2PA(e) is Frame(e) * PGSIZE. */
  function Frame(e: int): int { e / 1024 }

  /** PA2PTE(pa) | perm | PTE_V */
  function Entry(pa: nat, perm: nat): (e: int)
    requires perm < 1024
    ensures IsV(e) && Frame(e) == pa / PGSIZE
    ensures Flags(e) == if perm % 2 == 1 then perm else perm + 1
  {
    pa / PGSIZE * 1024 + if perm % 2 == 1 then perm else perm + 1
  }

  /** PA2PTE(pagetable) | PTE_V for the page table page in frame f. */
  function Ptr(f: nat): (e: int)
    ensures IsV(e) && Frame(e) == f && Flags(e) == 1
  {
    assert f * 1024 + 1 == 2 * (f * 512) + 1;
    f * 1024 + 1
  }

  /** The three 9-bit indices of an address. */
  function Px(level: nat, va: nat): (i: nat)
    requires level <= 2
    ensures i < 512
  {
    va / (if level == 0 then 0x1000 else if level == 1 then 0x20_0000 else 0x4000_0000) % 512
  }

  /** Together they are the page number, so no two pages share a leaf entry. */
  lemma PxDeterminePage(va: nat, vb: nat)
    requires va < MAXVA && vb < MAXVA
    ensures va / PGSIZE == (Px(2, va) * 512 + Px(1, va)) * 512 + Px(0, va)
    ensures (Px(2, va) == Px(2, vb) && Px(1, va) == Px(1, vb) && Px(0, va) == Px(0, vb)) <==> va / PGSIZE == vb / PGSIZE
  {
    var v, w := va / PGSIZE, vb / PGSIZE;
    assert va / 0x20_0000 == v / 512 && va / 0x4000_0000 == v / 512 / 512;
    assert vb / 0x20_0000 == w / 512 && vb / 0x4000_0000 == w / 512 / 512;
  }

  lemma PxBelowMax(va: nat)
    requires va < MAXVA
    ensures Px(2, va) < 256
  {
  }

  /** The address with given indices. */
  function VaOf(a: nat, b: nat, c: nat): (va: nat)
    requires a < 256 && b < 512 && c < 512
    ensures va < MAXVA && Px(2, va) == a && Px(1, va) == b && Px(0, va) == c
  {
    var v := (a * 512 + b) * 512 + c;
    assert v * 0x1000 / 0x20_0000 == a * 512 + b && v * 0x1000 / 0x4000_0000 == a;
    v * 0x1000
  }

  // ---------- what the hardware sees ----------

  /** A 64-bit load from word i of frame f. */
  function Load(mem: Memory, f: int, i: nat): int
  {
    if 0 <= f < |mem| && i < |mem[f]| then mem[f][i] else 0
  }

  /** The leaf entry the three-level lookup finds for va, if the address is mapped. */
  function Translate(mem: Memory, root: nat, va: nat): Option<int>
  {
    var e2 := Load(mem, root, Px(2, va));
    if !IsV(e2) then None else
      var e1 := Load(mem, Frame(e2), Px(1, va));
      if !IsV(e1) then None else
        var e0 := Load(mem, Frame(e1), Px(0, va));
        if IsV(e0) then Some(e0) else None
  }

  // ---------- the shape of a page table ----------

  /** A level-2 and a level-1 index. */
  datatype Slot = Slot(a: nat, b: nat)

  /**
   Which frames hold the table: mid by level-2 index, low by level-2 and level-1
   index, and pages altogether.
   */
  datatype Tree = Tree(root: nat, mid: map<nat, nat>, low: map<Slot, nat>, pages: set<nat>)

  ghost predicate Separate(t: Tree) {
    && t.root in t.pages
    && (forall a :: a in t.mid ==> t.mid[a] in t.pages && t.mid[a] != t.root)
    && (forall x :: x in t.low ==> t.low[x] in t.pages && t.low[x] != t.root)
    && (forall a, x :: a in t.mid && x in t.low ==> t.mid[a] != t.low[x])
    && (forall a, a' :: a in t.mid && a' in t.mid && t.mid[a] == t.mid[a'] ==> a == a')
    && (forall x, x' :: x in t.low && x' in t.low && t.low[x] == t.low[x'] ==> x == x')
  }

  /** pages lists nothing but the root, the mid and the low pages. */
  ghost predicate Covered(t: Tree) {
    forall f :: f in t.pages ==> f == t.root || f in t.mid.Values || f in t.low.Values
  }

  ghost predicate InRange(mem: Memory, lo: nat, t: Tree) {
    Pages(mem) && forall f :: f in t.pages ==> lo <= f < |mem|
  }

  ghost predicate MidOk(mem: Memory, t: Tree) {
    && (forall a :: a in t.mid ==> a < 256 && Load(mem, t.root, a) == Ptr(t.mid[a]))
    && (forall a: nat :: a < 512 && IsV(Load(mem, t.root, a)) ==> a in t.mid)
  }

  ghost predicate LowOk(mem: Memory, t: Tree) {
    && (forall x :: x in t.low ==> x.a in t.mid && x.b < 512 && Load(mem, t.mid[x.a], x.b) == Ptr(t.low[x]))
    && (forall a, b: nat :: a in t.mid && b < 512 && IsV(Load(mem, t.mid[a], b)) ==> Slot(a, b) in t.low)
  }

  ghost predicate IsTree(mem: Memory, lo: nat, t: Tree) {
    InRange(mem, lo, t) && Separate(t) && Covered(t) && MidOk(mem, t) && LowOk(mem, t)
  }

  /** The map the table stands for, from page addresses to leaf entries. */
  function Lookup(mem: Memory, t: Tree, va: nat): Option<int> {
    var x := Slot(Px(2, va), Px(1, va));
    if x in t.low && IsV(Load(mem, t.low[x], Px(0, va))) then Some(Load(mem, t.low[x], Px(0, va))) else None
  }

  /** The hardware's walk of memory computes exactly that map. */
  lemma TranslateIsLookup(mem: Memory, lo: nat, t: Tree, va: nat)
    requires IsTree(mem, lo, t)
    ensures Translate(mem, t.root, va) == Lookup(mem, t, va)
  {
    hide IsV, Frame, Ptr, Px;
    var a, b := Px(2, va), Px(1, va);
    if a in t.mid {
      assert Frame(Load(mem, t.root, a)) == t.mid[a];
      if Slot(a, b) in t.low {
        assert Frame(Load(mem, t.mid[a], b)) == t.low[Slot(a, b)];
      }
    }
  }

  /** Only the table's own pages matter. */
  lemma SameTables(mem: Memory, now: Memory, lo: nat, t: Tree)
    requires IsTree(mem, lo, t) && |now| == |mem| && Pages(now)
    requires forall f :: 0 <= f < |mem| && f in t.pages ==> now[f] == mem[f]
    ensures IsTree(now, lo, t)
    ensures forall va: nat :: Lookup(now, t, va) == Lookup(mem, t, va)
  {
    hide IsV, Frame, Ptr, Px, Covered;
    assert forall f, i: nat :: f in t.pages ==> Load(now, f, i) == Load(mem, f, i);
  }

  // ---------- the stores that change a table ----------

  /** The store of one entry. */
  function Poke(mem: Memory, f: nat, i: nat, e: int): (r: Memory)
    requires f < |mem| && i < |mem[f]|
    ensures |r| == |mem| && (Pages(mem) ==> Pages(r))
    ensures forall g, j: nat :: Load(r, g, j) == if g == f && j == i then e else Load(mem, g, j)
  {
    mem[f := mem[f][i := e]]
  }

  function WithMid(t: Tree, a: nat, f: nat): Tree { t.(mid := t.mid[a := f], pages := t.pages + {f}) }

  function WithLow(t: Tree, x: Slot, f: nat): Tree { t.(low := t.low[x := f], pages := t.pages + {f}) }

  lemma ZeroPage(mem: Memory, f: nat)
    requires f < |mem| && mem[f] == Filled(0)
    ensures forall i: nat :: Load(mem, f, i) == 0 && !IsV(Load(mem, f, i))
  {
  }

  /** walk() hangs a zeroed page under level-2 index a. */
  lemma AddMid(mem: Memory, lo: nat, t: Tree, a: nat, f: nat)
    requires IsTree(mem, lo, t) && a < 256 && !IsV(Load(mem, t.root, a))
    requires lo <= f < |mem| && f !in t.pages && mem[f] == Filled(0)
    ensures IsTree(Poke(mem, t.root, a, Ptr(f)), lo, WithMid(t, a, f))
    ensures forall va: nat :: Lookup(Poke(mem, t.root, a, Ptr(f)), WithMid(t, a, f), va) == Lookup(mem, t, va)
  {
    hide IsV, Frame, Ptr, Px, Covered, LowOk;
    CoveredMid(t, a, f);
    AddMidLow(mem, lo, t, a, f);
  }

  lemma AddMidLow(mem: Memory, lo: nat, t: Tree, a: nat, f: nat)
    requires InRange(mem, lo, t) && Separate(t) && MidOk(mem, t) && LowOk(mem, t)
    requires a < 256 && !IsV(Load(mem, t.root, a))
    requires lo <= f < |mem| && f !in t.pages && mem[f] == Filled(0)
    ensures LowOk(Poke(mem, t.root, a, Ptr(f)), WithMid(t, a, f))
    ensures forall va: nat :: Lookup(Poke(mem, t.root, a, Ptr(f)), WithMid(t, a, f), va) == Lookup(mem, t, va)
  {
    hide IsV, Frame, Ptr, Px;
    ZeroPage(mem, f);
    assert a !in t.mid;
    var now, t' := Poke(mem, t.root, a, Ptr(f)), WithMid(t, a, f);
    forall c, b: nat | c in t'.mid && b < 512 && IsV(Load(now, t'.mid[c], b)) ensures Slot(c, b) in t'.low {
      if c != a { assert Load(now, t.mid[c], b) == Load(mem, t.mid[c], b); }
    }
  }

  lemma CoveredMid(t: Tree, a: nat, f: nat)
    requires Covered(t) && a !in t.mid
    ensures Covered(WithMid(t, a, f))
  {
    var mid := t.mid[a := f];
    assert mid[a] == f && forall x :: x in t.mid ==> mid[x] == t.mid[x];
  }

  /** walk() hangs a zeroed page under level-1 index b of the page under a. */
  lemma AddLow(mem: Memory, lo: nat, t: Tree, a: nat, b: nat, f: nat)
    requires IsTree(mem, lo, t) && a in t.mid && b < 512 && !IsV(Load(mem, t.mid[a], b))
    requires lo <= f < |mem| && f !in t.pages && mem[f] == Filled(0)
    ensures IsTree(Poke(mem, t.mid[a], b, Ptr(f)), lo, WithLow(t, Slot(a, b), f))
    ensures forall va: nat ::
        Lookup(Poke(mem, t.mid[a], b, Ptr(f)), WithLow(t, Slot(a, b), f), va) == Lookup(mem, t, va)
  {
    hide IsV, Frame, Ptr, Px, Covered, LowOk;
    assert Slot(a, b) !in t.low by { NotLow(mem, t, a, b); }
    CoveredLow(t, Slot(a, b), f);
    AddLowLow(mem, t, a, b, f);
    AddLowLookup(mem, t, a, b, f);
  }

  lemma NotLow(mem: Memory, t: Tree, a: nat, b: nat)
    requires LowOk(mem, t) && a in t.mid && b < 512 && !IsV(Load(mem, t.mid[a], b))
    ensures Slot(a, b) !in t.low
  {
    hide IsV, Frame, Ptr, Px;
  }

  lemma AddLowLow(mem: Memory, t: Tree, a: nat, b: nat, f: nat)
    requires Separate(t) && LowOk(mem, t) && a in t.mid && b < 512
    requires t.mid[a] < |mem| && b < |mem[t.mid[a]]|
    requires f !in t.pages && Slot(a, b) !in t.low
    ensures LowOk(Poke(mem, t.mid[a], b, Ptr(f)), WithLow(t, Slot(a, b), f))
  {
    hide IsV, Frame, Ptr, Px;
    var now, t' := Poke(mem, t.mid[a], b, Ptr(f)), WithLow(t, Slot(a, b), f);
    forall x | x in t'.low ensures Load(now, t'.mid[x.a], x.b) == Ptr(t'.low[x]) {
      if x != Slot(a, b) { assert x in t.low && Load(now, t.mid[x.a], x.b) == Load(mem, t.mid[x.a], x.b); }
    }
  }

  lemma AddLowLookup(mem: Memory, t: Tree, a: nat, b: nat, f: nat)
    requires Separate(t) && a in t.mid && f < |mem| && f !in t.pages && mem[f] == Filled(0) && Slot(a, b) !in t.low
    requires t.mid[a] < |mem| && b < |mem[t.mid[a]]|
    ensures forall va: nat ::
        Lookup(Poke(mem, t.mid[a], b, Ptr(f)), WithLow(t, Slot(a, b), f), va) == Lookup(mem, t, va)
  {
    hide IsV, Frame, Ptr, Px;
    ZeroPage(mem, f);
  }

  lemma CoveredLow(t: Tree, x: Slot, f: nat)
    requires Covered(t) && x !in t.low
    ensures Covered(WithLow(t, x, f))
  {
    var low := t.low[x := f];
    assert low[x] == f && forall y :: y in t.low ==> low[y] == t.low[y];
  }

  /** A store to the leaf entry of va changes the map at va's page and nowhere else. */
  lemma SetLeaf(mem: Memory, lo: nat, t: Tree, va: nat, e: int)
    requires IsTree(mem, lo, t) && va < MAXVA && Slot(Px(2, va), Px(1, va)) in t.low
    ensures var now := Poke(mem, t.low[Slot(Px(2, va), Px(1, va))], Px(0, va), e);
            && IsTree(now, lo, t)
            && (forall vb: nat :: vb < MAXVA ==>
                  Lookup(now, t, vb) == if vb / PGSIZE == va / PGSIZE then (if IsV(e) then Some(e) else None)
                                        else Lookup(mem, t, vb))
  {
    hide IsV, Frame, Ptr, Px, Covered;
    var f := t.low[Slot(Px(2, va), Px(1, va))];
    var now := Poke(mem, f, Px(0, va), e);
    assert MidOk(now, t);
    assert LowOk(now, t);
    forall vb: nat | vb < MAXVA
      ensures Lookup(now, t, vb) == if vb / PGSIZE == va / PGSIZE then (if IsV(e) then Some(e) else None)
                                    else Lookup(mem, t, vb)
    {
      PxDeterminePage(va, vb);
    }
  }
}
