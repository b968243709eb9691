/**
 User address spaces (vm.c): walk(), mappages(), uvmunmap() and the operations
 built on them, over the page tables of Sv39 and the frames of PageAllocator.

 A method takes the page table's address, as the C function does, and the ghost
 tree of frames that make it up; it returns the tree it leaves behind.
 */
module AddressSpace {
  import opened Common
  import opened PageAllocator
  import opened Sets
  import opened Sv39

  /** A well-formed page table none of whose pages is free. */
  ghost predicate Table(m: Mem, t: Tree)
    reads m, m.mem
    ensures Table(m, t) ==> m.Valid() && IsTree(m.mem[..], m.lo, t)
  {
    m.Valid() && IsTree(m.mem[..], m.lo, t) && forall f :: f in m.free ==> f !in t.pages
  }

  ghost predicate SameMap(mem: Memory, t: Tree, now: Memory, t': Tree) {
    forall va: nat :: va < MAXVA ==> Lookup(now, t', va) == Lookup(mem, t, va)
  }

  /** Pages of t' outside t came from the free list; nothing was lost. */
  ghost predicate Conserved(free: seq<nat>, t: Tree, free': seq<nat>, t': Tree) {
    && t.pages <= t'.pages && t'.root == t.root
    && ToSet(free) + t.pages == ToSet(free') + t'.pages
    && |free| + |t.pages| == |free'| + |t'.pages|
  }

  /** Only pages of the table t were written. */
  ghost predicate OnlyTable(mem: Memory, now: Memory, t: Tree) {
    |now| == |mem| && forall f :: 0 <= f < |mem| && f !in t.pages ==> now[f] == mem[f]
  }

  datatype WalkResult = Panic | Null | Pte(frame: nat, index: nat)

  // ---------- how many table pages an address needs ----------

  /** The level-2 index, and both upper indices, of page number v. */
  function MidOf(v: nat): nat { Px(2, v * PGSIZE) }
  function LowOf(v: nat): Slot { Slot(Px(2, v * PGSIZE), Px(1, v * PGSIZE)) }

  ghost function Mids(v: nat, n: nat): set<nat> { set i: nat | v <= i < v + n :: MidOf(i) }
  ghost function Lows(v: nat, n: nat): set<Slot> { set i: nat | v <= i < v + n :: LowOf(i) }

  /** The table pages that t lacks for the n pages from page number v on. */
  ghost function Missing(t: Tree, v: nat, n: nat): nat {
    Lack(Mids(v, n), t.mid.Keys) + Lack(Lows(v, n), t.low.Keys)
  }

  /** t' is t and exactly the table pages that the n pages from page number v on need. */
  ghost predicate Spans(t: Tree, t': Tree, v: nat, n: nat) {
    t'.mid.Keys == t.mid.Keys + Mids(v, n) && t'.low.Keys == t.low.Keys + Lows(v, n)
  }

  /** t' is t and some, but not all, of the table pages that page v needs. */
  ghost predicate FallsShort(t: Tree, t': Tree, v: nat) {
    t'.mid.Keys <= t.mid.Keys + {MidOf(v)} && t'.low.Keys == t.low.Keys && LowOf(v) !in t.low
  }

  /** What one round of walk()'s loop for va may add to the table. */
  ghost predicate OneLevel(t: Tree, t': Tree, va: nat, level: nat) {
    if level == 2 then t'.low == t.low && t'.mid.Keys == t.mid.Keys + {Px(2, va)}
    else t'.mid == t.mid && t'.low.Keys == t.low.Keys + {Slot(Px(2, va), Px(1, va))}
  }

  /** A table has one page for the root and one for every upper entry. */
  lemma TableSize(mem: Memory, lo: nat, t: Tree)
    requires IsTree(mem, lo, t)
    ensures |t.pages| == 1 + |t.mid.Keys| + |t.low.Keys|
  {
    hide IsTree;
    TreePages(mem, lo, t);
    MapSizes(t.mid);
    MapSizes(t.low);
    var upper := t.mid.Values + t.low.Values;
    assert |upper| == |t.mid.Values| + |t.low.Values|;
  }

  lemma TreePages(mem: Memory, lo: nat, t: Tree)
    requires IsTree(mem, lo, t)
    ensures t.mid.Values !! t.low.Values && t.root !in t.mid.Values + t.low.Values
    ensures t.pages == {t.root} + (t.mid.Values + t.low.Values)
    ensures forall a, a' :: a in t.mid && a' in t.mid && t.mid[a] == t.mid[a'] ==> a == a'
    ensures forall x, x' :: x in t.low && x' in t.low && t.low[x] == t.low[x'] ==> x == x'
  {
    hide InRange, MidOk, LowOk;
  }

  /** Mapping a range takes exactly the table pages that were missing. */
  lemma SpansSize(mem: Memory, t: Tree, now: Memory, t': Tree, lo: nat, v: nat, n: nat)
    requires IsTree(mem, lo, t) && IsTree(now, lo, t') && Spans(t, t', v, n)
    ensures |t'.pages| == |t.pages| + Missing(t, v, n)
  {
    hide IsTree;
    TableSize(mem, lo, t);
    TableSize(now, lo, t');
    SetSizes(t.mid.Keys, Mids(v, n));
    SetSizes(t.low.Keys, Lows(v, n));
  }

  /** What a failed walk has added is less than what was missing. */
  lemma ShortSize(mem: Memory, t: Tree, now: Memory, t': Tree, lo: nat, v: nat)
    requires IsTree(mem, lo, t) && IsTree(now, lo, t') && FallsShort(t, t', v)
    ensures |t'.pages| < |t.pages| + Missing(t, v, 1)
  {
    hide IsTree;
    TableSize(mem, lo, t);
    TableSize(now, lo, t');
    OnePage(v);
    SetSizes(t.mid.Keys, {MidOf(v)});
    SubsetSize(t'.mid.Keys, t.mid.Keys + {MidOf(v)});
    assert {LowOf(v)} - t.low.Keys == {LowOf(v)};
  }

  lemma OnePage(v: nat)
    ensures Mids(v, 1) == {MidOf(v)} && Lows(v, 1) == {LowOf(v)}
  {
    assert Mids(v, 1) == {MidOf(v)};
    assert Lows(v, 1) == {LowOf(v)};
  }

  lemma NoPages(v: nat)
    ensures Mids(v, 0) == {} && Lows(v, 0) == {}
  {
  }

  lemma OnePageMore(v: nat, n: nat)
    ensures Mids(v, n + 1) == Mids(v, n) + {MidOf(v + n)} && Lows(v, n + 1) == Lows(v, n) + {LowOf(v + n)}
  {
    assert Mids(v, n + 1) == Mids(v, n) + {MidOf(v + n)};
    assert Lows(v, n + 1) == Lows(v, n) + {LowOf(v + n)};
  }

  lemma SpansMore(t: Tree, t1: Tree, t2: Tree, v: nat, n: nat)
    requires Spans(t, t1, v, n) && Spans(t1, t2, v + n, 1)
    ensures Spans(t, t2, v, n + 1)
  {
    hide Mids, Lows;
    OnePage(v + n);
    OnePageMore(v, n);
  }

  /** The pages missing for a range are those missing for its start and then for its last page. */
  lemma MissingMore(t: Tree, t1: Tree, v: nat, n: nat)
    requires Spans(t, t1, v, n)
    ensures Missing(t, v, n + 1) == Missing(t, v, n) + Missing(t1, v + n, 1)
  {
    hide Mids, Lows, Lack;
    OnePage(v + n);
    OnePageMore(v, n);
    LessSizes(Mids(v, n), t.mid.Keys, {MidOf(v + n)}, t1.mid.Keys);
    LessSizes(Lows(v, n), t.low.Keys, {LowOf(v + n)}, t1.low.Keys);
  }

  lemma {:induction false} MissingGrows(t: Tree, v: nat, k: nat, n: nat)
    requires k <= n
    ensures Missing(t, v, k) <= Missing(t, v, n)
  {
    hide MidOf, LowOf;
    SubsetSize(Mids(v, k) - t.mid.Keys, Mids(v, n) - t.mid.Keys);
    SubsetSize(Lows(v, k) - t.low.Keys, Lows(v, n) - t.low.Keys);
  }

  /** There are never more than two to a page. */
  lemma {:induction false} MissingAtMost(t: Tree, v: nat, n: nat)
    ensures Missing(t, v, n) <= 2 * n
  {
    hide Mids, Lows, Lack;
    if n == 0 {
      NoPages(v);
      LackNone(t.mid.Keys);
      LackNone(t.low.Keys);
    } else {
      MissingAtMost(t, v, n - 1);
      OnePageMore(v, n - 1);
      LessSizes(Mids(v, n - 1), t.mid.Keys, {MidOf(v + n - 1)}, t.mid.Keys + Mids(v, n - 1));
      LessSizes(Lows(v, n - 1), t.low.Keys, {LowOf(v + n - 1)}, t.low.Keys + Lows(v, n - 1));
    }
  }

  /** kalloc() and memset(0) for a new page table page; 0 when memory is out. */
  method NewPage(m: Mem, ghost t: Tree) returns (f: nat)
    requires Table(m, t)
    modifies m, m.mem
    ensures Table(m, t) && SameMap(old(m.mem[..]), t, m.mem[..], t)
    ensures f == 0 ==> old(m.free) == [] && m.free == old(m.free) && m.mem[..] == old(m.mem[..])
    ensures f != 0 ==>
              && old(m.free) != [] && f == old(m.free)[0] && m.free == old(m.free)[1..] && f !in m.free
              && m.lo <= f < m.mem.Length && f !in t.pages
              && m.mem[..] == old(m.mem[..])[f := Filled(0)]
  {
    hide IsTree, FreeList;
    var pa := m.Kalloc();
    f := pa / PGSIZE;
    if pa != 0 {
      assert f == old(m.free)[0] && f in old(m.free);
      m.Store(f, Filled(0));
      assert m.mem[..] == old(m.mem[..])[f := Filled(0)];
      assert f !in t.pages;
      SameTables(old(m.mem[..]), m.mem[..], m.lo, t);
    }
  }

  /** The page in which the lookup of va reads its level-`level` entry. */
  ghost predicate At(t: Tree, va: nat, level: nat, f: nat) {
    if level == 2 then f == t.root
    else if level == 1 then Px(2, va) in t.mid && f == t.mid[Px(2, va)]
    else Slot(Px(2, va), Px(1, va)) in t.low && f == t.low[Slot(Px(2, va), Px(1, va))]
  }

  lemma EntryFound(mem: Memory, lo: nat, t: Tree, va: nat, level: nat, f: nat)
    requires IsTree(mem, lo, t) && 1 <= level <= 2 && At(t, va, level, f)
    ensures f in t.pages && lo <= f < |mem| && |mem[f]| == 512
    ensures var e := mem[f][Px(level, va)];
            if IsV(e) then Frame(e) >= 0 && At(t, va, level - 1, Frame(e))
            else Lookup(mem, t, va) == None
                 && (level == 2 ==> Px(2, va) !in t.mid) && Slot(Px(2, va), Px(1, va)) !in t.low
  {
    hide IsV, Frame, Ptr, Px, Covered;
    var e := Load(mem, f, Px(level, va));
    assert e == mem[f][Px(level, va)];
    if level == 2 && IsV(e) { assert e == Ptr(t.mid[Px(2, va)]); }
    if level == 1 && IsV(e) { assert e == Ptr(t.low[Slot(Px(2, va), Px(1, va))]); }
  }

  /** The tree after a new page f is hung into the entry of va at the given level. */
  ghost function Grown(t: Tree, va: nat, level: nat, f: nat): Tree {
    if level == 2 then WithMid(t, Px(2, va), f) else WithLow(t, Slot(Px(2, va), Px(1, va)), f)
  }

  lemma PointTo(mem: Memory, lo: nat, t: Tree, va: nat, level: nat, p: nat, f: nat)
    requires IsTree(mem, lo, t) && 1 <= level <= 2 && At(t, va, level, p) && va < MAXVA
    requires lo <= f < |mem| && f !in t.pages && mem[f] == Filled(0)
    requires p < |mem| && |mem[p]| == 512 && !IsV(mem[p][Px(level, va)])
    ensures IsTree(Poke(mem, p, Px(level, va), Ptr(f)), lo, Grown(t, va, level, f))
    ensures SameMap(mem, t, Poke(mem, p, Px(level, va), Ptr(f)), Grown(t, va, level, f))
    ensures At(Grown(t, va, level, f), va, level - 1, f)
    ensures Grown(t, va, level, f).pages == t.pages + {f} && p != f
  {
    hide IsTree, IsV, Frame, Ptr, Px;
    EntryFound(mem, lo, t, va, level, p);
    assert mem[p][Px(level, va)] == Load(mem, p, Px(level, va));
    PxBelowMax(va);
    if level == 2 { AddMid(mem, lo, t, Px(2, va), f); } else { AddLow(mem, lo, t, Px(2, va), Px(1, va), f); }
  }

  /** One round of walk()'s loop: follow the entry, or fill it with a new page. */
  method Descend(m: Mem, p: nat, va: nat, level: nat, alloc: bool, ghost t: Tree) returns (next: nat, ghost t': Tree)
    requires Table(m, t) && va < MAXVA && 1 <= level <= 2 && At(t, va, level, p)
    modifies m, m.mem
    ensures Table(m, t') && SameMap(old(m.mem[..]), t, m.mem[..], t')
    ensures next != 0 ==> At(t', va, level - 1, next)
    ensures next == 0 ==> t' == t && m.mem[..] == old(m.mem[..]) && m.free == old(m.free)
    ensures next == 0 ==> Lookup(old(m.mem[..]), t, va) == None && (alloc ==> m.free == [])
    ensures if next == 0 then Slot(Px(2, va), Px(1, va)) !in t.low else OneLevel(t, t', va, level)
    ensures !alloc ==> t' == t && m.mem[..] == old(m.mem[..]) && m.free == old(m.free)
    ensures Conserved(old(m.free), t, m.free, t') && OnlyTable(old(m.mem[..]), m.mem[..], t')
  {
    hide IsTree, FreeList, IsV, Frame, Ptr, Px, Lookup, At;
    EntryFound(m.mem[..], m.lo, t, va, level, p);
    t' := t;
    var e := m.mem[p][Px(level, va)];
    if IsV(e) {
      next := Frame(e);
      AtInRange(m.mem[..], m.lo, t, va, level - 1, next);
      OneLevelThere(t, va, level, next);
      return;
    }
    if !alloc { return 0, t; }
    next, t' := Extend(m, p, va, level, t);
  }

  method Extend(m: Mem, p: nat, va: nat, level: nat, ghost t: Tree) returns (next: nat, ghost t': Tree)
    requires Table(m, t) && va < MAXVA && 1 <= level <= 2 && At(t, va, level, p) && p in t.pages
    requires p < m.mem.Length && |m.mem[p]| == 512 && !IsV(m.mem[p][Px(level, va)])
    modifies m, m.mem
    ensures Table(m, t') && SameMap(old(m.mem[..]), t, m.mem[..], t')
    ensures next != 0 ==> At(t', va, level - 1, next)
    ensures next == 0 ==> t' == t && m.mem[..] == old(m.mem[..]) && m.free == old(m.free) == []
    ensures next != 0 ==> OneLevel(t, t', va, level)
    ensures Conserved(old(m.free), t, m.free, t') && OnlyTable(old(m.mem[..]), m.mem[..], t')
  {
    hide OneLevel, IsTree, FreeList, IsV, Frame, Ptr, Px, Lookup, At, Grown, SameMap, Conserved, OnlyTable;
    t' := t;
    WalkStart(m.mem[..], t, m.free);
    next := NewPage(m, t);
    if next == 0 { return; }
    ghost var mem := m.mem[..];
    assert m.mem[p] == old(m.mem[p]);
    PointTo(mem, m.lo, t, va, level, p, next);
    m.Store(p, m.mem[p][Px(level, va) := Ptr(next)]);
    t' := Grown(t, va, level, next);
    GrownOne(t, va, level, next);
    assert m.mem[..] == Poke(mem, p, Px(level, va), Ptr(next));
    Popped(old(m.mem[..]), mem, m.mem[..], t, t', old(m.free), m.free, p, next, Px(level, va), Ptr(next));
    SameMapTrans(old(m.mem[..]), t, mem, t, m.mem[..], t');
  }

  lemma Popped(m0: Memory, m1: Memory, m2: Memory, t: Tree, t': Tree, free: seq<nat>, free': seq<nat>,
               p: nat, f: nat, i: nat, e: int)
    requires free != [] && f == free[0] && free' == free[1..] && f !in t.pages && f < |m0|
    requires t'.root == t.root && t'.pages == t.pages + {f} && p in t.pages && p < |m1| && i < |m1[p]|
    requires m1 == m0[f := Filled(0)] && m2 == Poke(m1, p, i, e)
    ensures Conserved(free, t, free', t') && OnlyTable(m0, m2, t')
    ensures (forall x :: x in free ==> x !in t.pages) && f !in free' ==> forall x :: x in free' ==> x !in t'.pages
  {
    PoppedIntoTable(free, free', t.pages, f);
  }

  lemma GrownOne(t: Tree, va: nat, level: nat, f: nat)
    ensures Grown(t, va, level, f).root == t.root && OneLevel(t, Grown(t, va, level, f), va, level)
  {
  }

  lemma OneLevelThere(t: Tree, va: nat, level: nat, f: nat)
    requires 1 <= level <= 2 && At(t, va, level - 1, f)
    ensures OneLevel(t, t, va, level)
  {
  }

  lemma AtInRange(mem: Memory, lo: nat, t: Tree, va: nat, level: nat, f: nat)
    requires IsTree(mem, lo, t) && level <= 2 && At(t, va, level, f) && 0 < lo
    ensures f in t.pages && lo <= f < |mem| && f != 0 && |mem[f]| == 512
  {
  }

  lemma PoppedIntoTable(free: seq<nat>, free': seq<nat>, pages: set<nat>, f: nat)
    requires free != [] && f == free[0] && free' == free[1..] && f !in pages
    ensures ToSet(free) == ToSet(free') + {f}
    ensures |pages + {f}| == |pages| + 1 && |free| == |free'| + 1
  {
    assert free == [f] + free';
  }

  lemma SameMapTrans(m0: Memory, t0: Tree, m1: Memory, t1: Tree, m2: Memory, t2: Tree)
    requires SameMap(m0, t0, m1, t1) && SameMap(m1, t1, m2, t2)
    ensures SameMap(m0, t0, m2, t2)
  {
    hide Lookup;
    forall va: nat | va < MAXVA ensures Lookup(m2, t2, va) == Lookup(m0, t0, va) {
      assert Lookup(m2, t2, va) == Lookup(m1, t1, va);
    }
  }

  lemma ConservedTrans(f0: seq<nat>, t0: Tree, f1: seq<nat>, t1: Tree, f2: seq<nat>, t2: Tree)
    requires Conserved(f0, t0, f1, t1) && Conserved(f1, t1, f2, t2)
    ensures Conserved(f0, t0, f2, t2)
  {
  }

  lemma OnlyTableTrans(m0: Memory, m1: Memory, m2: Memory, t1: Tree, t2: Tree)
    requires OnlyTable(m0, m1, t1) && OnlyTable(m1, m2, t2) && t1.pages <= t2.pages
    ensures OnlyTable(m0, m2, t2)
  {
  }

  /** walk(): the leaf entry of va, creating page-table pages on request. */
  method Walk(m: Mem, pagetable: nat, va: nat, alloc: bool, ghost t: Tree) returns (r: WalkResult, ghost t': Tree)
    requires Table(m, t) && pagetable == t.root * PGSIZE
    modifies m, m.mem
    ensures Table(m, t') && SameMap(old(m.mem[..]), t, m.mem[..], t')
    ensures Conserved(old(m.free), t, m.free, t') && OnlyTable(old(m.mem[..]), m.mem[..], t')
    ensures r.Panic? <==> va >= MAXVA
    ensures r.Pte? ==> At(t', va, 0, r.frame) && r.index == Px(0, va)
    ensures r.Null? ==> (alloc ==> m.free == []) && Lookup(old(m.mem[..]), t, va) == None
    ensures r.Pte? ==> Climbed(t, t', va, 0)
    ensures r.Null? ==>
              && t'.mid.Keys <= t.mid.Keys + {Px(2, va)} && t'.low.Keys == t.low.Keys
              && Slot(Px(2, va), Px(1, va)) !in t.low
    ensures r.Panic? || !alloc ==> t' == t && m.mem[..] == old(m.mem[..]) && m.free == old(m.free)
  {
    hide IsTree, FreeList, IsV, Frame, Ptr, Px, Lookup, SameMap, Conserved, OnlyTable, OneLevel, At, Climbed;
    t' := t;
    WalkStart(m.mem[..], t, m.free);
    ClimbStart(t, va, pagetable / PGSIZE);
    if va >= MAXVA { return Panic, t; }
    var p: nat, level: nat := pagetable / PGSIZE, 2;
    while level > 0
      invariant 0 <= level <= 2 && Table(m, t') && At(t', va, level, p)
      invariant SameMap(old(m.mem[..]), t, m.mem[..], t') && Climbed(t, t', va, level)
      invariant Conserved(old(m.free), t, m.free, t') && OnlyTable(old(m.mem[..]), m.mem[..], t')
      invariant !alloc ==> t' == t && m.mem[..] == old(m.mem[..]) && m.free == old(m.free)
    {
      ghost var t1, mem1, free1 := t', m.mem[..], m.free;
      var next;
      next, t' := Descend(m, p, va, level, alloc, t1);
      WalkNext(old(m.mem[..]), t, old(m.free), mem1, t1, free1, m.mem[..], t', m.free, va);
      if next == 0 { ClimbEnds(t, t', va, level); return Null, t'; }
      ClimbMore(t, t1, t', va, level);
      p := next;
      level := level - 1;
    }
    r := Pte(p, Px(0, va));
  }

  /** What the rounds of walk()'s loop down to a level have added to the table. */
  ghost predicate Climbed(t: Tree, t': Tree, va: nat, level: nat) {
    && t'.mid.Keys == t.mid.Keys + (if level < 2 then {Px(2, va)} else {})
    && t'.low.Keys == t.low.Keys + (if level < 1 then {Slot(Px(2, va), Px(1, va))} else {})
  }

  lemma ClimbStart(t: Tree, va: nat, p: nat)
    requires p == t.root
    ensures Climbed(t, t, va, 2) && At(t, va, 2, p)
  {
  }

  lemma ClimbMore(t: Tree, t1: Tree, t2: Tree, va: nat, level: nat)
    requires Climbed(t, t1, va, level) && OneLevel(t1, t2, va, level) && 1 <= level <= 2
    ensures Climbed(t, t2, va, level - 1)
  {
    hide Px;
  }

  lemma ClimbEnds(t: Tree, t1: Tree, va: nat, level: nat)
    requires Climbed(t, t1, va, level) && 1 <= level <= 2
    ensures t1.mid.Keys <= t.mid.Keys + {Px(2, va)} && t1.low.Keys == t.low.Keys
  {
    hide Px;
  }

  lemma WalkStart(mem: Memory, t: Tree, free: seq<nat>)
    ensures SameMap(mem, t, mem, t) && Conserved(free, t, free, t) && OnlyTable(mem, mem, t)
  {
  }

  lemma WalkNext(m0: Memory, t0: Tree, f0: seq<nat>, m1: Memory, t1: Tree, f1: seq<nat>,
                 m2: Memory, t2: Tree, f2: seq<nat>, va: nat)
    requires SameMap(m0, t0, m1, t1) && SameMap(m1, t1, m2, t2)
    requires Conserved(f0, t0, f1, t1) && Conserved(f1, t1, f2, t2)
    requires OnlyTable(m0, m1, t1) && OnlyTable(m1, m2, t2) && va < MAXVA
    ensures SameMap(m0, t0, m2, t2) && Conserved(f0, t0, f2, t2) && OnlyTable(m0, m2, t2)
    ensures Lookup(m1, t1, va) == Lookup(m0, t0, va)
  {
    hide Lookup;
    SameMapTrans(m0, t0, m1, t1, m2, t2);
    ConservedTrans(f0, t0, f1, t1, f2, t2);
    OnlyTableTrans(m0, m1, m2, t1, t2);
  }

  lemma LeafEntry(mem: Memory, lo: nat, t: Tree, va: nat, f: nat)
    requires IsTree(mem, lo, t) && At(t, va, 0, f)
    ensures f in t.pages && lo <= f < |mem| && |mem[f]| == 512
    ensures Lookup(mem, t, va) == if IsV(mem[f][Px(0, va)]) then Some(mem[f][Px(0, va)]) else None
  {
    hide IsV, Px, Covered;
  }

  /** The map after the leaf entry of va's page becomes e. */
  ghost predicate Rebound(mem: Memory, t: Tree, now: Memory, t': Tree, va: nat, e: int) {
    forall vb: nat :: vb < MAXVA ==>
      Lookup(now, t', vb) == if vb / PGSIZE == va / PGSIZE then (if IsV(e) then Some(e) else None)
          else Lookup(mem, t, vb)
  }

  /** *pte = e */
  method SetPte(m: Mem, f: nat, va: nat, e: int, ghost t: Tree)
    requires Table(m, t) && At(t, va, 0, f) && va < MAXVA
    modifies m.mem
    ensures Table(m, t) && Rebound(old(m.mem[..]), t, m.mem[..], t, va, e)
    ensures OnlyTable(old(m.mem[..]), m.mem[..], t)
  {
    hide IsTree, FreeList, IsV, Px, Lookup, Frame, Ptr;
    LeafEntry(m.mem[..], m.lo, t, va, f);
    SetLeaf(m.mem[..], m.lo, t, va, e);
    m.Store(f, m.mem[f][Px(0, va) := e]);
    assert m.mem[..] == Poke(old(m.mem[..]), f, Px(0, va), e);
  }

  // ---------- mappages() ----------

  /** The k pages from page number v on are bound to consecutive frames from pa; the rest is as before. */
  ghost predicate MapsRange(mem: Memory, t: Tree, now: Memory, t': Tree, v: nat, k: nat, pa: nat, perm: nat)
    requires perm < 1024
  {
    forall vb: nat :: vb < MAXVA ==>
      Lookup(now, t', vb) ==
        if v <= vb / PGSIZE < v + k then Some(Entry(pa + (vb / PGSIZE - v) * PGSIZE, perm)) else Lookup(mem, t, vb)
  }

  /** The k pages from page number v on are not mapped. */
  ghost predicate Unmapped(mem: Memory, t: Tree, v: nat, k: nat) {
    forall i: nat {:trigger Lookup(mem, t, i * PGSIZE)} :: v <= i < v + k ==>
      i * PGSIZE < MAXVA && Lookup(mem, t, i * PGSIZE) == None
  }

  lemma LookupByPage(mem: Memory, t: Tree, va: nat)
    requires va < MAXVA
    ensures Lookup(mem, t, va) == Lookup(mem, t, va / PGSIZE * PGSIZE)
  {
    PxDeterminePage(va, va / PGSIZE * PGSIZE);
  }

  lemma MapsNone(mem: Memory, t: Tree, v: nat, pa: nat, perm: nat)
    requires perm < 1024
    ensures MapsRange(mem, t, mem, t, v, 0, pa, perm) && Unmapped(mem, t, v, 0)
  {
  }

  /** One round of mappages(): walk() changes nothing, the store adds page v + k. */
  lemma MapsOneMore(m0: Memory, t0: Tree, m1: Memory, t1: Tree, m2: Memory, t2: Tree, m3: Memory,
                    v: nat, k: nat, pa: nat, perm: nat, a: nat)
    requires perm < 1024 && a == (v + k) * PGSIZE < MAXVA
    requires MapsRange(m0, t0, m1, t1, v, k, pa, perm) && SameMap(m1, t1, m2, t2)
    requires Unmapped(m0, t0, v, k) && Lookup(m2, t2, a) == None
    requires Rebound(m2, t2, m3, t2, a, Entry(pa + k * PGSIZE, perm))
    ensures MapsRange(m0, t0, m3, t2, v, k + 1, pa, perm) && Unmapped(m0, t0, v, k + 1)
  {
    hide Lookup, Entry;
    assert IsV(Entry(pa + k * PGSIZE, perm));
    assert a / PGSIZE == v + k;
    assert Lookup(m0, t0, a) == None by {
      assert Lookup(m1, t1, a) == None;
    }
    forall vb: nat | vb < MAXVA
      ensures Lookup(m3, t2, vb) == if v <= vb / PGSIZE < v + k + 1
          then Some(Entry(pa + (vb / PGSIZE - v) * PGSIZE, perm))
                                    else Lookup(m0, t0, vb)
    {
      assert Lookup(m2, t2, vb) == Lookup(m1, t1, vb);
    }
  }

  datatype MapResult = Mapped | NoMemory | MapPanic

  /** How mappages() can end after binding k of the n pages from page number v. */
  ghost predicate MapOutcome(r: MapResult, mem: Memory, t: Tree, v: nat, k: nat, n: nat, free: seq<nat>) {
    match r
    case Mapped => k == n
    case NoMemory => k < n && (v + k) * PGSIZE < MAXVA && free == [] && Lookup(mem, t, (v + k) * PGSIZE) == None
    case MapPanic => k < n && ((v + k) * PGSIZE >= MAXVA || Lookup(mem, t, (v + k) * PGSIZE).Some?)
  }

  /** mappages(): binds the pages that hold the bytes va to va + size - 1. */
  method MapPages(m: Mem, pagetable: nat, va: nat, size: nat, pa: nat, perm: nat, ghost t: Tree)
    returns (r: MapResult, ghost t': Tree, ghost k: nat)
    requires Table(m, t) && pagetable == t.root * PGSIZE && perm < 1024
    modifies m, m.mem
    ensures Table(m, t') && Conserved(old(m.free), t, m.free, t') && OnlyTable(old(m.mem[..]), m.mem[..], t')
    ensures MapsRange(old(m.mem[..]), t, m.mem[..], t', va / PGSIZE, k, pa, perm)
    ensures Unmapped(old(m.mem[..]), t, va / PGSIZE, k)
    ensures r.Mapped? ==> Spans(t, t', va / PGSIZE, k)
    ensures r.NoMemory? ==> exists t1 :: Spans(t, t1, va / PGSIZE, k) && FallsShort(t1, t', va / PGSIZE + k)
    ensures size == 0 ==> r == MapPanic && k == 0 && t' == t && m.mem[..] == old(m.mem[..]) && m.free == old(m.free)
    ensures size > 0 ==>
              MapOutcome(r, old(m.mem[..]), t, va / PGSIZE, k, (va + size - 1) / PGSIZE - va / PGSIZE + 1, m.free)
  {
    hide IsTree, FreeList, IsV, Frame, Ptr, Px, Lookup, SameMap, Conserved, OnlyTable, MapsRange, Unmapped, Entry,
        Rebound, Spans, FallsShort, Climbed;
    t', k := t, 0;
    SpansNone(t, va / PGSIZE);
    WalkStart(m.mem[..], t, m.free);
    MapsNone(m.mem[..], t, va / PGSIZE, pa, perm);
    if size == 0 { r := MapPanic; return; }
    var a, last, q := PgRoundDown(va), PgRoundDown(va + size - 1), pa;
    while true
      invariant a == (va / PGSIZE + k) * PGSIZE <= last && q == pa + k * PGSIZE
      invariant Table(m, t') && t'.root == t.root
      invariant Conserved(old(m.free), t, m.free, t') && OnlyTable(old(m.mem[..]), m.mem[..], t')
      invariant MapsRange(old(m.mem[..]), t, m.mem[..], t', va / PGSIZE, k, pa, perm)
      invariant Unmapped(old(m.mem[..]), t, va / PGSIZE, k) && Spans(t, t', va / PGSIZE, k)
      decreases last - a
    {
      ghost var t1, mem1, free1 := t', m.mem[..], m.free;
      var w;
      w, t' := Walk(m, pagetable, a, true, t1);
      ghost var mem2 := m.mem[..];
      WalkedOn(old(m.mem[..]), t, old(m.free), mem1, t1, free1, mem2, t', m.free);
      MapsSame(old(m.mem[..]), t, mem1, t1, mem2, t', va / PGSIZE, k, pa, perm);
      if w.Panic? { r := MapPanic; return; }
      MapsOutside(old(m.mem[..]), t, mem1, t1, va / PGSIZE, k, pa, perm, a);
      if w.Null? { WalkShort(t1, t', va / PGSIZE + k, a); r := NoMemory; return; }
      WalkSpans(t, t1, t', va / PGSIZE, k, a);
      LeafEntry(mem2, m.lo, t', a, w.frame);
      assert Lookup(mem2, t', a) == Lookup(mem1, t1, a) by { SameAt(mem1, t1, mem2, t', a); }
      if IsV(m.mem[w.frame][w.index]) { r := MapPanic; return; }
      SetPte(m, w.frame, a, Entry(q, perm), t');
      MapsOneMore(old(m.mem[..]), t, mem1, t1, mem2, t', m.mem[..], va / PGSIZE, k, pa, perm, a);
      OnlyTableTrans(old(m.mem[..]), mem2, m.mem[..], t', t');
      k := k + 1;
      if a == last { break; }
      a, q := a + PGSIZE, q + PGSIZE;
    }
    r := Mapped;
  }

  lemma SpansNone(t: Tree, v: nat)
    ensures Spans(t, t, v, 0)
  {
    NoPages(v);
  }

  lemma WalkShort(t: Tree, t': Tree, v: nat, a: nat)
    requires a == v * PGSIZE && t'.mid.Keys <= t.mid.Keys + {Px(2, a)} && t'.low.Keys == t.low.Keys
    requires Slot(Px(2, a), Px(1, a)) !in t.low
    ensures FallsShort(t, t', v)
  {
    hide Px;
  }

  lemma WalkSpans(t: Tree, t1: Tree, t2: Tree, v: nat, k: nat, a: nat)
    requires a == (v + k) * PGSIZE && Spans(t, t1, v, k) && Climbed(t1, t2, a, 0)
    ensures Spans(t, t2, v, k + 1)
  {
    hide Px, Mids, Lows;
    OnePage(v + k);
    SpansMore(t, t1, t2, v, k);
  }

  lemma SameAt(m0: Memory, t0: Tree, m1: Memory, t1: Tree, va: nat)
    requires SameMap(m0, t0, m1, t1) && va < MAXVA
    ensures Lookup(m1, t1, va) == Lookup(m0, t0, va)
  {
  }

  lemma WalkedOn(m0: Memory, t0: Tree, f0: seq<nat>, m1: Memory, t1: Tree, f1: seq<nat>,
                 m2: Memory, t2: Tree, f2: seq<nat>)
    requires Conserved(f0, t0, f1, t1) && Conserved(f1, t1, f2, t2)
    requires OnlyTable(m0, m1, t1) && OnlyTable(m1, m2, t2)
    ensures Conserved(f0, t0, f2, t2) && OnlyTable(m0, m2, t2) && t2.root == t1.root
  {
    ConservedTrans(f0, t0, f1, t1, f2, t2);
    OnlyTableTrans(m0, m1, m2, t1, t2);
  }

  lemma MapsSame(m0: Memory, t0: Tree, m1: Memory, t1: Tree, m2: Memory, t2: Tree, v: nat, k: nat, pa: nat, perm: nat)
    requires perm < 1024 && MapsRange(m0, t0, m1, t1, v, k, pa, perm) && SameMap(m1, t1, m2, t2)
    ensures MapsRange(m0, t0, m2, t2, v, k, pa, perm)
  {
    hide Lookup, Entry;
    forall vb: nat | vb < MAXVA
      ensures Lookup(m2, t2, vb) == if v <= vb / PGSIZE < v + k then Some(Entry(pa + (vb / PGSIZE - v) * PGSIZE, perm))
                                    else Lookup(m0, t0, vb)
    {
      assert Lookup(m2, t2, vb) == Lookup(m1, t1, vb);
    }
  }

  lemma MapsOutside(m0: Memory, t0: Tree, m1: Memory, t1: Tree, v: nat, k: nat, pa: nat, perm: nat, a: nat)
    requires perm < 1024 && MapsRange(m0, t0, m1, t1, v, k, pa, perm) && a == (v + k) * PGSIZE < MAXVA
    ensures Lookup(m1, t1, a) == Lookup(m0, t0, a)
  {
    hide Lookup, Entry;
    assert a / PGSIZE == v + k;
  }

  // ---------- uvmunmap() ----------

  /** Page v is mapped by an entry that is not a bare pointer. */
  predicate Leaf(mem: Memory, t: Tree, v: nat) {
    match Lookup(mem, t, v * PGSIZE)
    case Some(e) => Flags(e) != 1
    case None => false
  }

  function FrameAt(mem: Memory, t: Tree, v: nat): nat {
    match Lookup(mem, t, v * PGSIZE)
    case Some(e) => if Frame(e) >= 0 then Frame(e) else 0
    case None => 0
  }

  /** The frames of the n pages from v on, last page first. */
  ghost function Frames(mem: Memory, t: Tree, v: nat, n: nat): (s: seq<nat>)
    ensures |s| == n
  {
    if n == 0 then [] else [FrameAt(mem, t, v + n - 1)] + Frames(mem, t, v, n - 1)
  }

  lemma {:induction false} FramesAre(mem: Memory, t: Tree, v: nat, n: nat, f: nat)
    ensures f in Frames(mem, t, v, n) <==> exists i :: v <= i < v + n && FrameAt(mem, t, i) == f
  {
    hide FrameAt;
    if n > 0 {
      FramesAre(mem, t, v, n - 1, f);
      assert FrameAt(mem, t, v + n - 1) == Frames(mem, t, v, n)[0];
    }
  }

  /** The mapped ones among the n pages from v on have frames of their own, neither free nor part of the table. */
  ghost predicate Owned(mem: Memory, lo: nat, free: seq<nat>, t: Tree, v: nat, n: nat) {
    && (forall i {:trigger FrameAt(mem, t, i)} :: v <= i < v + n && Lookup(mem, t, i * PGSIZE).Some? ==>
          lo <= FrameAt(mem, t, i) < |mem| && FrameAt(mem, t, i) !in free && FrameAt(mem, t, i) !in t.pages)
    && (forall i, j {:trigger FrameAt(mem, t, i), FrameAt(mem, t, j)} ::
          v <= i < j < v + n && Lookup(mem, t, i * PGSIZE).Some? && Lookup(mem, t, j * PGSIZE).Some? ==>
            FrameAt(mem, t, i) != FrameAt(mem, t, j))
  }

  /** The k pages from v on are unmapped, the others are mapped as before. */
  ghost predicate Unbound(mem: Memory, t: Tree, now: Memory, v: nat, k: nat) {
    forall vb: nat :: vb < MAXVA ==>
      Lookup(now, t, vb) == if v <= vb / PGSIZE < v + k then None else Lookup(mem, t, vb)
  }

  /** The n pages from v on are all there to be unmapped. */
  ghost predicate Leaves(mem: Memory, t: Tree, v: nat, n: nat) {
    forall i {:trigger Leaf(mem, t, i)} :: v <= i < v + n ==> i * PGSIZE < MAXVA && Leaf(mem, t, i)
  }

  /** Outside the table only the pages in gone were written. */
  ghost predicate OnlyTableAnd(mem: Memory, now: Memory, t: Tree, gone: seq<nat>) {
    |now| == |mem| && forall f :: 0 <= f < |mem| && f !in t.pages && f !in gone ==> now[f] == mem[f]
  }

  lemma UnboundOneMore(m0: Memory, m1: Memory, m2: Memory, m3: Memory, t: Tree, v: nat, k: nat)
    requires Unbound(m0, t, m1, v, k) && SameMap(m1, t, m2, t) && (v + k) * PGSIZE < MAXVA
    requires Rebound(m2, t, m3, t, (v + k) * PGSIZE, 0)
    ensures Unbound(m0, t, m3, v, k + 1)
  {
    hide Lookup;
    assert !IsV(0) && (v + k) * PGSIZE / PGSIZE == v + k;
    forall vb: nat | vb < MAXVA
      ensures Lookup(m3, t, vb) == if v <= vb / PGSIZE < v + k + 1 then None else Lookup(m0, t, vb)
    {
      assert Lookup(m2, t, vb) == Lookup(m1, t, vb);
    }
  }

  lemma UnboundAt(m0: Memory, m1: Memory, t: Tree, v: nat, k: nat)
    requires Unbound(m0, t, m1, v, k) && (v + k) * PGSIZE < MAXVA
    ensures Lookup(m1, t, (v + k) * PGSIZE) == Lookup(m0, t, (v + k) * PGSIZE)
  {
    hide Lookup;
    assert (v + k) * PGSIZE / PGSIZE == v + k;
  }

  /** The frame of page v + k is not among those already freed. */
  lemma NotFreedYet(mem: Memory, lo: nat, free: seq<nat>, t: Tree, v: nat, k: nat, n: nat)
    requires Owned(mem, lo, free, t, v, n) && Leaves(mem, t, v, k + 1) && k < n
    ensures FrameAt(mem, t, v + k) !in Frames(mem, t, v, k) + free && FrameAt(mem, t, v + k) !in t.pages
    ensures lo <= FrameAt(mem, t, v + k) < |mem|
  {
    hide FrameAt, Frames, Lookup;
    assert Leaf(mem, t, v + k);
    FramesAre(mem, t, v, k, FrameAt(mem, t, v + k));
    forall i | v <= i < v + k ensures FrameAt(mem, t, i) != FrameAt(mem, t, v + k) {
      assert Leaf(mem, t, i);
    }
  }

  /** kfree() of a page outside the table. */
  method FreeLeaf(m: Mem, pa: nat, ghost t: Tree)
    requires Table(m, t) && pa % PGSIZE == 0 && m.lo <= pa / PGSIZE < m.mem.Length
    requires pa / PGSIZE !in m.free && pa / PGSIZE !in t.pages
    modifies m, m.mem
    ensures Table(m, t) && m.free == [pa / PGSIZE] + old(m.free) && SameMap(old(m.mem[..]), t, m.mem[..], t)
    ensures forall f :: 0 <= f < m.mem.Length && f != pa / PGSIZE ==> m.mem[f] == old(m.mem[f])
  {
    hide IsTree, FreeList, Lookup;
    var ok := m.Kfree(pa);
    SameTables(old(m.mem[..]), m.mem[..], m.lo, t);
  }

  lemma UnboundNone(mem: Memory, t: Tree, v: nat)
    ensures Unbound(mem, t, mem, v, 0) && Leaves(mem, t, v, 0) && OnlyTableAnd(mem, mem, t, [])
  {
  }

  /** The tests at the start of a round of uvmunmap(); each of them ends in a panic. */
  method FindLeaf(m: Mem, pagetable: nat, a: nat, ghost t: Tree) returns (found: bool, f: nat, e: int)
    requires Table(m, t) && pagetable == t.root * PGSIZE
    modifies m, m.mem
    ensures Table(m, t) && m.mem[..] == old(m.mem[..]) && m.free == old(m.free)
    ensures found ==> a < MAXVA && At(t, a, 0, f) && Lookup(m.mem[..], t, a) == Some(e) && Flags(e) != 1
    ensures !found ==>
              a >= MAXVA || match Lookup(m.mem[..], t, a) case Some(x) => Flags(x) == 1 case None => true
  {
    hide IsTree, FreeList, IsV, Frame, Ptr, Px, Lookup, SameMap, Conserved, OnlyTable, Climbed, At, Flags;
    found, f, e := false, 0, 0;
    var w, t' := Walk(m, pagetable, a, false, t);
    if !w.Pte? { return; }
    LeafEntry(m.mem[..], m.lo, t, a, w.frame);
    f, e := w.frame, m.mem[w.frame][w.index];
    if !IsV(e) || Flags(e) == 1 { return; }
    found := true;
  }

  /** uvmunmap(); false is any of its panics. */
  method Unmap(m: Mem, pagetable: nat, va: nat, npages: nat, doFree: bool, ghost t: Tree) returns (ok: bool,
      ghost k: nat)
    requires Table(m, t) && pagetable == t.root * PGSIZE
    requires doFree ==> Owned(m.mem[..], m.lo, m.free, t, va / PGSIZE, npages)
    modifies m, m.mem
    ensures Table(m, t) && Unbound(old(m.mem[..]), t, m.mem[..], va / PGSIZE, k)
    ensures ok <==> va % PGSIZE == 0 && Leaves(old(m.mem[..]), t, va / PGSIZE, npages)
    ensures ok ==> k == npages
    ensures m.free == (if doFree then Frames(old(m.mem[..]), t, va / PGSIZE, k) else []) + old(m.free)
    ensures OnlyTableAnd(old(m.mem[..]), m.mem[..], t, if doFree then Frames(old(m.mem[..]), t, va / PGSIZE, k) else [])
  {
    hide IsTree, FreeList, IsV, Frame, Ptr, Px, Lookup, SameMap, OnlyTableAnd, OnlyTable, Rebound, Unbound, Leaves,
        Owned, Frames, Leaf, FrameAt, Climbed, At, Flags;
    ghost var mem, free, v := m.mem[..], m.free, va / PGSIZE;
    k := 0;
    UnboundNone(mem, t, v);
    assert Frames(mem, t, v, 0) == [];
    if va % PGSIZE != 0 { return false, 0; }
    var a := va;
    while a < va + npages * PGSIZE
      invariant a == (v + k) * PGSIZE && k <= npages && Table(m, t)
      invariant Unbound(mem, t, m.mem[..], v, k) && Leaves(mem, t, v, k)
      invariant m.free == (if doFree then Frames(mem, t, v, k) else []) + free
      invariant OnlyTableAnd(mem, m.mem[..], t, if doFree then Frames(mem, t, v, k) else [])
    {
      if a < MAXVA { UnboundAt(mem, m.mem[..], t, v, k); }
      var found, f, e := FindLeaf(m, pagetable, a, t);
      if !found { NoLeaf(mem, t, v, k, npages); return false, k; }
      LeafOneMore(mem, t, v, k, e);
      UnmapPage(m, f, a, e, doFree, t, mem, free, v, k, npages);
      a, k := a + PGSIZE, k + 1;
    }
    ok := true;
  }

  /** The end of a round of uvmunmap(): free the frame, clear the entry. */
  method UnmapPage(m: Mem, f: nat, a: nat, e: int, doFree: bool, ghost t: Tree,
                   ghost mem: Memory, ghost free: seq<nat>, ghost v: nat, ghost k: nat, ghost n: nat)
    requires Table(m, t) && At(t, a, 0, f) && a == (v + k) * PGSIZE < MAXVA && k < n && |mem| == m.mem.Length
    requires Leaves(mem, t, v, k + 1) && Lookup(mem, t, a) == Some(e)
    requires doFree ==> Owned(mem, m.lo, free, t, v, n)
    requires Unbound(mem, t, m.mem[..], v, k)
    requires m.free == (if doFree then Frames(mem, t, v, k) else []) + free
    requires OnlyTableAnd(mem, m.mem[..], t, if doFree then Frames(mem, t, v, k) else [])
    modifies m, m.mem
    ensures Table(m, t) && Unbound(mem, t, m.mem[..], v, k + 1)
    ensures m.free == (if doFree then Frames(mem, t, v, k + 1) else []) + free
    ensures OnlyTableAnd(mem, m.mem[..], t, if doFree then Frames(mem, t, v, k + 1) else [])
  {
    hide IsTree, FreeList, IsV, Ptr, Px, Lookup, SameMap, OnlyTableAnd, OnlyTable, Rebound, Unbound, Leaves, Owned, At;
    ghost var mem1 := m.mem[..];
    WalkStart(mem1, t, m.free);
    if doFree {
      NotFreedYet(mem, m.lo, free, t, v, k, n);
      var pa := Frame(e) * PGSIZE;
      FreeLeaf(m, pa, t);
    }
    ghost var mem2 := m.mem[..];
    SetPte(m, f, a, 0, t);
    UnboundOneMore(mem, mem1, mem2, m.mem[..], t, v, k);
    if doFree {
      OnlyTableStep(mem, mem1, mem2, m.mem[..], t, Frames(mem, t, v, k), [FrameAt(mem, t, v + k)]);
      assert Frames(mem, t, v, k + 1) == [FrameAt(mem, t, v + k)] + Frames(mem, t, v, k);
    } else {
      ghost var none: seq<nat> := [];
      assert none + none == none;
      OnlyTableStep(mem, mem1, mem2, m.mem[..], t, none, none);
    }
  }

  lemma OnlyTableStep(m0: Memory, m1: Memory, m2: Memory, m3: Memory, t: Tree, gone: seq<nat>, more: seq<nat>)
    requires OnlyTableAnd(m0, m1, t, gone) && |m2| == |m1| && OnlyTable(m2, m3, t)
    requires forall f :: 0 <= f < |m1| && f !in more ==> m2[f] == m1[f]
    ensures OnlyTableAnd(m0, m3, t, more + gone)
  {
  }

  lemma NoLeaf(mem: Memory, t: Tree, v: nat, k: nat, n: nat)
    requires k < n
    requires (v + k) * PGSIZE >= MAXVA
        || match Lookup(mem, t, (v + k) * PGSIZE) case Some(e) => Flags(e) == 1 case None => true
    ensures !Leaves(mem, t, v, n)
  {
    hide Lookup;
    var leaf := Leaf(mem, t, v + k);
    assert (v + k) * PGSIZE >= MAXVA || !leaf;
  }

  lemma LeafOneMore(mem: Memory, t: Tree, v: nat, k: nat, e: int)
    requires Leaves(mem, t, v, k) && (v + k) * PGSIZE < MAXVA
    requires Lookup(mem, t, (v + k) * PGSIZE) == Some(e) && Flags(e) != 1
    ensures Leaves(mem, t, v, k + 1)
  {
    hide Lookup;
  }
}
