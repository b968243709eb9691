/**
 The life of an address space (vm.c): uvmcreate(), freewalk(), uvmfree(), and a
 whole run of growths and shrinkages between them.
 */
module AddressSpaceLife {
  import opened Common
  import opened PageAllocator
  import opened Sv39
  import opened AddressSpace
  import opened UserMemory

  // ---------- freewalk() ----------

  /** pte & (PTE_R|PTE_W|PTE_X) */
  function Rwx(e: int): nat { e / 2 % 8 }

  lemma PtrHasNoRwx(f: nat)
    ensures Rwx(Ptr(f)) == 0
  {
    assert Ptr(f) / 2 == 8 * (f * 64);
  }

  /** p is the page of the table at a level, under level-2 index a and level-1 index b. */
  ghost predicate Position(t: Tree, level: nat, a: nat, b: nat, p: nat) {
    if level == 2 then p == t.root
    else if level == 1 then a in t.mid && p == t.mid[a]
    else level == 0 && Slot(a, b) in t.low && p == t.low[Slot(a, b)]
  }

  /** The pages freewalk() has freed below such a page after i rounds of its loop. */
  ghost function Done(t: Tree, level: nat, a: nat, i: nat): set<nat> {
    if level == 2 then
      (set c | c in t.mid && c < i :: t.mid[c]) + (set x | x in t.low && x.a < i :: t.low[x])
    else if level == 1 then set x | x in t.low && x.a == a && x.b < i :: t.low[x]
    else {}
  }

  /** The level-0 pages below a position, and those below its first i entries. */
  predicate Within(x: Slot, level: nat, a: nat, b: nat) {
    if level == 2 then true else if level == 1 then x.a == a else x == Slot(a, b)
  }

  predicate WithinFirst(x: Slot, level: nat, a: nat, i: nat) {
    if level == 2 then x.a < i else if level == 1 then x.a == a && x.b < i else false
  }

  ghost predicate Clear(mem: Memory, t: Tree, x: Slot)
    requires x in t.low
  {
    forall c: nat :: c < 512 ==> !IsV(Load(mem, t.low[x], c))
  }

  /** No leaf looks like a pointer to a page table. */
  ghost predicate LeavesHaveRights(mem: Memory, t: Tree) {
    forall x, c: nat {:trigger Load(mem, t.low[x], c)} ::
      x in t.low && c < 512 && IsV(Load(mem, t.low[x], c)) ==> Rwx(Load(mem, t.low[x], c)) != 0
  }

  /** An entry with no page below it adds nothing. */
  lemma DoneSkip(mem: Memory, lo: nat, t: Tree, level: nat, a: nat, b: nat, p: nat, i: nat)
    requires IsTree(mem, lo, t) && Position(t, level, a, b, p) && i < 512 && !IsV(Load(mem, p, i))
    ensures Done(t, level, a, i + 1) == Done(t, level, a, i)
    ensures forall x :: x in t.low ==> (WithinFirst(x, level, a, i + 1) <==> WithinFirst(x, level, a, i))
  {
    hide IsV, Frame, Ptr, Px, Covered, Separate;
    if level == 2 {
      assert i !in t.mid;
      assert forall x :: x in t.low ==> x.a != i;
    } else if level == 1 {
      assert Slot(a, i) !in t.low;
    }
  }

  /** A valid entry of an upper page leads to the page one level down. */
  lemma DoneStep(mem: Memory, lo: nat, t: Tree, level: nat, a: nat, b: nat, p: nat, i: nat)
    requires IsTree(mem, lo, t) && Position(t, level, a, b, p) && 1 <= level <= 2 && i < 512 && IsV(Load(mem, p, i))
    ensures var e := Load(mem, p, i); var ca := if level == 2 then i else a;
            && Rwx(e) == 0 && Frame(e) >= 0 && Position(t, level - 1, ca, i, Frame(e))
            && Frame(e) != p && Frame(e) in t.pages
            && Done(t, level, a, i + 1) == Done(t, level, a, i) + ({Frame(e)} + Done(t, level - 1, ca, 512))
            && Done(t, level, a, i) !! {Frame(e)} + Done(t, level - 1, ca, 512)
            && Frame(e) !in Done(t, level - 1, ca, 512) && p !in Done(t, level - 1, ca, 512)
    ensures forall x :: x in t.low ==>
              (WithinFirst(x, level, a, i + 1) <==>
                  WithinFirst(x, level, a, i) || Within(x, level - 1, if level == 2 then i else a, i))
  {
    hide IsV, Frame, Ptr, Px, Covered, Rwx;
    var e := Load(mem, p, i);
    if level == 2 {
      assert e == Ptr(t.mid[i]);
      PtrHasNoRwx(t.mid[i]);
      assert forall x :: x in t.low ==> x.b < 512;
    } else {
      assert e == Ptr(t.low[Slot(a, i)]);
      PtrHasNoRwx(t.low[Slot(a, i)]);
    }
  }

  /** All 512 entries together cover the table below a page, which is not below itself. */
  lemma DoneAll(mem: Memory, lo: nat, t: Tree, level: nat, a: nat, b: nat, p: nat)
    requires IsTree(mem, lo, t) && Position(t, level, a, b, p) && level <= 2
    ensures p !in Done(t, level, a, 512) && Done(t, level, a, 512) <= t.pages && p in t.pages
    ensures level == 2 ==> {p} + Done(t, level, a, 512) == t.pages
    ensures level > 0 ==> forall x :: x in t.low ==> (WithinFirst(x, level, a, 512) <==> Within(x, level, a, b))
  {
    hide IsV, Frame, Ptr, Px;
  }

  /** The free list has grown by exactly the pages in gone. */
  ghost predicate Gained(free: seq<nat>, free': seq<nat>, gone: set<nat>) {
    ToSet(free') == ToSet(free) + gone && |free'| == |free| + |gone|
  }

  /** Outside gone and p, memory is as it was. */
  ghost predicate Elsewhere(mem: Memory, now: Memory, gone: set<nat>, p: nat) {
    |now| == |mem| && forall f :: 0 <= f < |mem| && f !in gone && f != p ==> now[f] == mem[f]
  }

  /** The entries of page p from i on are as in the snapshot. */
  ghost predicate Rest(mem: Memory, was: Memory, p: nat, i: nat)
    requires p < |mem| && p < |was|
  {
    |mem[p]| == |was[p]| == 512 && forall j :: i <= j < 512 ==> mem[p][j] == was[p][j]
  }

  /** The pages below p are as in the snapshot, and not free. */
  ghost predicate Intact(mem: Memory, was: Memory, free: seq<nat>, gone: set<nat>) {
    |mem| == |was| && forall f :: f in gone ==> f < |mem| && mem[f] == was[f] && f !in free
  }

  ghost predicate ClearBelow(was: Memory, t: Tree, level: nat, a: nat, b: nat) {
    forall x {:trigger Clear(was, t, x)} :: x in t.low && Within(x, level, a, b) ==> Clear(was, t, x)
  }

  ghost predicate ClearFirst(was: Memory, t: Tree, level: nat, a: nat, i: nat) {
    forall x {:trigger Clear(was, t, x)} :: x in t.low && WithinFirst(x, level, a, i) ==> Clear(was, t, x)
  }

  /** After i rounds: what is freed, what is untouched, what is known to hold no leaf. */
  ghost predicate Walked(mem0: Memory, free0: seq<nat>, mem: Memory, free: seq<nat>, was: Memory, t: Tree,
                         level: nat, a: nat, b: nat, p: nat, i: nat) {
    && p < |mem| && p < |was| && p !in free
    && Gained(free0, free, Done(t, level, a, i)) && Elsewhere(mem0, mem, Done(t, level, a, i), p)
    && Rest(mem, was, p, i) && Intact(mem, was, free, Done(t, level, a, 512) - Done(t, level, a, i))
    && ClearFirst(was, t, level, a, i)
    && (level == 0 ==> forall c: nat :: c < i ==> !IsV(Load(was, p, c)))
  }

  lemma WalkedStart(mem: Memory, free: seq<nat>, was: Memory, lo: nat, t: Tree, level: nat, a: nat, b: nat, p: nat)
    requires IsTree(was, lo, t) && Position(t, level, a, b, p) && level <= 2
    requires Intact(mem, was, free, {p} + Done(t, level, a, 512)) && Pages(mem)
    ensures Walked(mem, free, mem, free, was, t, level, a, b, p, 0)
  {
    hide IsTree, Clear, IsV, Position;
    assert Done(t, level, a, 0) == {};
    assert p in {p} + Done(t, level, a, 512);
  }

  lemma WalkedSkip(mem0: Memory, free0: seq<nat>, mem: Memory, free: seq<nat>, was: Memory, lo: nat, t: Tree,
                   level: nat, a: nat, b: nat, p: nat, i: nat)
    requires Walked(mem0, free0, mem, free, was, t, level, a, b, p, i) && i < 512
    requires IsTree(was, lo, t) && Position(t, level, a, b, p) && !IsV(mem[p][i])
    ensures Walked(mem0, free0, mem, free, was, t, level, a, b, p, i + 1)
  {
    hide IsTree, Clear, IsV, Position, Done;
    assert Load(was, p, i) == mem[p][i];
    DoneSkip(was, lo, t, level, a, b, p, i);
  }

  /** The index of the level-1 page that a round of the loop at the given level is under. */
  function Under(level: nat, a: nat, i: nat): nat { if level == 2 then i else a }

  /** Before the recursive call. */
  lemma WalkedDown(mem0: Memory, free0: seq<nat>, mem: Memory, free: seq<nat>, was: Memory, lo: nat, t: Tree,
                   level: nat, a: nat, b: nat, p: nat, i: nat)
    returns (child: nat)
    requires Walked(mem0, free0, mem, free, was, t, level, a, b, p, i) && i < 512 && 1 <= level <= 2
    requires IsTree(was, lo, t) && Position(t, level, a, b, p) && IsV(mem[p][i])
    ensures Rwx(mem[p][i]) == 0 && Frame(mem[p][i]) == child && Position(t, level - 1, Under(level, a, i), i, child)
    ensures Intact(mem, was, free, {child} + Done(t, level - 1, Under(level, a, i), 512))
    ensures child !in Done(t, level - 1, Under(level, a, i), 512)
    ensures p !in {child} + Done(t, level - 1, Under(level, a, i), 512)
  {
    hide IsTree, Clear, IsV, Position, Done, Frame, Rwx, Gained, Elsewhere, ClearFirst;
    var e := mem[p][i];
    assert Load(was, p, i) == e;
    DoneStep(was, lo, t, level, a, b, p, i);
    DoneMonotone(t, level, a, i);
    child := Frame(e);
  }

  lemma DoneMonotone(t: Tree, level: nat, a: nat, i: nat)
    requires i < 512
    ensures Done(t, level, a, i + 1) <= Done(t, level, a, 512)
  {
  }

  /** The pages below one more entry are freed and the entry is cleared. */
  lemma BackSets(mem0: Memory, free0: seq<nat>, mem1: Memory, free1: seq<nat>, mem2: Memory, free2: seq<nat>,
      mem3: Memory,
                 was: Memory, p: nat, i: nat, before: set<nat>, gone: set<nat>, all: set<nat>)
    requires p < |mem1| && p < |was| && p !in free1 && p !in gone && before !! gone && i < 512
    requires Gained(free0, free1, before) && Elsewhere(mem0, mem1, before, p)
    requires Rest(mem1, was, p, i) && Intact(mem1, was, free1, all - before) && p !in all
    requires Gained(free1, free2, gone) && |mem2| == |mem1| && forall f :: 0 <= f < |mem1| && f !in gone ==>
        mem2[f] == mem1[f]
    requires |mem2[p]| == 512 && mem3 == mem2[p := mem2[p][i := 0]]
    ensures Gained(free0, free2, before + gone) && Elsewhere(mem0, mem3, before + gone, p)
    ensures Rest(mem3, was, p, i + 1) && Intact(mem3, was, free2, all - (before + gone)) && p !in free2
  {
    assert p !in ToSet(free2);
    forall f | f in all - (before + gone) ensures f < |mem3| && mem3[f] == was[f] && f !in free2 {
      assert f !in ToSet(free2);
    }
  }

  lemma BackClear(was: Memory, lo: nat, t: Tree, level: nat, a: nat, b: nat, p: nat, i: nat)
    requires IsTree(was, lo, t) && Position(t, level, a, b, p) && 1 <= level <= 2 && i < 512 && IsV(Load(was, p, i))
    requires ClearFirst(was, t, level, a, i) && ClearBelow(was, t, level - 1, Under(level, a, i), i)
    ensures ClearFirst(was, t, level, a, i + 1)
  {
    hide IsTree, Clear, IsV, Position, Done, Frame, Rwx;
    DoneStep(was, lo, t, level, a, b, p, i);
  }

  /** After the recursive call and the store that clears the entry. */
  lemma WalkedBack(mem0: Memory, free0: seq<nat>, mem1: Memory, free1: seq<nat>, mem2: Memory, free2: seq<nat>,
      mem3: Memory,
                   was: Memory, lo: nat, t: Tree, level: nat, a: nat, b: nat, p: nat, i: nat, child: nat)
    requires Walked(mem0, free0, mem1, free1, was, t, level, a, b, p, i) && i < 512 && 1 <= level <= 2
    requires IsTree(was, lo, t) && Position(t, level, a, b, p) && IsV(mem1[p][i]) && Frame(mem1[p][i]) == child
    requires Gained(free1, free2, {child} + Done(t, level - 1, Under(level, a, i), 512))
    requires Elsewhere(mem1, mem2, Done(t, level - 1, Under(level, a, i), 512), child)
    requires ClearBelow(was, t, level - 1, Under(level, a, i), i)
    requires p < |mem2| && |mem2[p]| == 512 && mem3 == mem2[p := mem2[p][i := 0]]
    ensures Walked(mem0, free0, mem3, free2, was, t, level, a, b, p, i + 1)
  {
    hide IsTree, Clear, IsV, Position, Done, Frame, Rwx, Gained, Intact, ClearFirst, ClearBelow;
    assert Load(was, p, i) == mem1[p][i];
    DoneStep(was, lo, t, level, a, b, p, i);
    DoneAll(was, lo, t, level, a, b, p);
    BackSets(mem0, free0, mem1, free1, mem2, free2, mem3, was, p, i, Done(t, level, a, i),
             {child} + Done(t, level - 1, Under(level, a, i), 512), Done(t, level, a, 512));
    BackClear(was, lo, t, level, a, b, p, i);
  }

  lemma LevelZero(mem0: Memory, free0: seq<nat>, mem: Memory, free: seq<nat>, was: Memory, lo: nat, t: Tree,
                  level: nat, a: nat, b: nat, p: nat, i: nat)
    requires Walked(mem0, free0, mem, free, was, t, level, a, b, p, i) && i < 512 && level <= 2
    requires IsTree(was, lo, t) && Position(t, level, a, b, p) && IsV(mem[p][i]) && LeavesHaveRights(was, t)
    ensures Rwx(mem[p][i]) == 0 ==> level > 0
    ensures Rwx(mem[p][i]) != 0 ==> !ClearBelow(was, t, level, a, b)
  {
    hide IsTree, IsV, Done, Frame, Rwx, Gained, Elsewhere, ClearFirst, Intact;
    assert Load(was, p, i) == mem[p][i];
    if level == 0 {
      assert Load(was, t.low[Slot(a, b)], i) == mem[p][i];
      assert !Clear(was, t, Slot(a, b));
    } else {
      DoneStep(was, lo, t, level, a, b, p, i);
    }
  }

  lemma NotClear(was: Memory, t: Tree, level: nat, a: nat, b: nat, i: nat)
    requires 1 <= level <= 2 && !ClearBelow(was, t, level - 1, Under(level, a, i), i)
    ensures !ClearBelow(was, t, level, a, b)
  {
    hide Clear;
  }

  lemma WalkedAll(mem0: Memory, free0: seq<nat>, mem: Memory, free: seq<nat>, was: Memory, lo: nat, t: Tree,
                  level: nat, a: nat, b: nat, p: nat)
    requires Walked(mem0, free0, mem, free, was, t, level, a, b, p, 512) && level <= 2
    requires IsTree(was, lo, t) && Position(t, level, a, b, p)
    ensures ClearBelow(was, t, level, a, b) && lo <= p < |was| && p !in free && p !in Done(t, level, a, 512)
    ensures Gained(free0, free, Done(t, level, a, 512)) && Elsewhere(mem0, mem, Done(t, level, a, 512), p)
  {
    hide IsTree, IsV, Done, Frame, Gained, Elsewhere, Intact, Load;
    DoneAll(was, lo, t, level, a, b, p);
    InTheTable(was, lo, t, p);
  }

  lemma InTheTable(was: Memory, lo: nat, t: Tree, p: nat)
    requires IsTree(was, lo, t) && p in t.pages
    ensures lo <= p < |was|
  {
  }

  lemma GainOne(free0: seq<nat>, free1: seq<nat>, gone: set<nat>, p: nat)
    requires Gained(free0, free1, gone) && p !in gone
    ensures Gained(free0, [p] + free1, {p} + gone)
  {
    assert forall x :: x in [p] + free1 <==> x == p || x in free1;
    assert ToSet([p] + free1) == {p} + ToSet(free1);
  }

  /**
   freewalk() of the page-table page at pagetable, which was some time ago (in
   was) the page at the given place of the table t; false is its panic.
   */
  method FreeWalk(m: Mem, pagetable: nat, ghost was: Memory, ghost t: Tree, ghost level: nat, ghost a: nat,
      ghost b: nat)
    returns (ok: bool)
    requires m.Valid() && pagetable % PGSIZE == 0 && level <= 2 && Position(t, level, a, b, pagetable / PGSIZE)
    requires IsTree(was, m.lo, t) && LeavesHaveRights(was, t)
    requires Intact(m.mem[..], was, m.free, {pagetable / PGSIZE} + Done(t, level, a, 512))
    modifies m, m.mem
    ensures m.Valid() && (ok <==> ClearBelow(was, t, level, a, b))
    ensures ok ==> Gained(old(m.free), m.free, {pagetable / PGSIZE} + Done(t, level, a, 512))
    ensures ok ==> Elsewhere(old(m.mem[..]), m.mem[..], Done(t, level, a, 512), pagetable / PGSIZE)
    decreases level
  {
    hide IsTree, IsV, Done, Frame, Rwx, Gained, Elsewhere, Intact, ClearFirst, Load, Position, LeavesHaveRights, Clear,
        ClearBelow, FreeList, Walked, Rest;
    var p := pagetable / PGSIZE;
    ghost var mem0, free0 := m.mem[..], m.free;
    WalkedStart(mem0, free0, was, m.lo, t, level, a, b, p);
    var i := 0;
    while i < 512
      invariant i <= 512 && m.Valid() && Walked(mem0, free0, m.mem[..], m.free, was, t, level, a, b, p, i)
    {
      ghost var mem1, free1 := m.mem[..], m.free;
      WalkedPage(mem0, free0, mem1, free1, was, t, level, a, b, p, i);
      var pte := m.mem[p][i];
      if IsV(pte) { LevelZero(mem0, free0, mem1, free1, was, m.lo, t, level, a, b, p, i); }
      if IsV(pte) && Rwx(pte) == 0 {
        ghost var down := WalkedDown(mem0, free0, mem1, free1, was, m.lo, t, level, a, b, p, i);
        var child := Frame(pte) * PGSIZE;
        var cleared := FreeWalk(m, child, was, t, level - 1, Under(level, a, i), i);
        if !cleared {
          NotClear(was, t, level, a, b, i);
          return false;
        }
        StillThere(mem1, m.mem[..], free1, m.free, Done(t, level - 1, Under(level, a, i), 512), down, p);
        ghost var mem2 := m.mem[..];
        m.Store(p, m.mem[p][i := 0]);
        WalkedBack(mem0, free0, mem1, free1, mem2, m.free, m.mem[..], was, m.lo, t, level, a, b, p, i, down);
      } else if IsV(pte) {
        return false;
      } else {
        WalkedSkip(mem0, free0, mem1, free1, was, m.lo, t, level, a, b, p, i);
      }
      i := i + 1;
    }
    WalkedPage(mem0, free0, m.mem[..], m.free, was, t, level, a, b, p, 512);
    WalkedAll(mem0, free0, m.mem[..], m.free, was, m.lo, t, level, a, b, p);
    ghost var mem1, free1 := m.mem[..], m.free;
    ok := m.Kfree(pagetable);
    GainOne(free0, free1, Done(t, level, a, 512), p);
    ElsewhereAll(mem0, mem1, m.mem[..], Done(t, level, a, 512), p);
  }

  lemma WalkedPage(mem0: Memory, free0: seq<nat>, mem: Memory, free: seq<nat>, was: Memory, t: Tree,
                   level: nat, a: nat, b: nat, p: nat, i: nat)
    requires Walked(mem0, free0, mem, free, was, t, level, a, b, p, i)
    ensures p < |mem| == |was| && |mem[p]| == 512 && p !in free && |mem| == |mem0|
  {
    hide Done, IsV, ClearFirst;
  }

  lemma StillThere(mem1: Memory, mem2: Memory, free1: seq<nat>, free2: seq<nat>, gone: set<nat>, child: nat, p: nat)
    requires Elsewhere(mem1, mem2, gone, child) && Gained(free1, free2, {child} + gone)
    requires p < |mem1| && p !in free1 && p !in {child} + gone
    ensures mem2[p] == mem1[p] && p !in free2
  {
    assert p !in ToSet(free2);
  }

  lemma ElsewhereAll(mem0: Memory, mem1: Memory, mem2: Memory, gone: set<nat>, p: nat)
    requires Elsewhere(mem0, mem1, gone, p) && |mem2| == |mem1| && forall f :: 0 <= f < |mem1| && f != p ==>
        mem2[f] == mem1[f]
    ensures Elsewhere(mem0, mem2, gone, p)
  {
  }

  // ---------- uvmcreate() and uvmfree() ----------

  /** uvmcreate(): an empty page table, or 0. */
  method Uvmcreate(m: Mem) returns (pagetable: nat, ghost t: Tree)
    requires m.Valid()
    modifies m, m.mem
    ensures m.Valid() && (pagetable == 0 <==> old(m.free) == [])
    ensures pagetable == 0 ==> m.free == old(m.free) && m.mem[..] == old(m.mem[..])
    ensures pagetable != 0 ==>
              && Table(m, t) && pagetable == t.root * PGSIZE && Bare(m.mem[..], t, 0)
              && m.free == old(m.free)[1..] && t.pages == {old(m.free)[0]} && old(m.free)[0] !in m.free
  {
    hide FreeList, Bare, IsTree;
    pagetable := m.Kalloc();
    var f := pagetable / PGSIZE;
    t := Tree(f, map[], map[], {f});
    if pagetable == 0 { return; }
    m.Store(f, Filled(0));
    EmptyTable(m.mem[..], m.lo, f);
  }

  lemma EmptyTable(mem: Memory, lo: nat, f: nat)
    requires Pages(mem) && lo <= f < |mem| && mem[f] == Filled(0)
    ensures IsTree(mem, lo, Tree(f, map[], map[], {f})) && Bare(mem, Tree(f, map[], map[], {f}), 0)
  {
    hide IsV, Px, Ptr, Frame;
    ZeroPage(mem, f);
  }

  /** No page from number n on is mapped. */
  ghost predicate Bare(mem: Memory, t: Tree, n: nat) {
    forall va: nat :: va < MAXVA && va / PGSIZE >= n ==> Lookup(mem, t, va) == None
  }

  /** Every mapping gives some right. */
  ghost predicate Rights(mem: Memory, t: Tree) {
    forall va: nat :: va < MAXVA && Lookup(mem, t, va).Some? ==> Rwx(Lookup(mem, t, va).value) != 0
  }

  /** Level-0 entries are the map: an entry is valid exactly if its address is mapped. */
  lemma EntryIsLookup(mem: Memory, lo: nat, t: Tree, x: Slot, c: nat) returns (va: nat)
    requires IsTree(mem, lo, t) && x in t.low && c < 512
    ensures va < MAXVA
    ensures var e := Load(mem, t.low[x], c); Lookup(mem, t, va) == if IsV(e) then Some(e) else None
  {
    hide IsV, Px, Ptr, Frame, Covered;
    va := VaOf(x.a, x.b, c);
    assert x == Slot(Px(2, va), Px(1, va));
  }

  lemma LookupIsEntry(mem: Memory, lo: nat, t: Tree, va: nat)
    requires IsTree(mem, lo, t) && va < MAXVA && Lookup(mem, t, va).Some?
    ensures exists x :: x in t.low && !Clear(mem, t, x)
  {
    hide IsV, Px, Ptr, Frame, Covered;
    var x := Slot(Px(2, va), Px(1, va));
    assert !Clear(mem, t, x) by { var e := Load(mem, t.low[x], Px(0, va)); }
  }

  lemma RightsOfEntries(mem: Memory, lo: nat, t: Tree)
    requires IsTree(mem, lo, t) && Rights(mem, t)
    ensures LeavesHaveRights(mem, t)
  {
    hide IsTree, IsV, Px, Ptr, Frame, Lookup, Rwx, Load;
    forall x, c: nat | x in t.low && c < 512 && IsV(Load(mem, t.low[x], c))
      ensures Rwx(Load(mem, t.low[x], c)) != 0
    {
      var va := EntryIsLookup(mem, lo, t, x, c);
    }
  }

  /** The table is free of leaves exactly if nothing is mapped. */
  lemma BareIsClear(mem: Memory, lo: nat, t: Tree)
    requires IsTree(mem, lo, t)
    ensures ClearBelow(mem, t, 2, 0, 0) <==> Bare(mem, t, 0)
  {
    hide IsTree, IsV, Px, Ptr, Frame, Lookup, Load;
    if Bare(mem, t, 0) {
      forall x, c: nat | x in t.low && c < 512 ensures !IsV(Load(mem, t.low[x], c)) {
        var va := EntryIsLookup(mem, lo, t, x, c);
        assert va / PGSIZE >= 0;
      }
    } else {
      var va: nat :| va < MAXVA && va / PGSIZE >= 0 && Lookup(mem, t, va) != None;
      LookupIsEntry(mem, lo, t, va);
      var x :| x in t.low && !Clear(mem, t, x);
    }
  }

  lemma UnboundRights(m0: Memory, t: Tree, m1: Memory, n: nat)
    requires Rights(m0, t) && Unbound(m0, t, m1, 0, n)
    ensures Rights(m1, t) && (Bare(m1, t, 0) <==> Bare(m0, t, n))
  {
    hide Lookup, Rwx;
    if Bare(m1, t, 0) {
      forall va: nat | va < MAXVA && va / PGSIZE >= n ensures Lookup(m0, t, va) == None {
        assert Lookup(m1, t, va) == Lookup(m0, t, va);
        assert va / PGSIZE >= 0;
      }
    }
  }

  /**
   uvmfree(); false is a panic, of uvmunmap() for a hole below sz, or of freewalk()
   for a page left mapped above it.
   */
  method Uvmfree(m: Mem, pagetable: nat, sz: nat, ghost t: Tree) returns (ok: bool)
    requires Table(m, t) && pagetable == t.root * PGSIZE && Rights(m.mem[..], t)
    requires Owned(m.mem[..], m.lo, m.free, t, 0, NPages(sz))
    modifies m, m.mem
    ensures ok <==> Leaves(old(m.mem[..]), t, 0, NPages(sz)) && Bare(old(m.mem[..]), t, NPages(sz))
    ensures ok ==> m.Valid() && Gained(Frames(old(m.mem[..]), t, 0, NPages(sz)) + old(m.free), m.free, t.pages)
  {
    hide IsTree, FreeList, Lookup, Unbound, Owned, Leaves, OnlyTableAnd, PgRoundUp, NPages, Frames, Bare, Rights,
        LeavesHaveRights, Gained, ClearBelow, Rwx, Clear, Done;
    ghost var mem, n := m.mem[..], NPages(sz);
    RoundUpPages(sz, sz);
    NothingToUnmap(mem, t, 0, m.free);
    ok := true;
    if sz > 0 {
      ghost var k;
      ok, k := Unmap(m, pagetable, 0, PgRoundUp(sz) / PGSIZE, true, t);
      if !ok { return; }
    } else {
      assert n == 0 by { PagesOf(0); }
    }
    assert m.free == Frames(mem, t, 0, n) + old(m.free);
    UnboundRights(mem, t, m.mem[..], n);
    ghost var was := m.mem[..];
    RightsOfEntries(was, m.lo, t);
    BareIsClear(was, m.lo, t);
    DoneAll(was, m.lo, t, 2, 0, 0, t.root);
    TableIntact(was, m.lo, m.free, t);
    ok := FreeWalk(m, pagetable, was, t, 2, 0, 0);
  }

  lemma TableIntact(mem: Memory, lo: nat, free: seq<nat>, t: Tree)
    requires IsTree(mem, lo, t) && forall f :: f in free ==> f !in t.pages
    ensures Intact(mem, mem, free, t.pages)
  {
  }

  // ---------- from uvmcreate() to uvmfree() ----------

  /** The frames of the first n pages. */
  ghost function LeafFrames(mem: Memory, t: Tree, n: nat): set<nat> {
    set i | 0 <= i < n :: FrameAt(mem, t, i)
  }

  /**
   The memory of a process of n pages: they are mapped, with some right, to
   frames of their own, nothing else is mapped, and the free pages, the table's
   pages and the user's pages are together the pages in total.
   */
  ghost predicate Space(mem: Memory, lo: nat, free: seq<nat>, t: Tree, n: nat, total: seq<nat>) {
    && Leaves(mem, t, 0, n) && Owned(mem, lo, free, t, 0, n) && Bare(mem, t, n) && Rights(mem, t)
    && ToSet(free) + t.pages + LeafFrames(mem, t, n) == ToSet(total) && |free| + |t.pages| + n == |total|
  }

  lemma RwxEntry(pa: nat, perm: nat)
    requires perm < 1024
    ensures Rwx(Entry(pa, perm)) == perm / 2 % 8
  {
    var q := pa / PGSIZE;
    var p := if perm % 2 == 1 then perm else perm + 1;
    assert Entry(pa, perm) / 2 == 8 * (q * 64) + p / 2;
    assert p / 2 == perm / 2;
  }

  lemma GrowRights(m0: Memory, t0: Tree, m1: Memory, t1: Tree, n: nat, frames: seq<nat>, perms: seq<nat>)
    requires BoundTo(m0, t0, m1, t1, n, frames, perms) && Rights(m0, t0) && Bare(m0, t0, n)
    requires forall i :: 0 <= i < |perms| ==> perms[i] / 2 % 8 != 0
    ensures Rights(m1, t1) && Bare(m1, t1, n + |frames|)
  {
    hide Lookup, Rwx, Entry;
    forall va: nat | va < MAXVA && Lookup(m1, t1, va).Some? ensures Rwx(Lookup(m1, t1, va).value) != 0 {
      if n <= va / PGSIZE < n + |frames| { RwxEntry(frames[va / PGSIZE - n] * PGSIZE, perms[va / PGSIZE - n]); }
    }
  }

  lemma OldPage(m0: Memory, t0: Tree, m1: Memory, t1: Tree, n: nat, frames: seq<nat>, perms: seq<nat>, i: nat)
    requires BoundTo(m0, t0, m1, t1, n, frames, perms) && i < n && i * PGSIZE < MAXVA
    ensures Lookup(m1, t1, i * PGSIZE) == Lookup(m0, t0, i * PGSIZE)
    ensures FrameAt(m1, t1, i) == FrameAt(m0, t0, i) && (Leaf(m1, t1, i) <==> Leaf(m0, t0, i))
  {
    hide Lookup, Entry;
    assert i * PGSIZE / PGSIZE == i;
  }

  /** The pages of a process after a growth. */
  lemma GrownPages(m0: Memory, t0: Tree, free0: seq<nat>, lo: nat, m1: Memory, t1: Tree, free1: seq<nat>, n: nat,
                   frames: seq<nat>, perms: seq<nat>, pages: seq<Page>, i: nat)
    requires Growing(m0, t0, free0, m1, t1, free1, n, frames, perms, pages) && Leaves(m0, t0, 0, n) && i < n + |frames|
    ensures i * PGSIZE < MAXVA && Leaf(m1, t1, i)
    ensures FrameAt(m1, t1, i) == if i < n then FrameAt(m0, t0, i) else frames[i - n]
  {
    hide BoundTo, Accounted, Untouched, Lookup, Leaf, FrameAt;
    if i < n {
      assert Leaf(m0, t0, i);
      OldPage(m0, t0, m1, t1, n, frames, perms, i);
    } else {
      assert i * PGSIZE < MAXVA by { var e := Lookup(m0, t0, i * PGSIZE); }
      GrownFrame(m0, t0, m1, t1, n, frames, perms, i - n);
    }
  }

  lemma SpaceGrow(m0: Memory, t0: Tree, free0: seq<nat>, lo: nat, m1: Memory, t1: Tree, free1: seq<nat>, n: nat,
                  frames: seq<nat>, perms: seq<nat>, pages: seq<Page>, total: seq<nat>)
    requires Space(m0, lo, free0, t0, n, total) && Growing(m0, t0, free0, m1, t1, free1, n, frames, perms, pages)
    requires forall i :: 0 <= i < |frames| ==> lo <= frames[i]
    requires forall i :: 0 <= i < |perms| ==> perms[i] / 2 % 8 != 0
    ensures Space(m1, lo, free1, t1, n + |frames|, total)
  {
    hide BoundTo, Lookup, Leaf, FrameAt, Accounted, Untouched, Unmapped, Owned, LeafFrames, Bare, Rights;
    GrowRights(m0, t0, m1, t1, n, frames, perms);
    forall i | 0 <= i < n + |frames|
      ensures i * PGSIZE < MAXVA && Leaf(m1, t1, i) && FrameAt(m1, t1, i) == if i < n then FrameAt(m0, t0, i)
          else frames[i - n]
    {
      GrownPages(m0, t0, free0, lo, m1, t1, free1, n, frames, perms, pages, i);
    }
    assert |m1| == |m0| by { assert Untouched(m0, m1, free0, t0); UntouchedSize(m0, m1, free0, t0); }
    GrownAccount(m0, t0, free0, lo, m1, t1, free1, n, frames);
    AccountTotals(free0, t0, free1, t1, frames);
  }

  lemma AccountTotals(free0: seq<nat>, t0: Tree, free1: seq<nat>, t1: Tree, frames: seq<nat>)
    requires Accounted(free0, t0, free1, t1, frames)
    ensures ToSet(free0) + t0.pages == ToSet(free1) + t1.pages + ToSet(frames)
    ensures |free0| + |t0.pages| == |free1| + |t1.pages| + |frames|
  {
  }

  lemma UntouchedSize(m0: Memory, m1: Memory, free: seq<nat>, t: Tree)
    requires Untouched(m0, m1, free, t)
    ensures |m1| == |m0|
  {
  }

  lemma GrownAccount(m0: Memory, t0: Tree, free0: seq<nat>, lo: nat, m1: Memory, t1: Tree, free1: seq<nat>, n: nat,
      frames: seq<nat>)
    requires Leaves(m0, t0, 0, n) && Owned(m0, lo, free0, t0, 0, n) && |m1| == |m0|
    requires Accounted(free0, t0, free1, t1, frames) && forall i :: 0 <= i < |frames| ==> lo <= frames[i] < |m1|
    requires forall i {:trigger FrameAt(m1, t1, i)} :: 0 <= i < n + |frames| ==>
               FrameAt(m1, t1, i) == if i < n then FrameAt(m0, t0, i) else frames[i - n]
    ensures Owned(m1, lo, free1, t1, 0, n + |frames|)
    ensures LeafFrames(m1, t1, n + |frames|) == LeafFrames(m0, t0, n) + ToSet(frames)
  {
    hide Lookup, FrameAt;
    var all := ToSet(free0) + t0.pages;
    forall i | 0 <= i < n
      ensures lo <= FrameAt(m0, t0, i) < |m0| && FrameAt(m0, t0, i) !in all
    {
      assert Leaf(m0, t0, i);
    }
    forall i, j | 0 <= i < j < n ensures FrameAt(m0, t0, i) != FrameAt(m0, t0, j) {
      assert Leaf(m0, t0, i) && Leaf(m0, t0, j);
    }
    assert all == ToSet(free1) + t1.pages + ToSet(frames);
    forall f ensures f in LeafFrames(m1, t1, n + |frames|) <==> f in LeafFrames(m0, t0, n) + ToSet(frames) {
      if f in frames {
        var k :| 0 <= k < |frames| && frames[k] == f;
        assert FrameAt(m1, t1, n + k) == f;
      }
      if f in LeafFrames(m0, t0, n) {
        var k :| 0 <= k < n && FrameAt(m0, t0, k) == f;
        assert FrameAt(m1, t1, k) == f;
      }
    }
  }

  lemma KeptPage(m0: Memory, t: Tree, m1: Memory, v: nat, k: nat, i: nat)
    requires Unbound(m0, t, m1, v, k) && i < v && i * PGSIZE < MAXVA
    ensures FrameAt(m1, t, i) == FrameAt(m0, t, i) && (Leaf(m1, t, i) <==> Leaf(m0, t, i))
  {
    hide Lookup;
    assert i * PGSIZE / PGSIZE == i;
  }

  lemma ShrinkRights(m0: Memory, t: Tree, m1: Memory, n': nat, n: nat)
    requires Rights(m0, t) && Bare(m0, t, n) && n' <= n && Unbound(m0, t, m1, n', n - n')
    ensures Rights(m1, t) && Bare(m1, t, n')
  {
    hide Lookup, Rwx;
    forall va: nat | va < MAXVA && va / PGSIZE >= n' ensures Lookup(m1, t, va) == None {
    }
  }

  lemma SpaceShrink(m0: Memory, lo: nat, free0: seq<nat>, t: Tree, m1: Memory, free1: seq<nat>, n: nat, n': nat,
      total: seq<nat>)
    requires Space(m0, lo, free0, t, n, total) && n' <= n && |m1| == |m0|
    requires Unbound(m0, t, m1, n', n - n') && free1 == Frames(m0, t, n', n - n') + free0
    ensures Space(m1, lo, free1, t, n', total)
  {
    hide Lookup, Leaf, FrameAt, Unbound, Frames, Bare, Rights, Owned, LeafFrames;
    ShrinkRights(m0, t, m1, n', n);
    forall i | 0 <= i < n' ensures i * PGSIZE < MAXVA && Leaf(m1, t, i) && FrameAt(m1, t, i) == FrameAt(m0, t, i) {
      assert Leaf(m0, t, i);
      KeptPage(m0, t, m1, n', n - n', i);
    }
    ShrunkAccount(m0, lo, free0, t, m1, free1, n, n');
  }

  lemma ShrunkAccount(m0: Memory, lo: nat, free0: seq<nat>, t: Tree, m1: Memory, free1: seq<nat>, n: nat, n': nat)
    requires Leaves(m0, t, 0, n) && Owned(m0, lo, free0, t, 0, n) && n' <= n && |m1| == |m0|
    requires free1 == Frames(m0, t, n', n - n') + free0
    requires forall i {:trigger FrameAt(m1, t, i)} :: 0 <= i < n' ==> FrameAt(m1, t, i) == FrameAt(m0, t, i)
    ensures Owned(m1, lo, free1, t, 0, n')
    ensures ToSet(free1) + LeafFrames(m1, t, n') == ToSet(free0) + LeafFrames(m0, t, n)
  {
    hide Lookup, FrameAt, Frames;
    var back := Frames(m0, t, n', n - n');
    forall f: nat ensures f in back <==> exists i :: n' <= i < n && FrameAt(m0, t, i) == f {
      FramesAre(m0, t, n', n - n', f);
    }
    forall i | 0 <= i < n ensures Leaf(m0, t, i) && Lookup(m0, t, i * PGSIZE).Some? { assert Leaf(m0, t, i); }
    forall f: nat ensures f in ToSet(free1) + LeafFrames(m1, t, n') <==> f in ToSet(free0) + LeafFrames(m0, t, n) {
      if f in LeafFrames(m0, t, n) {
        var k :| 0 <= k < n && FrameAt(m0, t, k) == f;
        if k < n' { assert FrameAt(m1, t, k) == f; }
      }
      if f in LeafFrames(m1, t, n') {
        var k :| 0 <= k < n' && FrameAt(m1, t, k) == f;
        assert FrameAt(m0, t, k) == f;
      }
    }
  }

  /** growproc(): to a larger size with PTE_W, or to a smaller one. */
  datatype Request = Request(newsz: nat)

  lemma NothingYet(mem: Memory, lo: nat, free: seq<nat>, t: Tree, total: seq<nat>)
    requires IsTree(mem, lo, t) && Bare(mem, t, 0) && total != [] && free == total[1..] && t.pages == {total[0]}
    ensures Space(mem, lo, free, t, 0, total)
  {
    hide Lookup, Rwx, IsTree;
    assert total == [total[0]] + free;
    assert Rights(mem, t) by {
      forall va: nat | va < MAXVA ensures Lookup(mem, t, va) == None { assert va / PGSIZE >= 0; }
    }
  }

  lemma SpaceParts(mem: Memory, lo: nat, free: seq<nat>, t: Tree, n: nat, total: seq<nat>, v: nat)
    requires Space(mem, lo, free, t, n, total) && v <= n
    ensures Leaves(mem, t, v, n - v) && Owned(mem, lo, free, t, v, n - v) && Bare(mem, t, n) && Rights(mem, t)
  {
    hide Bare, Rights, Lookup, FrameAt, Leaf;
    forall i | v <= i < n ensures i * PGSIZE < MAXVA && Leaf(mem, t, i) {
      var leaf := Leaf(mem, t, i);
    }
  }

  lemma BareNotBlocked(mem: Memory, t: Tree, n: nat, v: nat)
    requires Bare(mem, t, n) && v >= n && Blocked(mem, t, v)
    ensures v * PGSIZE >= MAXVA
  {
    hide Lookup;
    assert v * PGSIZE / PGSIZE == v;
  }

  /** One request: the memory stays a Space of the size that results. */
  method Resize(m: Mem, pagetable: nat, sz: nat, req: Request, ghost t: Tree, ghost total: seq<nat>)
    returns (sz': nat, ghost t': Tree)
    requires Table(m, t) && pagetable == t.root * PGSIZE && Space(m.mem[..], m.lo, m.free, t, NPages(sz), total)
    requires req.newsz <= MAXVA
    modifies m, m.mem
    ensures Table(m, t') && t'.root == t.root && Space(m.mem[..], m.lo, m.free, t', NPages(sz'), total)
    ensures sz' == if req.newsz > sz && Demand(t, NPages(sz), NPages(req.newsz) - NPages(sz)) > |old(m.free)| then sz
                   else req.newsz
  {
    hide Demand, IsTree, FreeList, Lookup, Unbound, Owned, Leaves, OnlyTableAnd, PgRoundUp, NPages, Frames, Bare,
        Rights, Space, Growing, SameMap, Accounted, Untouched, Blocked;
    ghost var mem, free, n := m.mem[..], m.free, NPages(sz);
    SpaceParts(mem, m.lo, free, t, n, total, n);
    RoundUpPages(sz, req.newsz);
    RoundUpPages(req.newsz, sz);
    if req.newsz > sz {
      assert n <= NPages(req.newsz);
      var r;
      ghost var frames;
      r, t', frames := Uvmalloc(m, pagetable, sz, req.newsz, 4, t);
      if r.GrowPanic? {
        ghost var v :| NPages(sz) <= v < NPages(req.newsz) && Blocked(mem, t, v);
        BareNotBlocked(mem, t, n, v);
        assert false;
      } else if r.NoRoom? {
        GrowingStart(mem, t, free, n);
        GrowingSame(mem, t, free, mem, t, free, m.mem[..], t', m.free, n, [], [], []);
        SpaceGrow(mem, t, free, m.lo, m.mem[..], t', m.free, n, [], [], [], total);
        GrowingParts(mem, t, free, m.mem[..], t', m.free, n, [], [], []);
        sz' := sz;
      } else {
        SpaceGrow(mem, t, free, m.lo, m.mem[..], t', m.free, n, frames, Repeat(UserPerm(4), |frames|),
            Repeat(Filled(0), |frames|), total);
        GrowingParts(mem, t, free, m.mem[..], t', m.free, n, frames, Repeat(UserPerm(4), |frames|),
            Repeat(Filled(0), |frames|));
        sz' := r.sz;
      }
    } else {
      t' := t;
      SpaceParts(mem, m.lo, free, t, n, total, NPages(req.newsz));
      assert Surplus(sz, req.newsz) == n - NPages(req.newsz);
      var ok;
      ok, sz' := Uvmdealloc(m, pagetable, sz, req.newsz, t);
      SpaceShrink(mem, m.lo, free, t, m.mem[..], m.free, n, NPages(req.newsz), total);
    }
  }

  /** A process's memory between two requests. */
  datatype Moment = Moment(mem: Memory, free: seq<nat>, t: Tree, sz: nat)

  ghost predicate IsMoment(x: Moment, lo: nat, total: seq<nat>) {
    IsTree(x.mem, lo, x.t) && Space(x.mem, lo, x.free, x.t, NPages(x.sz), total)
  }

  /** A request is refused exactly if it demands more than is free, and otherwise has the pages it asks for. */
  ghost predicate Answered(x: Moment, req: Request, y: Moment, lo: nat, total: seq<nat>) {
    && IsMoment(y, lo, total)
    && (NPages(x.sz) <= NPages(req.newsz) ==>
          y.sz == if req.newsz > x.sz && Demand(x.t, NPages(x.sz), NPages(req.newsz) - NPages(x.sz)) > |x.free|
                  then x.sz else req.newsz)
    && (NPages(req.newsz) < NPages(x.sz) ==> y.sz == req.newsz)
  }

  lemma AnswerIs(x: Moment, req: Request, y: Moment, lo: nat, total: seq<nat>)
    requires IsMoment(y, lo, total)
    requires var n := NPages(req.newsz) - NPages(x.sz);
             y.sz == if req.newsz > x.sz && n >= 0 && Demand(x.t, NPages(x.sz), n) > |x.free| then x.sz else req.newsz
    ensures Answered(x, req, y, lo, total)
  {
    hide IsTree, Space, Demand;
    RoundUpPages(x.sz, req.newsz);
  }

  /**
   A process's memory from uvmcreate() to uvmfree(): each request in between is answered as it
   should be, and at the end, whatever was granted, every page comes back.
   */
  method Live(m: Mem, script: seq<Request>) returns (ok: bool, ghost life: seq<Moment>)
    requires m.Valid() && forall i :: 0 <= i < |script| ==> script[i].newsz <= MAXVA
    modifies m, m.mem
    ensures ok && m.Valid() && ToSet(m.free) == ToSet(old(m.free)) && |m.free| == |old(m.free)|
    ensures if old(m.free) == [] then life == []
            else |life| == |script| + 1 && life[0].sz == 0 && IsMoment(life[0], m.lo, old(m.free))
                 && forall i :: 0 <= i < |script| ==> Answered(life[i], script[i], life[i + 1], m.lo, old(m.free))
  {
    hide IsTree, FreeList, Lookup, Owned, Leaves, NPages, Frames, Bare, Rights, Space, Answered, Demand;
    ghost var total := m.free;
    life := [];
    var pagetable, t0 := Uvmcreate(m);
    if pagetable == 0 { return true, []; }
    ghost var t := t0;
    NothingYet(m.mem[..], m.lo, m.free, t, total);
    PagesOf(0);
    var sz, i := 0, 0;
    life := [Moment(m.mem[..], m.free, t, 0)];
    while i < |script|
      invariant i <= |script| && Table(m, t) && pagetable == t.root * PGSIZE
      invariant Space(m.mem[..], m.lo, m.free, t, NPages(sz), total)
      invariant |life| == i + 1 && life[i] == Moment(m.mem[..], m.free, t, sz) && life[0].sz == 0
      invariant IsMoment(life[0], m.lo, total)
      invariant forall j :: 0 <= j < i ==> Answered(life[j], script[j], life[j + 1], m.lo, total)
    {
      RoundUpPages(sz, script[i].newsz);
      sz, t := Resize(m, pagetable, sz, script[i], t, total);
      ghost var now := Moment(m.mem[..], m.free, t, sz);
      AnswerIs(life[i], script[i], now, m.lo, total);
      life := life + [now];
      i := i + 1;
    }
    ghost var mem, free, n := m.mem[..], m.free, NPages(sz);
    SpaceParts(mem, m.lo, free, t, n, total, 0);
    ok := Uvmfree(m, pagetable, sz, t);
    AllBack(mem, m.lo, free, t, n, total, m.free);
  }

  lemma AllBack(mem: Memory, lo: nat, free: seq<nat>, t: Tree, n: nat, total: seq<nat>, now: seq<nat>)
    requires Space(mem, lo, free, t, n, total) && Gained(Frames(mem, t, 0, n) + free, now, t.pages)
    ensures ToSet(now) == ToSet(total) && |now| == |total|
  {
    hide Bare, Rights, Lookup, FrameAt, Leaf, Frames, Owned, Leaves;
    var back := Frames(mem, t, 0, n);
    forall f ensures f in back + free <==> f in LeafFrames(mem, t, n) + ToSet(free) {
      if f >= 0 {
        FramesAre(mem, t, 0, n, f);
      }
    }
    assert ToSet(back + free) == LeafFrames(mem, t, n) + ToSet(free);
  }
}
