/**
 The descriptors of the virtio disk driver (virtio_disk.c): alloc_desc(),
 free_desc(), free_chain() and alloc3_desc() on the arrays they change in place.
 */
module VirtioDescriptors {
  import opened Common

  /** struct virtq_desc, with the two flags VRING_DESC_F_NEXT and VRING_DESC_F_WRITE apart. */
  datatype Desc = Desc(addr: int, len: nat, chained: bool, write: bool, next: nat)

  const CLEARED := Desc(0, 0, false, false, 0)

  /** The first free descriptor from i on, or NUM. */
  function FirstFree(free: seq<bool>, i: nat): (r: nat)
    requires i <= |free|
    ensures i <= r <= |free| && (r < |free| ==> free[r]) && forall j :: i <= j < r ==> !free[j]
    decreases |free| - i
  {
    if i == |free| || free[i] then i else FirstFree(free, i + 1)
  }

  /** idx are the lowest free descriptors, in order. */
  ghost predicate Lowest(free: seq<bool>, idx: seq<nat>) {
    && (forall k {:trigger idx[k]} :: 0 <= k < |idx| ==> idx[k] < |free| && free[idx[k]])
    && (forall k, m {:trigger idx[k], idx[m]} :: 0 <= k < m < |idx| ==> idx[k] < idx[m])
    && (forall j :: 0 <= j < |free| && free[j] ==> j in idx || forall k :: 0 <= k < |idx| ==> idx[k] < j)
  }

  /** free after the descriptors idx are taken. */
  function Taken(free: seq<bool>, idx: seq<nat>): (r: seq<bool>)
    ensures |r| == |free| && forall j :: 0 <= j < |free| ==> r[j] == (free[j] && j !in idx)
  {
    seq(|free|, j requires 0 <= j < |free| => free[j] && j !in idx)
  }

  /** At most two descriptors are free. */
  predicate Short(free: seq<bool>) {
    forall i, j, k :: 0 <= i < j < k < |free| ==> !(free[i] && free[j] && free[k])
  }

  /** alloc_desc() takes the next of them. */
  lemma LowestMore(free: seq<bool>, idx: seq<nat>)
    requires Lowest(free, idx) && FirstFree(Taken(free, idx), 0) < |free|
    ensures Lowest(free, idx + [FirstFree(Taken(free, idx), 0)])
    ensures Taken(free, idx)[FirstFree(Taken(free, idx), 0) := false]
        == Taken(free, idx + [FirstFree(Taken(free, idx), 0)])
  {
    var x := FirstFree(Taken(free, idx), 0);
    assert Taken(free, idx)[x];
    forall k | 0 <= k < |idx| ensures idx[k] < x {
      assert idx[k] in idx;
    }
  }

  /** With none left after fewer than three, at most two were free. */
  lemma LowestAll(free: seq<bool>, idx: seq<nat>)
    requires Lowest(free, idx) && |idx| < 3 && FirstFree(Taken(free, idx), 0) == |free|
    ensures Short(free)
  {
    forall j | 0 <= j < |free| && free[j] ensures j in idx { assert !Taken(free, idx)[j]; }
  }

  /** The descriptors i0 -> i1 -> i2 of a request. */
  predicate IsChain(desc: seq<Desc>, i0: nat, i1: nat, i2: nat) {
    && i0 < |desc| && i1 < |desc| && i2 < |desc| && i0 != i1 && i0 != i2 && i1 != i2
    && desc[i0].chained && desc[i0].next == i1 && desc[i1].chained && desc[i1].next == i2 && !desc[i2].chained
  }

  /** Distinct descriptors in use, from head on along the links. */
  ghost predicate IsPath(desc: seq<Desc>, free: seq<bool>, head: nat, path: seq<nat>)
    ensures IsPath(desc, free, head, path) && path != [] ==> path[|path| - 1] < |desc|
  {
    && |desc| == |free|
    && (forall i {:trigger path[i]} :: 0 <= i < |path| ==> path[i] < |desc| && !free[path[i]])
    && (forall i, j {:trigger path[i], path[j]} :: 0 <= i < j < |path| ==> path[i] != path[j])
    && (path != [] ==> path[0] == head)
    && (forall j {:trigger Linked(desc, path, j)} :: 1 <= j < |path| ==> Linked(desc, path, j))
  }

  lemma PathStarts(desc: seq<Desc>, free: seq<bool>, head: nat)
    requires |desc| == |free|
    ensures IsPath(desc, free, head, [])
  {
  }

  predicate Linked(desc: seq<Desc>, path: seq<nat>, j: nat)
    requires 1 <= j < |path| && path[j - 1] < |desc|
  {
    desc[path[j - 1]].chained && path[j] == desc[path[j - 1]].next
  }

  lemma PathMore(desc: seq<Desc>, free: seq<bool>, head: nat, path: seq<nat>)
    requires IsPath(desc, free, head, path) && !PathEnds(desc, path) && !Stuck(desc, free, head, path)
    ensures IsPath(desc, free, head, path + [Ahead(desc, head, path)])
  {
    var more := path + [Ahead(desc, head, path)];
    forall j | 1 <= j < |more| ensures Linked(desc, more, j) {
      if j < |path| { assert Linked(desc, path, j); }
    }
  }

  /** The descriptor after a path. */
  function Ahead(desc: seq<Desc>, head: nat, path: seq<nat>): nat
    requires path != [] ==> path[|path| - 1] < |desc|
  {
    if path == [] then head else desc[path[|path| - 1]].next
  }

  predicate PathEnds(desc: seq<Desc>, path: seq<nat>)
    requires path != [] ==> path[|path| - 1] < |desc|
  {
    path != [] && !desc[path[|path| - 1]].chained
  }

  /** The link after the path leads out of the table, to a free descriptor, or back to the path. */
  predicate Stuck(desc: seq<Desc>, free: seq<bool>, head: nat, path: seq<nat>)
    requires path != [] ==> path[|path| - 1] < |desc|
  {
    var x := Ahead(desc, head, path);
    x >= |free| || free[x] || x in path
  }

  /** A request's chain is the path from its head, so free_chain() frees those three and does not panic. */
  lemma ChainIsPath(desc: seq<Desc>, free: seq<bool>, i0: nat, i1: nat, i2: nat, path: seq<nat>)
    requires IsChain(desc, i0, i1, i2) && |free| == |desc| && !free[i0] && !free[i1] && !free[i2]
    requires IsPath(desc, free, i0, path) && (PathEnds(desc, path) || Stuck(desc, free, i0, path))
    ensures path == [i0, i1, i2] && PathEnds(desc, path)
  {
    assert |path| > 1 ==> Linked(desc, path, 1);
    assert |path| > 2 ==> Linked(desc, path, 2);
    assert |path| > 3 ==> Linked(desc, path, 3);
  }

  function Used(free: seq<bool>): (n: nat)
    ensures n <= |free|
  {
    if free == [] then 0 else Used(free[..|free| - 1]) + if free[|free| - 1] then 0 else 1
  }

  lemma {:induction false} UsedFreed(free: seq<bool>, i: nat)
    requires i < |free| && !free[i]
    ensures Used(free[i := true]) == Used(free) - 1
  {
    var n := |free| - 1;
    if i == n {
      assert free[i := true][..n] == free[..n];
    } else {
      UsedFreed(free[..n], i);
      assert free[i := true][..n] == free[..n][i := true];
    }
  }

  class Descriptors {
    const desc: array<Desc>
    const free: array<bool>

    predicate Valid()
      reads this
    {
      desc.Length == free.Length
    }

    constructor (num: nat)
      ensures Valid() && free.Length == num && fresh(desc) && fresh(free)
      ensures forall i :: 0 <= i < num ==> free[i] && desc[i] == CLEARED
    {
      desc := new Desc[num](_ => CLEARED);
      free := new bool[num](_ => true);
    }

    /** alloc_desc(); None for -1. */
    method AllocDesc() returns (r: Option<nat>)
      requires Valid()
      modifies free
      ensures var k := FirstFree(old(free[..]), 0);
              if k == free.Length then r == None && free[..] == old(free[..])
              else r == Some(k) && free[..] == old(free[..])[k := false]
    {
      ghost var was := free[..];
      var i := 0;
      while i < free.Length
        invariant i <= free.Length && free[..] == was && FirstFree(was, 0) == FirstFree(was, i)
      {
        if free[i] {
          free[i] := false;
          assert free[..] == was[i := false];
          return Some(i);
        }
        i := i + 1;
      }
      r := None;
    }

    /** free_desc(); false is either of its panics. */
    method FreeDesc(i: nat) returns (ok: bool)
      requires Valid()
      modifies desc, free
      ensures ok <==> i < free.Length && !old(free[..])[i]
      ensures ok ==> free[..] == old(free[..])[i := true] && desc[..] == old(desc[..])[i := CLEARED]
      ensures !ok ==> free[..] == old(free[..]) && desc[..] == old(desc[..])
    {
      ghost var f, d := free[..], desc[..];
      if i >= free.Length { return false; }
      if free[i] { return false; }
      desc[i] := CLEARED;
      free[i] := true;
      assert free[..] == f[i := true] && desc[..] == d[i := CLEARED];
      ok := true;
    }

    /**
     free_chain(); false is a panic.  On any links it ends, as a descriptor met twice is free
     by then, and frees what it meets up to one that is not chained on, or to the panic.
     */
    method FreeChain(head: nat) returns (ok: bool, ghost path: seq<nat>)
      requires Valid()
      modifies desc, free
      ensures IsPath(old(desc[..]), old(free[..]), head, path) && ok == PathEnds(old(desc[..]), path)
      ensures !ok ==> Stuck(old(desc[..]), old(free[..]), head, path)
      ensures forall x {:trigger free[..][x]} :: 0 <= x < free.Length ==> free[..][x] == (old(free[..])[x] || x in path)
      ensures forall x {:trigger desc[..][x]} :: 0 <= x < desc.Length ==>
                desc[..][x] == if x in path then CLEARED else old(desc[..])[x]
    {
      hide IsPath, Used;
      ghost var d, f := desc[..], free[..];
      PathStarts(d, f, head);
      var i: nat := head;
      path := [];
      while true
        invariant desc.Length == free.Length && IsPath(d, f, head, path) && i == Ahead(d, head, path)
        invariant path != [] ==> d[path[|path| - 1]].chained
        invariant forall x {:trigger free[..][x]} :: 0 <= x < free.Length ==> free[..][x] == (f[x] || x in path)
        invariant forall x {:trigger desc[..][x]} :: 0 <= x < desc.Length ==>
            desc[..][x] == if x in path then CLEARED else d[x]
        decreases Used(free[..])
      {
        if i >= free.Length { return false, path; }
        var chained, nxt := desc[i].chained, desc[i].next;
        ghost var before := free[..];
        ok := FreeDesc(i);
        if !ok { return; }
        UsedFreed(before, i);
        PathMore(d, f, head, path);
        path := path + [i];
        if !chained { break; }
        i := nxt;
      }
      ok := true;
    }

    /** alloc3_desc(); None for -1, after giving back what it took. */
    method Alloc3() returns (r: Option<seq<nat>>)
      requires Valid()
      modifies desc, free
      ensures r.Some? ==>
                && |r.value| == 3 && Lowest(old(free[..]), r.value)
                && free[..] == Taken(old(free[..]), r.value) && desc[..] == old(desc[..])
      ensures r == None ==> Short(old(free[..])) && free[..] == old(free[..])
      ensures forall i :: 0 <= i < desc.Length && !old(free[..])[i] ==> desc[..][i] == old(desc[..])[i]
    {
      ghost var f, d := free[..], desc[..];
      var idx: seq<nat> := [];
      assert Taken(f, []) == f;
      while |idx| < 3
        invariant |idx| <= 3 && Lowest(f, idx) && free[..] == Taken(f, idx) && desc[..] == d
        decreases 3 - |idx|
      {
        var x := AllocDesc();
        if x == None {
          LowestAll(f, idx);
          GiveBack(idx, f);
          return None;
        }
        LowestMore(f, idx);
        idx := idx + [x.value];
      }
      r := Some(idx);
    }

    /** The inner loop of alloc3_desc(). */
    method GiveBack(idx: seq<nat>, ghost f: seq<bool>)
      requires Valid() && |f| == free.Length && Lowest(f, idx) && free[..] == Taken(f, idx)
      modifies desc, free
      ensures free[..] == f
      ensures forall i :: 0 <= i < desc.Length && !f[i] ==> desc[..][i] == old(desc[..])[i]
    {
      ghost var d := desc[..];
      var j := 0;
      assert idx[0..] == idx;
      while j < |idx|
        invariant j <= |idx| && free[..] == Taken(f, idx[j..]) && desc.Length == free.Length == |f|
        invariant forall i :: 0 <= i < desc.Length && !f[i] ==> desc[..][i] == d[i]
      {
        assert idx[j..] == [idx[j]] + idx[j + 1..];
        var ok := FreeDesc(idx[j]);
        assert Taken(f, idx[j..])[idx[j] := true] == Taken(f, idx[j + 1..]);
        j := j + 1;
      }
      assert Taken(f, []) == f;
    }
  }
}
