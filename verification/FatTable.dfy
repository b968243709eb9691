/**
 The FAT and the walks over it (fat_table.c, and the loop that frees a chain, which
 fat_file.c and fat_fuse_ops.c write out three times).  An entry holds the number of
 the next cluster; num is the number of data clusters, numbered from 2.
 */
module FatTable {
  import opened Common

  const FREE: nat := 0
  const EOC: nat := 0x0FFFFFF8
  const EOC2: nat := 0x0FFFFFFF

  predicate ValidCluster(num: nat, c: nat) { 2 <= c < num + 2 }

  predicate IsEOC(c: nat) { c == EOC || c == EOC2 }

  /** The entries of all clusters are there, and an end mark is the number of no entry. */
  predicate Sized(m: seq<nat>, num: nat) { num + 2 <= |m| <= EOC }

  /** fat_table_get_next_cluster(): whatever is no cluster number ends the chain. */
  function Next(m: seq<nat>, num: nat, c: nat): (r: nat)
    requires c < |m|
    ensures r == EOC || (ValidCluster(num, r) && r == m[c])
  {
    if ValidCluster(num, m[c]) then m[c] else EOC
  }

  // ---------- walks, on any table ----------

  /** Where k steps from c lead; the end mark leads nowhere else. */
  function Walk(m: seq<nat>, num: nat, c: nat, k: nat): (r: nat)
    requires Sized(m, num) && (ValidCluster(num, c) || c == EOC)
    ensures ValidCluster(num, r) || r == EOC
  {
    if k == 0 then c else
      var p := Walk(m, num, c, k - 1);
      if p == EOC then EOC else Next(m, num, p)
  }

  /** The walk from c comes to x in fewer than i steps. */
  ghost predicate Before(m: seq<nat>, num: nat, c: nat, i: nat, x: nat)
    requires Sized(m, num) && (ValidCluster(num, c) || c == EOC)
  {
    exists j: nat {:trigger Walk(m, num, c, j)} :: j < i && Walk(m, num, c, j) == x
  }

  ghost predicate Reached(m: seq<nat>, num: nat, c: nat, x: nat)
    requires Sized(m, num) && (ValidCluster(num, c) || c == EOC)
  {
    x != EOC && exists j: nat {:trigger Walk(m, num, c, j)} :: Walk(m, num, c, j) == x
  }

  /** Once a walk ends or comes back to where it was, it has been everywhere it ever goes. */
  lemma {:induction false} WalkCloses(m: seq<nat>, num: nat, c: nat, i: nat, k: nat)
    requires Sized(m, num) && (ValidCluster(num, c) || c == EOC)
    requires Walk(m, num, c, i) == EOC || Before(m, num, c, i, Walk(m, num, c, i))
    ensures Walk(m, num, c, k) == EOC || Before(m, num, c, i, Walk(m, num, c, k))
  {
    if k > i {
      WalkCloses(m, num, c, i, k - 1);
      var p := Walk(m, num, c, k - 1);
      if p != EOC {
        var j: nat :| j < i && Walk(m, num, c, j) == p;
        assert Walk(m, num, c, j + 1) == Walk(m, num, c, k);
      }
    }
  }

  /** m with every cluster that the walk from c reaches made free. */
  ghost predicate Freed(m: seq<nat>, num: nat, c: nat, r: seq<nat>)
    requires Sized(m, num) && (ValidCluster(num, c) || c == EOC)
  {
    |r| == |m| && forall x {:trigger r[x]} :: 0 <= x < |m| ==> r[x] == if Reached(m, num, c, x) then FREE else m[x]
  }

  /** m with the first i clusters of the walk made free. */
  ghost predicate FreedSoFar(m: seq<nat>, num: nat, c: nat, i: nat, r: seq<nat>)
    requires Sized(m, num) && (ValidCluster(num, c) || c == EOC)
  {
    |r| == |m| && forall x {:trigger r[x]} :: 0 <= x < |m| ==>
        r[x] == if x != EOC && Before(m, num, c, i, x) then FREE else m[x]
  }

  lemma FreedMore(m: seq<nat>, num: nat, c: nat, i: nat, r: seq<nat>)
    requires Sized(m, num) && (ValidCluster(num, c) || c == EOC)
    requires FreedSoFar(m, num, c, i, r) && Walk(m, num, c, i) != EOC
    ensures FreedSoFar(m, num, c, i + 1, r[Walk(m, num, c, i) := FREE])
  {
    var w := Walk(m, num, c, i);
    forall x | 0 <= x < |m| ensures Before(m, num, c, i + 1, x) <==> x == w || Before(m, num, c, i, x) {
      if Before(m, num, c, i, x) {
        var j: nat :| j < i && Walk(m, num, c, j) == x;
      }
    }
  }

  lemma FreedEnd(m: seq<nat>, num: nat, c: nat, i: nat, r: seq<nat>)
    requires Sized(m, num) && (ValidCluster(num, c) || c == EOC)
    requires FreedSoFar(m, num, c, i, r)
    requires Walk(m, num, c, i) == EOC || Before(m, num, c, i, Walk(m, num, c, i))
    ensures Freed(m, num, c, r)
  {
    forall x | 0 <= x < |m| && x != EOC ensures Reached(m, num, c, x) <==> Before(m, num, c, i, x) {
      if Reached(m, num, c, x) {
        var k: nat :| Walk(m, num, c, k) == x;
        WalkCloses(m, num, c, i, k);
      }
    }
  }

  /** The clusters in use: they bound every run of the freeing loop. */
  function Used(m: seq<nat>, num: nat): (r: set<nat>)
    requires Sized(m, num)
  {
    set c | 2 <= c < num + 2 && m[c] != FREE
  }

  lemma FreeOne(m: seq<nat>, num: nat, c: nat)
    requires Sized(m, num) && ValidCluster(num, c)
    ensures Used(m[c := FREE], num) == Used(m, num) - {c}
    ensures m[c] != FREE ==> |Used(m[c := FREE], num)| < |Used(m, num)|
  {
  }

  // ---------- the table ----------

  class Table {
    const num: nat
    /** The FAT in memory, and the one on the disk. */
    const fat: array<nat>
    const disk: array<nat>

    ghost predicate Valid()
      reads fat, disk
    {
      fat != disk && Sized(fat[..], num) && disk[..] == fat[..]
    }

    constructor (num: nat, entries: seq<nat>)
      requires Sized(entries, num)
      ensures Valid() && this.num == num && fat[..] == entries && fresh(fat) && fresh(disk)
    {
      this.num := num;
      disk := new nat[|entries|](i requires 0 <= i < |entries| => entries[i]);
      fat := new nat[|entries|](i requires 0 <= i < |entries| => entries[i]);
      new;
      assert fat[..] == entries && disk[..] == entries;
    }

    /** fat_table_set_next_cluster(), with no I/O error: the disk, then memory. */
    method SetNext(cur: nat, next: nat)
      requires Valid() && cur < fat.Length
      modifies fat, disk
      ensures Valid() && fat[..] == old(fat[..])[cur := next]
    {
      disk[cur] := next;
      fat[cur] := next;
    }

    method GetNext(cur: nat) returns (r: nat)
      requires cur < fat.Length
      ensures r == Next(fat[..], num, cur)
    {
      r := fat[cur];
      if !ValidCluster(num, r) { r := EOC; }
    }

    /**
     fat_table_get_next_free_cluster().  The scan has no bound but a free entry: None stands
     for its going past the end of the table.
     */
    method NextFree() returns (r: Option<nat>)
      requires Valid()
      ensures r == None <==> forall f :: 2 <= f < fat.Length ==> fat[f] != FREE
      ensures r.Some? ==> ValidCluster(num, r.value) || r.value == EOC
      ensures r.Some? && ValidCluster(num, r.value) ==>
                fat[r.value] == FREE && forall f :: 2 <= f < r.value ==> fat[f] != FREE
      ensures r == None || r.value == EOC <==> forall f: nat :: ValidCluster(num, f) ==> fat[f] != FREE
    {
      var c := 2;
      while c < fat.Length && fat[c] != FREE
        invariant 2 <= c <= fat.Length
        invariant forall j :: 2 <= j < c ==> fat[j] != FREE
      {
        c := c + 1;
      }
      if c == fat.Length { return None; }
      if !ValidCluster(num, c) { c := EOC; }
      r := Some(c);
    }

    /** fat_table_seek_cluster(), to the cluster k links on; ok is that errno is left alone. */
    method Seek(start: nat, k: nat) returns (c: nat, ok: bool)
      requires Valid() && (ValidCluster(num, start) || start == EOC)
      ensures ok <==> k == 0 || Walk(fat[..], num, start, k - 1) != EOC
      ensures c == if ok then Walk(fat[..], num, start, k) else 0
    {
      var i := 0;
      c := start;
      while i < k
        invariant i <= k && c == Walk(fat[..], num, start, i)
        invariant i == 0 || Walk(fat[..], num, start, i - 1) != EOC
      {
        if c == EOC {
          EndStays(fat[..], num, start, i, k - 1);
          return 0, false;
        }
        c := GetNext(c);
        i := i + 1;
      }
      ok := true;
    }

    /**
     The loop that frees a chain.  On any table, one with cycles in it or with chains
     that run into free clusters or into each other, it ends, and frees what the walk reaches.
     */
    method FreeFrom(first: nat)
      requires Valid() && (ValidCluster(num, first) || first == EOC)
      modifies fat, disk
      ensures Valid() && Freed(old(fat[..]), num, first, fat[..])
    {
      hide Walk, Before, Reached, Freed, FreedSoFar, Used;
      ghost var m, i := fat[..], 0;
      FreedStart(m, num, first);
      var c := first;
      while !IsEOC(c)
        invariant Valid() && (ValidCluster(num, c) || c == EOC)
        invariant FreedSoFar(m, num, first, i, fat[..])
        invariant c == Walk(m, num, first, i) || (c == EOC && Before(m, num, first, i, Walk(m, num, first, i)))
        decreases |Used(fat[..], num)|, if c == EOC then 0 else 1
      {
        ghost var now := fat[..];
        ComesBack(m, num, first, i, now);
        FreeOne(now, num, c);
        FreedMore(m, num, first, i, now);
        if now[c] == FREE { assert now[c := FREE] == now; }
        var next := GetNext(c);
        SetNext(c, FREE);
        c := next;
        i := i + 1;
      }
      FreedEnd(m, num, first, i, fat[..]);
    }
  }

  /** A walk that is at its end stays there. */
  lemma {:induction false} EndStays(m: seq<nat>, num: nat, c: nat, i: nat, k: nat)
    requires Sized(m, num) && (ValidCluster(num, c) || c == EOC) && i <= k && Walk(m, num, c, i) == EOC
    ensures Walk(m, num, c, k) == EOC
  {
    if i < k { EndStays(m, num, c, i, k - 1); }
  }

  lemma FreedStart(m: seq<nat>, num: nat, c: nat)
    requires Sized(m, num) && (ValidCluster(num, c) || c == EOC)
    ensures FreedSoFar(m, num, c, 0, m) && Walk(m, num, c, 0) == c
  {
  }

  /**
   The loop at the ith cluster of the walk: the entry it reads is the old one and leads to
   the next cluster, or it was here before, has freed the entry, and stops.
   */
  lemma ComesBack(m: seq<nat>, num: nat, c: nat, i: nat, now: seq<nat>)
    requires Sized(m, num) && (ValidCluster(num, c) || c == EOC)
    requires FreedSoFar(m, num, c, i, now) && Walk(m, num, c, i) != EOC
    ensures var w := Walk(m, num, c, i);
            if Before(m, num, c, i, w)
                then now[w] == FREE && Next(now, num, w) == EOC && Before(m, num, c, i + 1, Walk(m, num, c, i + 1))
            else Next(now, num, w) == Walk(m, num, c, i + 1)
  {
    var w := Walk(m, num, c, i);
    if Before(m, num, c, i, w) {
      var j: nat :| j < i && Walk(m, num, c, j) == w;
      assert Walk(m, num, c, j + 1) == Walk(m, num, c, i + 1);
    }
  }
}
