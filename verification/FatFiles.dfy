/**
 Files on a FAT volume as disjoint chains of clusters (fat_file_init(),
 fat_file_truncate() and fat_file_pread() in fat_file.c, and the chain freeing of
 fat_fuse_unlink() and fat_fuse_rmdir() in fat_fuse_ops.c).
 */
module FatFiles {
  import opened Common
  import opened Arithmetic
  import opened FatTable

  // ---------- chains ----------

  /** The ith cluster of a chain, or the end mark. */
  function At(ch: seq<nat>, i: nat): nat { if i < |ch| then ch[i] else EOC }

  /** From the tth cluster on, each leads to the one after it, and the last to the end mark. */
  ghost predicate Leads(m: seq<nat>, num: nat, ch: seq<nat>, t: nat)
    requires Sized(m, num)
  {
    forall i {:trigger ch[i]} :: t <= i < |ch| ==> ValidCluster(num, ch[i]) && Next(m, num, ch[i]) == At(ch, i + 1)
  }

  ghost predicate Distinct(ch: seq<nat>) {
    forall i, j {:trigger ch[i], ch[j]} :: 0 <= i < j < |ch| ==> ch[i] != ch[j]
  }

  /** ch is a chain of clusters in use, with no cycle, up to an end mark. */
  ghost predicate IsChain(m: seq<nat>, num: nat, ch: seq<nat>)
    requires Sized(m, num)
  {
    && 0 < |ch| && Leads(m, num, ch, 0) && Distinct(ch)
    && forall i {:trigger ch[i]} :: 0 <= i < |ch| ==> m[ch[i]] != FREE
  }

  ghost predicate Apart(chains: map<nat, seq<nat>>) {
    forall s, t, c {:trigger c in chains[s], c in chains[t]} ::
      s in chains && t in chains && s != t && c in chains[s] ==> c !in chains[t]
  }

  /** The files' chains, by start cluster: acyclic, up to an end mark, and pairwise disjoint. */
  ghost predicate Partition(m: seq<nat>, num: nat, chains: map<nat, seq<nat>>) {
    && Sized(m, num) && Apart(chains)
    && forall s {:trigger chains[s]} :: s in chains ==> IsChain(m, num, chains[s]) && chains[s][0] == s
  }

  /** The clusters in use that no file has. */
  ghost function Lost(m: seq<nat>, num: nat, chains: map<nat, seq<nat>>): set<nat>
    requires Sized(m, num)
  {
    set c | 2 <= c < num + 2 && m[c] != FREE && forall s :: s in chains ==> c !in chains[s]
  }

  lemma SameChain(m: seq<nat>, num: nat, r: seq<nat>, ch: seq<nat>)
    requires Sized(m, num) && IsChain(m, num, ch) && |r| == |m| && forall c :: c in ch && c < |m| ==> r[c] == m[c]
    ensures IsChain(r, num, ch)
  {
    forall i | 0 <= i < |ch| ensures r[ch[i]] == m[ch[i]] { }
  }

  /** Where k steps along a chain lead. */
  lemma {:induction false} WalkAlong(m: seq<nat>, num: nat, ch: seq<nat>, t: nat, k: nat)
    requires Sized(m, num) && t <= |ch| && Leads(m, num, ch, t)
    ensures Walk(m, num, At(ch, t), k) == At(ch, t + k)
  {
    hide Leads;
    if k > 0 {
      WalkAlong(m, num, ch, t, k - 1);
      if t + k - 1 < |ch| { LeadsAt(m, num, ch, t, t + k - 1); }
    }
  }

  lemma LeadsAt(m: seq<nat>, num: nat, ch: seq<nat>, t: nat, i: nat)
    requires Sized(m, num) && Leads(m, num, ch, t) && t <= i < |ch|
    ensures ValidCluster(num, ch[i]) && Next(m, num, ch[i]) == At(ch, i + 1)
  {
  }

  /** What the freeing loop does to the rest of a chain. */
  lemma FreesTail(m: seq<nat>, num: nat, ch: seq<nat>, t: nat, r: seq<nat>)
    requires Sized(m, num) && t <= |ch| && Leads(m, num, ch, t) && Freed(m, num, At(ch, t), r)
    ensures |r| == |m| && forall x {:trigger r[x]} :: 0 <= x < |m| ==> r[x] == if x in ch[t..] then FREE else m[x]
  {
    hide Walk;
    forall x | 0 <= x < |m| ensures Reached(m, num, At(ch, t), x) <==> x in ch[t..] {
      if Reached(m, num, At(ch, t), x) {
        var k: nat :| Walk(m, num, At(ch, t), k) == x;
        WalkAlong(m, num, ch, t, k);
        assert t + k < |ch| && ch[t..][k] == x;
      }
      if x in ch[t..] {
        var k: nat :| k < |ch| - t && ch[t..][k] == x;
        WalkAlong(m, num, ch, t, k);
        assert ch[t + k] == x;
      }
    }
  }

  // ---------- what the operations do to the chains ----------

  lemma NewChain(m: seq<nat>, num: nat, c: nat)
    requires Sized(m, num) && ValidCluster(num, c) && m[c] == EOC
    ensures IsChain(m, num, [c])
  {
  }

  lemma InUse(m: seq<nat>, num: nat, ch: seq<nat>, c: nat)
    requires Sized(m, num) && IsChain(m, num, ch) && c in ch
    ensures c < |m| && m[c] != FREE
  {
  }

  lemma StartsChain(m: seq<nat>, num: nat, chains: map<nat, seq<nat>>, c: nat)
    requires Partition(m, num, chains) && ValidCluster(num, c) && m[c] == FREE
    ensures c !in chains && Partition(m[c := EOC], num, chains[c := [c]])
    ensures Lost(m[c := EOC], num, chains[c := [c]]) == Lost(m, num, chains)
  {
    hide Leads, Distinct;
    var r, now := m[c := EOC], chains[c := [c]];
    assert IsChain(r, num, [c]) by { NewChain(r, num, c); }
    forall s | s in chains ensures s != c && c !in chains[s] && IsChain(r, num, chains[s]) {
      if c in chains[s] { InUse(m, num, chains[s], c); }
      SameChain(m, num, r, chains[s]);
    }
    forall x | x in Lost(m, num, chains) ensures x in Lost(r, num, now) { }
    forall x | x in Lost(r, num, now) ensures x in Lost(m, num, chains) {
      assert c in now && now[c] == [c] && x != c;
      forall s | s in chains ensures x !in chains[s] { assert s in now; }
    }
  }

  /** The chain of s cut off after its kth cluster, the rest free. */
  ghost predicate CutOff(m: seq<nat>, ch: seq<nat>, k: nat, r: seq<nat>) {
    && k < |ch| && |r| == |m|
    && forall x {:trigger r[x]} :: 0 <= x < |m| ==>
        r[x] == if x in ch[k + 1..] then FREE else if x == ch[k] then EOC else m[x]
  }

  lemma CutChain(m: seq<nat>, num: nat, ch: seq<nat>, k: nat, r: seq<nat>)
    requires Sized(m, num) && IsChain(m, num, ch) && CutOff(m, ch, k, r)
    ensures IsChain(r, num, ch[..k + 1])
  {
    hide Next;
    var p := ch[..k + 1];
    forall i {:trigger p[i]} | 0 <= i < |p| ensures r[p[i]] == if i == k then EOC else m[p[i]] {
      NotCut(ch, k, i);
    }
    CutLeads(m, num, ch, k, r);
  }

  lemma NotCut(ch: seq<nat>, k: nat, i: nat)
    requires Distinct(ch) && i <= k < |ch|
    ensures ch[i] !in ch[k + 1..] && ch[i] == ch[..k + 1][i] && (i < k ==> ch[i] != ch[k])
  {
    forall j {:trigger ch[k + 1..][j]} | 0 <= j < |ch[k + 1..]| ensures ch[k + 1..][j] != ch[i] {
      assert ch[k + 1..][j] == ch[k + 1 + j];
    }
  }

  lemma CutLeads(m: seq<nat>, num: nat, ch: seq<nat>, k: nat, r: seq<nat>)
    requires Sized(m, num) && Leads(m, num, ch, 0) && k < |ch| && |r| == |m|
    requires forall i {:trigger ch[..k + 1][i]} :: 0 <= i <= k && ch[i] < |r| ==>
               r[ch[..k + 1][i]] == if i == k then EOC else m[ch[i]]
    ensures Leads(r, num, ch[..k + 1], 0)
  {
    var p := ch[..k + 1];
    forall i {:trigger p[i]} | 0 <= i < |p| ensures ValidCluster(num, p[i]) && Next(r, num, p[i]) == At(p, i + 1) {
      assert p[i] == ch[i];
    }
  }

  lemma CutKeeps(m: seq<nat>, num: nat, chains: map<nat, seq<nat>>, s: nat, k: nat, r: seq<nat>)
    requires Partition(m, num, chains) && s in chains && CutOff(m, chains[s], k, r)
    ensures Partition(r, num, chains[s := chains[s][..k + 1]])
  {
    hide Leads, Distinct, IsChain;
    var ch, now := chains[s], chains[s := chains[s][..k + 1]];
    CutChain(m, num, ch, k, r);
    forall t | t in chains && t != s ensures IsChain(r, num, chains[t]) {
      forall c | c in chains[t] ensures c !in ch { }
      CutApart(m, ch, k, r, chains[t]);
      SameChain(m, num, r, chains[t]);
    }
    forall t, u, c | t in now && u in now && t != u && c in now[t] ensures c !in now[u] {
      assert c in chains[t] && c !in chains[u] && forall x :: x in ch[..k + 1] ==> x in ch;
    }
  }

  lemma CutApart(m: seq<nat>, ch: seq<nat>, k: nat, r: seq<nat>, other: seq<nat>)
    requires CutOff(m, ch, k, r) && forall c :: c in other ==> c !in ch
    ensures forall c :: c in other && c < |m| ==> r[c] == m[c]
  {
    forall c | c in other && c < |m| ensures r[c] == m[c] {
      assert c !in ch && ch[k] in ch && forall x :: x in ch[k + 1..] ==> x in ch;
    }
  }

  lemma CutLoses(m: seq<nat>, num: nat, chains: map<nat, seq<nat>>, s: nat, k: nat, r: seq<nat>)
    requires Partition(m, num, chains) && s in chains && CutOff(m, chains[s], k, r)
    ensures Lost(r, num, chains[s := chains[s][..k + 1]]) == Lost(m, num, chains)
  {
    hide Leads, Distinct, IsChain, Apart;
    var ch, now := chains[s], chains[s := chains[s][..k + 1]];
    assert ch == ch[..k + 1] + ch[k + 1..];
    forall x | x in Lost(m, num, chains) ensures x in Lost(r, num, now) {
      CutApart(m, ch, k, r, [x]);
    }
    forall x | x in Lost(r, num, now) ensures x in Lost(m, num, chains) {
      assert s in now && x !in ch[..k + 1] && x !in ch[k + 1..];
      CutApart(m, ch, k, r, [x]);
      forall t | t in chains ensures x !in chains[t] { assert t in now; }
    }
  }

  ghost predicate Gone(m: seq<nat>, ch: seq<nat>, r: seq<nat>) {
    |r| == |m| && forall x {:trigger r[x]} :: 0 <= x < |m| ==> r[x] == if x in ch then FREE else m[x]
  }

  lemma GoneKeeps(m: seq<nat>, num: nat, chains: map<nat, seq<nat>>, s: nat, r: seq<nat>)
    requires Partition(m, num, chains) && s in chains && Gone(m, chains[s], r)
    ensures Partition(r, num, chains - {s}) && Lost(r, num, chains - {s}) == Lost(m, num, chains)
  {
    var now := chains - {s};
    forall t | t in now ensures IsChain(r, num, chains[t]) {
      forall c | c in chains[t] ensures c !in chains[s] { }
      SameChain(m, num, r, chains[t]);
    }
    forall x | x in Lost(m, num, chains) ensures x in Lost(r, num, now) { assert x !in chains[s]; }
    forall x | x in Lost(r, num, now) ensures x in Lost(m, num, chains) {
      assert x !in chains[s];
      forall t | t in chains ensures x !in chains[t] { assert t == s || t in now; }
    }
  }

  /** The table's walk from a file's start cluster is along its chain. */
  lemma WalkFile(m: seq<nat>, num: nat, chains: map<nat, seq<nat>>, s: nat, k: nat)
    requires Partition(m, num, chains) && s in chains
    ensures ValidCluster(num, s) && s == At(chains[s], 0) && Leads(m, num, chains[s], 0) && chains[s][0..] == chains[s]
    ensures Walk(m, num, s, k) == At(chains[s], k) && (k > 0 ==> Walk(m, num, s, k - 1) == At(chains[s], k - 1))
    ensures forall i {:trigger chains[s][i]} :: 0 <= i < |chains[s]| ==> ValidCluster(num, chains[s][i])
  {
    WalkAlong(m, num, chains[s], 0, k);
    if k > 0 { WalkAlong(m, num, chains[s], 0, k - 1); }
  }

  // ---------- sizes, with bpc bytes in a cluster: offset >> cluster_order is Blk, the masked offset Ofs ----------

  /** fat_table_get_clusters_for_size(), and at least one, as fat_file_truncate() counts. */
  function Clusters(bpc: nat, size: nat): (r: nat)
    requires bpc > 0
    ensures 1 <= r
  {
    var n := (size + (bpc - 1)) / bpc;
    if n < 1 then 1 else n
  }

  lemma ClustersOf(bpc: nat, size: nat)
    requires bpc > 0
    ensures Clusters(bpc, size) == if size == 0 then 1 else Blk(bpc, size) + if Ofs(bpc, size) == 0 then 0 else 1
  {
    assert size == size / bpc * bpc + size % bpc;
    ClustersAt(bpc, size / bpc, size % bpc);
  }

  lemma ClustersAt(bpc: nat, q: nat, o: nat)
    requires o < bpc
    ensures Clusters(bpc, q * bpc + o) == if q == 0 && o == 0 then 1 else q + if o == 0 then 0 else 1
    ensures q * bpc + o == 0 <==> q == 0 && o == 0
  {
    Times(1, q, bpc);
    if o == 0 {
      DivMod(q, bpc, bpc - 1);
    } else {
      Succ(q, bpc);
      DivMod(q + 1, bpc, o - 1);
    }
  }

  lemma Succ(q: nat, n: nat)
    ensures (q + 1) * n == q * n + n
  {
  }

  /** A byte below the size is in one of the clusters for it. */
  lemma IndexBelow(bpc: nat, offset: nat, size: nat)
    requires bpc > 0 && offset < size
    ensures Blk(bpc, offset) < Clusters(bpc, size)
  {
    hide Clusters;
    ClustersOf(bpc, size);
    Below(bpc, offset, size);
  }

  lemma Below(bpc: nat, a: nat, b: nat)
    requires bpc > 0 && a <= b
    ensures Blk(bpc, a) <= Blk(bpc, b)
    ensures a < b && Ofs(bpc, b) == 0 ==> Blk(bpc, a) < Blk(bpc, b)
  {
    assert a == a / bpc * bpc + a % bpc && b == b / bpc * bpc + b % bpc;
    Times(b / bpc + 1, a / bpc, bpc);
    Times(b / bpc, a / bpc, bpc);
  }

  /** The cut of fat_file_truncate() takes place. */
  predicate Cuts(bpc: nat, size: nat, offset: nat)
    requires bpc > 0
  {
    offset <= size && Clusters(bpc, offset) < Clusters(bpc, size)
  }

  /** A cut keeps clusters enough for the new size, and no more except at a nonzero multiple of bpc: then one more. */
  lemma CutCount(bpc: nat, size: nat, offset: nat)
    requires bpc > 0 && Cuts(bpc, size, offset)
    ensures Blk(bpc, offset) < Clusters(bpc, size)
    ensures Clusters(bpc, offset) <= Blk(bpc, offset) + 1 <= Clusters(bpc, offset) + 1
    ensures Blk(bpc, offset) + 1 == Clusters(bpc, offset) <==> offset == 0 || Ofs(bpc, offset) != 0
  {
    ClustersOf(bpc, offset);
    if offset < size { IndexBelow(bpc, offset, size); }
  }

  /** A file whose one-cluster chain is too short for its size, on which a cut reads the entry of the end mark. */
  lemma CutOffTableHappens(bpc: nat)
    requires bpc > 0
    ensures var m, num, chains: map<nat, seq<nat>> := [FREE, FREE, EOC], 1, map[2 := [2]];
            && Partition(m, num, chains) && Cuts(bpc, bpc + 1, bpc)
            && Blk(bpc, bpc) == |chains[2]| && Walk(m, num, 2, Blk(bpc, bpc)) == EOC && EOC >= |m|
  {
    var m, chains: map<nat, seq<nat>> := [FREE, FREE, EOC], map[2 := [2]];
    assert chains[2] == [2] && IsChain(m, 1, [2]) by { NewChain(m, 1, 2); }
    ClustersAt(bpc, 1, 0);
    if bpc == 1 { ClustersAt(1, 2, 0); } else { ClustersAt(bpc, 1, 1); }
    DivMod(1, bpc, 0);
    WalkFile(m, 1, chains, 2, 1);
  }

  // ---------- the volume ----------

  datatype InitResult = Created(start: nat) | InUse | OffTable

  datatype CutResult = Shortened | Unchanged | CutOffTable

  class File {
    var start: nat
    var size: nat
    constructor (start: nat, size: nat)
      ensures this.start == start && this.size == size
    {
      this.start, this.size := start, size;
    }
  }

  class Volume {
    const table: Table
    const bpc: nat
    /** The data region of the disk: cluster 2 comes first. */
    const data: seq<bv8>
    ghost var chains: map<nat, seq<nat>>

    ghost predicate Valid()
      reads this, table.fat, table.disk
    {
      && bpc > 0 && |data| == table.num * bpc
      && table.Valid() && Partition(table.fat[..], table.num, chains)
    }

    /** The volume as it is mounted, with the chains that its directories name. */
    constructor (table: Table, bpc: nat, data: seq<bv8>, ghost chains: map<nat, seq<nat>>)
      requires table.Valid() && bpc > 0 && |data| == table.num * bpc && Partition(table.fat[..], table.num, chains)
      ensures Valid() && this.table == table && this.bpc == bpc && this.data == data && this.chains == chains
    {
      this.table, this.bpc, this.data, this.chains := table, bpc, data, chains;
    }

    /**
     fat_file_init(), as far as the table goes.  The cluster taken is the lowest that is free; when
     none is, the code does not come to its own test but reads outside the table, in the scan
     or at the end mark that the scan gives.
     */
    method Init() returns (r: InitResult)
      requires Valid()
      modifies this`chains, table.fat, table.disk
      ensures Valid() && r != InUse
      ensures r == OffTable <==> forall c: nat :: ValidCluster(table.num, c) ==> old(table.fat[c]) != FREE
      ensures r == OffTable ==> chains == old(chains) && table.fat[..] == old(table.fat[..])
      ensures r.Created? ==>
                && ValidCluster(table.num, r.start)
                && old(table.fat[r.start]) == FREE && (forall c :: 2 <= c < r.start ==> old(table.fat[c]) != FREE)
                && r.start !in old(chains) && chains == old(chains)[r.start := [r.start]]
                && table.fat[..] == old(table.fat[..])[r.start := EOC]
      ensures Lost(table.fat[..], table.num, chains) == old(Lost(table.fat[..], table.num, chains))
    {
      hide Partition, Lost;
      var c := table.NextFree();
      if c == None || c.value >= table.fat.Length { return OffTable; }
      var start := TakeStart(c.value);
      r := if start == None then InUse else Created(c.value);
    }

    /** The end of fat_file_init(): start cluster c is refused if it is in use. */
    method TakeStart(c: nat) returns (r: Option<nat>)
      requires Valid() && ValidCluster(table.num, c)
      modifies this`chains, table.fat, table.disk
      ensures Valid() && r == if old(table.fat[c]) != FREE then None else Some(c)
      ensures chains == if r.None? then old(chains) else old(chains)[c := [c]]
      ensures table.fat[..] == if r.None? then old(table.fat[..]) else old(table.fat[..])[c := EOC]
      ensures r.Some? ==> c !in old(chains)
      ensures Lost(table.fat[..], table.num, chains) == old(Lost(table.fat[..], table.num, chains))
    {
      hide Partition, Lost;
      if table.fat[c] != FREE { return None; }
      StartsChain(table.fat[..], table.num, chains, c);
      chains := chains[c := [c]];
      table.SetNext(c, EOC);
      r := Some(c);
    }

    /**
     fat_file_truncate().  When it cuts, the chain keeps its first Blk(offset) + 1 clusters.
     A chain that ends before that makes the seek fail, and nothing changes.  One that ends
     just there makes the seek succeed with the end mark, whose entry the code goes on to
     read, outside the table.
     */
    method Truncate(f: File, offset: nat) returns (r: CutResult)
      requires Valid() && f.start in chains
      modifies this`chains, table.fat, table.disk, f`size
      ensures Valid()
      ensures r == CutOffTable <==> old(Cuts(bpc, f.size, offset)) && Blk(bpc, offset) == |old(chains)[f.start]|
      ensures r == Shortened <==> old(Cuts(bpc, f.size, offset)) && Blk(bpc, offset) < |old(chains)[f.start]|
      ensures var ch, k := old(chains)[f.start], Blk(bpc, offset);
              if r == Shortened then
                && f.size == offset && chains == old(chains)[f.start := ch[..k + 1]]
                && CutOff(old(table.fat[..]), ch, k, table.fat[..])
              else f.size == old(f.size) && chains == old(chains) && table.fat[..] == old(table.fat[..])
      ensures Lost(table.fat[..], table.num, chains) == old(Lost(table.fat[..], table.num, chains))
    {
      hide Lost, Freed, Walk, Partition, Leads, Blk, Clusters;
      ghost var m, ch, k := table.fat[..], chains[f.start], Blk(bpc, offset);
      if offset > f.size || Clusters(bpc, offset) >= Clusters(bpc, f.size) { return Unchanged; }
      WalkFile(m, table.num, chains, f.start, k);
      var last, ok := table.Seek(f.start, Blk(bpc, offset));
      if !ok { return Unchanged; }
      if last >= table.fat.Length { return CutOffTable; }
      var next := table.GetNext(last);
      table.SetNext(last, EOC);
      TailAfterCut(m, table.num, chains, f.start, k);
      ghost var cut := table.fat[..];
      table.FreeFrom(next);
      FreesTail(cut, table.num, ch, k + 1, table.fat[..]);
      CutKeeps(m, table.num, chains, f.start, k, table.fat[..]);
      CutLoses(m, table.num, chains, f.start, k, table.fat[..]);
      chains := chains[f.start := ch[..k + 1]];
      f.size := offset;
      r := Shortened;
    }

    /** The loops of fat_fuse_unlink() and fat_fuse_rmdir(), for a file with this start cluster. */
    method Unlink(f: File)
      requires Valid() && f.start in chains
      modifies this`chains, table.fat, table.disk, f`size
      ensures Valid() && f.size == 0 && chains == old(chains) - {f.start}
      ensures Gone(old(table.fat[..]), old(chains)[f.start], table.fat[..])
      ensures Lost(table.fat[..], table.num, chains) == old(Lost(table.fat[..], table.num, chains))
    {
      hide Lost, Freed, Walk, Partition, Leads;
      ghost var m, ch := table.fat[..], chains[f.start];
      WalkFile(m, table.num, chains, f.start, 0);
      table.FreeFrom(f.start);
      FreesTail(m, table.num, ch, 0, table.fat[..]);
      GoneKeeps(m, table.num, chains, f.start, table.fat[..]);
      chains := chains - {f.start};
      f.size := 0;
    }

    /**
     fat_file_pread(), with no I/O error; the bytes put in the buffer.  It stops where the chain does, if that is first.
     */
    method Pread(f: File, size: nat, offset: nat) returns (buf: seq<bv8>)
      requires Valid() && f.start in chains
      ensures var all := Content(data, table.num, bpc, chains[f.start], f.size);
              var have := Readable(bpc, |chains[f.start]|, f.size);
              buf == if offset >= have then []
                  else Slice(all, offset, if offset + size <= have then offset + size else have)
    {
      hide Walk, Next, Partition, Leads, Lost, Content, Blk, Ofs, Place, Readable, Slice;
      ghost var ch, m := chains[f.start], table.fat[..];
      ghost var all := Content(data, table.num, bpc, ch, f.size);
      buf := [];
      if offset > f.size { return; }
      assert Slice(all, offset, offset) == [];
      var todo := if size < f.size - offset then size else f.size - offset;
      if todo == 0 { return; }
      ghost var end := offset + todo;
      WalkFile(m, table.num, chains, f.start, Blk(bpc, offset));
      ReadableAt(bpc, |ch|, f.size, offset);
      var cluster, ok := table.Seek(f.start, Blk(bpc, offset));
      if !ok { return; }
      var at := offset;
      while todo > 0
        invariant 0 <= todo && at + todo == end <= |all| && offset <= at && buf == Slice(all, offset, at)
        invariant todo > 0 ==> cluster == At(ch, Blk(bpc, at))
        invariant at == offset < end || at <= Readable(bpc, |ch|, f.size)
        decreases todo
      {
        ReadableAt(bpc, |ch|, f.size, at);
        if cluster == EOC { break; }
        var o := Ofs(bpc, at);
        var n := if bpc - o < todo then bpc - o else todo;
        var place := Place(bpc, cluster);
        ReadMore(data, table.num, bpc, ch, f.size, offset, at, n);
        LeadsAt(m, table.num, ch, 0, Blk(bpc, at));
        buf := buf + data[place + o..place + o + n];
        if n < todo { NextPiece(bpc, at); }
        at, todo := at + n, todo - n;
        cluster := table.GetNext(cluster);
      }
    }
  }

  lemma TailAfterCut(m: seq<nat>, num: nat, chains: map<nat, seq<nat>>, s: nat, k: nat)
    requires Partition(m, num, chains) && s in chains && k < |chains[s]|
    ensures var ch := chains[s];
            && ValidCluster(num, ch[k]) && Next(m, num, ch[k]) == At(ch, k + 1)
            && Leads(m[ch[k] := EOC], num, ch, k + 1) && ch[k] !in ch[k + 1..]
  {
  }

  // ---------- contents ----------

  /** fat_table_cluster_offset(), from the start of the data region. */
  function Place(bpc: nat, cluster: nat): nat
    requires 2 <= cluster
  {
    (cluster - 2) * bpc
  }

  lemma PlaceFits(num: nat, bpc: nat, cluster: nat)
    requires ValidCluster(num, cluster)
    ensures Place(bpc, cluster) + bpc <= num * bpc
  {
    Times(cluster - 1, num, bpc);
    Succ(cluster - 2, bpc);
  }

  /** Clusters have disjoint data. */
  lemma PlacesApart(bpc: nat, c: nat, d: nat)
    requires 2 <= c < d
    ensures Place(bpc, c) + bpc <= Place(bpc, d)
  {
    Times(c - 1, d - 2, bpc);
    Succ(c - 2, bpc);
  }

  /** A file without the cluster c reads the same whatever is written to c. */
  lemma OtherContent(data: seq<bv8>, now: seq<bv8>, num: nat, bpc: nat, ch: seq<nat>, size: nat, c: nat)
    requires bpc > 0 && |data| == |now| == num * bpc && ValidCluster(num, c) && c !in ch
    requires forall k :: 0 <= k < |data| && !(Place(bpc, c) <= k < Place(bpc, c) + bpc) ==> now[k] == data[k]
    ensures Content(now, num, bpc, ch, size) == Content(data, num, bpc, ch, size)
  {
    hide Place, Blk, Ofs;
    forall p: nat | p < size ensures ByteOf(now, num, bpc, ch, p) == ByteOf(data, num, bpc, ch, p) {
      var i := Blk(bpc, p);
      if i < |ch| && ValidCluster(num, ch[i]) {
        PlaceFits(num, bpc, ch[i]);
        if ch[i] < c { PlacesApart(bpc, ch[i], c); } else { PlacesApart(bpc, c, ch[i]); }
      }
    }
  }

  function Slice(s: seq<bv8>, from: nat, to: nat): (r: seq<bv8>)
    requires from <= to <= |s|
    ensures |r| == to - from
  {
    s[from..to]
  }

  /** How much of a file of this size there is to read, in a chain of len clusters. */
  function Readable(bpc: nat, len: nat, size: nat): (r: nat)
    ensures r <= size
  {
    if size < len * bpc then size else len * bpc
  }

  lemma ReadableAt(bpc: nat, len: nat, size: nat, at: nat)
    requires bpc > 0 && at < size
    ensures if Blk(bpc, at) < len
        then at < Readable(bpc, len, size)
        && (at + (bpc - Ofs(bpc, at)) <= Readable(bpc, len, size) || Readable(bpc, len, size) == size)
            else Readable(bpc, len, size) <= at
  {
    assert at == at / bpc * bpc + at % bpc;
    Succ(at / bpc, bpc);
    Times(at / bpc + 1, len, bpc);
    Times(len, at / bpc, bpc);
  }

  /** A chain with the clusters for its size has all of it. */
  lemma AllReadable(bpc: nat, len: nat, size: nat)
    requires bpc > 0 && 0 < len
    ensures Readable(bpc, len, size) == size <==> Clusters(bpc, size) <= len
  {
    hide Readable, Blk, Ofs, Clusters;
    ClustersOf(bpc, size);
    if size > 0 {
      ReadableAt(bpc, len, size, size - 1);
      LastByte(bpc, size);
    }
  }

  lemma LastByte(bpc: nat, size: nat)
    requires bpc > 0 && size > 0
    ensures Blk(bpc, size - 1) + 1 == Clusters(bpc, size)
    ensures size - 1 + (bpc - Ofs(bpc, size - 1)) >= size
  {
    var q, o := size / bpc, size % bpc;
    assert size == q * bpc + o;
    ClustersOf(bpc, size);
    if o == 0 {
      Succ(q - 1, bpc);
      DivMod(q - 1, bpc, bpc - 1);
    } else {
      DivMod(q, bpc, o - 1);
    }
  }

  /** Byte p of a file with chain ch. */
  function ByteOf(data: seq<bv8>, num: nat, bpc: nat, ch: seq<nat>, p: nat): bv8
    requires bpc > 0 && |data| == num * bpc
  {
    var i := Blk(bpc, p);
    if i < |ch| && ValidCluster(num, ch[i]) then
      PlaceFits(num, bpc, ch[i]);
      data[Place(bpc, ch[i]) + Ofs(bpc, p)]
    else 0
  }

  ghost function Content(data: seq<bv8>, num: nat, bpc: nat, ch: seq<nat>, size: nat): (s: seq<bv8>)
    requires bpc > 0 && |data| == num * bpc
    ensures |s| == size
  {
    seq(size, p requires 0 <= p => ByteOf(data, num, bpc, ch, p))
  }

  lemma NextPiece(bpc: nat, at: nat)
    requires bpc > 0
    ensures Blk(bpc, at + (bpc - Ofs(bpc, at))) == Blk(bpc, at) + 1
  {
    assert at == at / bpc * bpc + at % bpc;
    Succ(at / bpc, bpc);
    DivMod(at / bpc + 1, bpc, 0);
  }

  lemma ReadPiece(data: seq<bv8>, num: nat, bpc: nat, ch: seq<nat>, size: nat, at: nat, n: nat)
    requires bpc > 0 && |data| == num * bpc && at + n <= size && n <= bpc - Ofs(bpc, at)
    requires Blk(bpc, at) < |ch| && ValidCluster(num, ch[Blk(bpc, at)])
    ensures var p := Place(bpc, ch[Blk(bpc, at)]) + Ofs(bpc, at);
            p + n <= |data| && data[p..p + n] == Content(data, num, bpc, ch, size)[at..at + n]
  {
    hide Blk, Ofs, Place;
    var c := ch[Blk(bpc, at)];
    PlaceFits(num, bpc, c);
    var p := Place(bpc, c) + Ofs(bpc, at);
    forall k {:trigger data[p..p + n][k]} | 0 <= k < n
        ensures data[p..p + n][k] == Content(data, num, bpc, ch, size)[at..at + n][k] {
      SameBlock(bpc, at, at + k);
    }
  }

  lemma ReadMore(data: seq<bv8>, num: nat, bpc: nat, ch: seq<nat>, size: nat, from: nat, at: nat, n: nat)
    requires bpc > 0 && |data| == num * bpc && from <= at && at + n <= size && n <= bpc - Ofs(bpc, at)
    requires Blk(bpc, at) < |ch| && ValidCluster(num, ch[Blk(bpc, at)])
    ensures var p, all := Place(bpc, ch[Blk(bpc, at)]) + Ofs(bpc, at), Content(data, num, bpc, ch, size);
            p + n <= |data| && Slice(all, from, at) + data[p..p + n] == Slice(all, from, at + n)
  {
    hide Content, Blk, Ofs, Place;
    ReadPiece(data, num, bpc, ch, size, at, n);
    var all := Content(data, num, bpc, ch, size);
    assert all[from..at] + all[at..at + n] == all[from..at + n];
  }

  /** A cut leaves the bytes before it, and a chain that covers the new size. */
  lemma CutContent(data: seq<bv8>, num: nat, bpc: nat, ch: seq<nat>, size: nat, offset: nat)
    requires bpc > 0 && |data| == num * bpc && Cuts(bpc, size, offset) && Clusters(bpc, size) <= |ch|
    ensures var k := Blk(bpc, offset);
            && k < |ch| && Clusters(bpc, offset) <= |ch[..k + 1]|
            && Content(data, num, bpc, ch[..k + 1], offset) == Content(data, num, bpc, ch, size)[..offset]
  {
    hide Blk, Ofs, Clusters;
    CutCount(bpc, size, offset);
    var k := Blk(bpc, offset);
    forall p: nat | p < offset ensures Blk(bpc, p) <= k { Below(bpc, p, offset); }
  }
}
