/**
 Files as byte sequences (readi() and writei() in fs.c), with the data copied
 from or to kernel memory.
 */
module FileData {
  import opened Common
  import opened Arithmetic
  import opened BlockMap

  /** Byte k of a file; 0 where no block is mapped, whether or not k is below the size. */
  function ByteAt(g: Geometry, bs: Disk, ins: seq<Inode>, i: nat, k: nat): Byte {
    if g.nindirect == 0 then 0 else
      var b := FileBlock(g, bs, ins, i, Blk(g.BSIZE(), k));
      if b != 0 && b < |bs| && Ofs(g.BSIZE(), k) < |bs[b]| then bs[b][Ofs(g.BSIZE(), k)] else 0
  }

  /** What the file holds. */
  ghost function Bytes(g: Geometry, bs: Disk, ins: seq<Inode>, i: nat): (s: seq<Byte>)
    requires i < |ins|
    ensures |s| == ins[i].size
  {
    seq(ins[i].size, k requires 0 <= k => ByteAt(g, bs, ins, i, k))
  }

  /** Every block below the size is mapped, and the size is at most MAXFILE blocks. */
  ghost predicate Mapped(g: Geometry, bs: Disk, ins: seq<Inode>, i: nat)
    requires i < |ins|
  {
    && ins[i].size <= MaxFile(g) * g.BSIZE()
    && forall k: nat {:trigger Blk(g.BSIZE(), k)} :: g.nindirect > 0 && k < ins[i].size ==>
        FileBlock(g, bs, ins, i, Blk(g.BSIZE(), k)) != 0
  }

  ghost predicate FilesOk(g: Geometry, bs: Disk, ins: seq<Inode>)
    ensures FilesOk(g, bs, ins) ==> FsOk(g, bs, ins)
  {
    FsOk(g, bs, ins) && forall i :: 0 <= i < |ins| ==> Mapped(g, bs, ins, i)
  }

  /** s with the bytes d written at off, which is at most its length. */
  function Splice(s: seq<Byte>, off: nat, d: seq<Byte>): seq<Byte>
    requires off <= |s|
  {
    s[..off] + d + (if off + |d| <= |s| then s[off + |d|..] else [])
  }

  lemma ReadStep(g: Geometry, bs: Disk, ins: seq<Inode>, i: nat, off: nat, m: nat)
    requires Shaped(g, bs, ins) && i < |ins| && off + m <= ins[i].size && m <= g.BSIZE() - Ofs(g.BSIZE(), off)
    requires var b := FileBlock(g, bs, ins, i, Blk(g.BSIZE(), off)); b != 0 && b < |bs|
    ensures var b := FileBlock(g, bs, ins, i, Blk(g.BSIZE(), off));
            |bs[b]| == g.BSIZE() && bs[b][Ofs(g.BSIZE(), off)..Ofs(g.BSIZE(), off) + m]
                == Bytes(g, bs, ins, i)[off..off + m]
  {
    hide FileBlock, Blk, Ofs;
    var b, n := FileBlock(g, bs, ins, i, Blk(g.BSIZE(), off)), g.BSIZE();
    var o := Ofs(n, off);
    forall k {:trigger bs[b][o..o + m][k]} | 0 <= k < m
        ensures bs[b][o..o + m][k] == Bytes(g, bs, ins, i)[off..off + m][k] {
      SameBlock(n, off, off + k);
    }
  }

  /** readi(); the bytes put at dst, as many as its result says.  No block is allocated. */
  method Readi(fs: FileSystem, i: nat, off: nat, n: nat) returns (dst: seq<Byte>)
    requires FilesOk(fs.g, fs.blocks[..], fs.inodes[..]) && i < fs.inodes.Length
    requires off < 0x1_0000_0000 && n < 0x1_0000_0000
    modifies fs.blocks, fs.inodes
    ensures fs.blocks[..] == old(fs.blocks[..]) && fs.inodes[..] == old(fs.inodes[..])
    ensures var s := Bytes(fs.g, fs.blocks[..], fs.inodes[..], i);
            dst == if off > |s| || off + n >= 0x1_0000_0000 then [] else if off + n > |s| then s[off..]
                else s[off..off + n]
  {
    hide FsOk, FileBlock, Bytes, ByteAt, Used, Blk, Ofs, FilesOk, Mapped;
    ghost var bs, ins := fs.blocks[..], fs.inodes[..];
    ghost var s := Bytes(fs.g, bs, ins, i);
    dst := [];
    if off > fs.inodes[i].size || off + n >= 0x1_0000_0000 { return; }
    var todo := if off + n > fs.inodes[i].size then fs.inodes[i].size - off else n;
    var tot, at := 0, off;
    assert s[off..off] == [];
    while tot < todo
      invariant tot <= todo && at == off + tot && fs.blocks[..] == bs && fs.inodes[..] == ins
      invariant dst == s[off..at]
    {
      MappedBelow(fs.g, bs, ins, i, at);
      var r := fs.Bmap(i, Blk(fs.g.BSIZE(), at));
      FileBlockUsed(fs.g, bs, ins, i, Blk(fs.g.BSIZE(), at));
      if r == None || r.value == 0 { break; }
      var m := if todo - tot < fs.g.BSIZE() - Ofs(fs.g.BSIZE(), at) then todo - tot
          else fs.g.BSIZE() - Ofs(fs.g.BSIZE(), at);
      ReadStep(fs.g, bs, ins, i, at, m);
      assert s[off..at] + s[at..at + m] == s[off..at + m];
      dst := dst + fs.blocks[r.value][Ofs(fs.g.BSIZE(), at)..Ofs(fs.g.BSIZE(), at) + m];
      tot, at := tot + m, at + m;
    }
  }

  lemma MappedBelow(g: Geometry, bs: Disk, ins: seq<Inode>, i: nat, k: nat)
    requires i < |ins| && FilesOk(g, bs, ins) && k < ins[i].size
    ensures FileBlock(g, bs, ins, i, Blk(g.BSIZE(), k)) != 0 && Blk(g.BSIZE(), k) < MaxFile(g)
  {
    hide FileBlock, Blk, FsOk;
    assert Mapped(g, bs, ins, i);
    BlkBelow(g.BSIZE(), k, MaxFile(g));
  }

  // ---------- writei() ----------

  /** bmap() changes no file's bytes: where there was no block there is now a block of zeros. */
  lemma BmapKeepsBytes(g: Geometry, bs: Disk, ins: seq<Inode>, bs': Disk, ins': seq<Inode>, i: nat, bn: nat)
    requires FsOk(g, bs, ins) && Shaped(g, bs', ins') && Extends(g, bs, ins, bs', ins', i, bn)
    requires var b, b' := FileBlock(g, bs, ins, i, bn), FileBlock(g, bs', ins', i, bn);
             if b == 0 then b' == 0 || (b' < |bs'| && bs'[b'] == Zeros(g.BSIZE())) else b' == b
    ensures forall j: nat, k: nat :: ByteAt(g, bs', ins', j, k) == ByteAt(g, bs, ins, j, k)
    ensures forall j: nat, n: nat :: FileBlock(g, bs, ins, j, n) != 0 ==> FileBlock(g, bs', ins', j, n) != 0
  {
    hide FsOk, FileBlock, Blk, Used;
    forall j: nat, k: nat ensures ByteAt(g, bs', ins', j, k) == ByteAt(g, bs, ins, j, k) {
      var n := Blk(g.BSIZE(), k);
      assert (j == i && n == bn) || FileBlock(g, bs', ins', j, n) == FileBlock(g, bs, ins, j, n);
    }
    forall j: nat, n: nat | FileBlock(g, bs, ins, j, n) != 0 ensures FileBlock(g, bs', ins', j, n) != 0 {
    }
  }

  /** The block with the bytes d put at o. */
  function Patch(b: Block, o: nat, d: seq<Byte>): (r: Block)
    requires o + |d| <= |b|
    ensures |r| == |b|
    ensures forall k :: 0 <= k < |b| ==> r[k] == if o <= k < o + |d| then d[k - o] else b[k]
  {
    b[..o] + d + b[o + |d|..]
  }

  /** Two files, or two places in a file, never share a block. */
  lemma BlocksApart(g: Geometry, bs: Disk, ins: seq<Inode>, i: nat, n: nat, j: nat, m: nat)
    requires FsOk(g, bs, ins) && FileBlock(g, bs, ins, i, n) != 0 && (i != j || n != m)
    ensures FileBlock(g, bs, ins, j, m) != FileBlock(g, bs, ins, i, n)
  {
    hide Used, Word;
    FileBlockUsed(g, bs, ins, i, n);
    if FileBlock(g, bs, ins, j, m) != 0 {
      FileBlockUsed(g, bs, ins, j, m);
      OwnBlock(g, bs, ins, Spot(g, i, n), Spot(g, j, m));
    }
  }

  /** One round of writei() after bmap(): the bytes d go to file i at off, and nowhere else. */
  lemma WriteStep(g: Geometry, bs: Disk, ins: seq<Inode>, i: nat, off: nat, d: seq<Byte>)
    requires FsOk(g, bs, ins) && i < |ins| && FileBlock(g, bs, ins, i, Blk(g.BSIZE(), off)) != 0
    requires |d| <= g.BSIZE() - Ofs(g.BSIZE(), off)
    ensures var b := FileBlock(g, bs, ins, i, Blk(g.BSIZE(), off));
            b < |bs| && |bs[b]| == g.BSIZE() && FsOk(g, bs[b := Patch(bs[b], Ofs(g.BSIZE(), off), d)], ins)
    ensures var b := FileBlock(g, bs, ins, i, Blk(g.BSIZE(), off));
            var now := bs[b := Patch(bs[b], Ofs(g.BSIZE(), off), d)];
            && (forall j: nat, k: nat :: ByteAt(g, now, ins, j, k) ==
                  if j == i && off <= k < off + |d| then d[k - off] else ByteAt(g, bs, ins, j, k))
            && (forall j: nat, n: nat :: FileBlock(g, now, ins, j, n) == FileBlock(g, bs, ins, j, n))
            && (forall c :: 0 <= c < g.size ==> (Used(g, now, c) <==> Used(g, bs, c)))
  {
    hide FsOk, At, Blk, Ofs, Used;
    var b := FileBlock(g, bs, ins, i, Blk(g.BSIZE(), off));
    FileBlockUsed(g, bs, ins, i, Blk(g.BSIZE(), off));
    forall j | 0 <= j < |ins| ensures ins[j].addrs[g.ndirect] != b {
      if ins[j].addrs[g.ndirect] != 0 { NotTheIndirect(g, bs, ins, j, i, Blk(g.BSIZE(), off)); }
    }
    var now := bs[b := Patch(bs[b], Ofs(g.BSIZE(), off), d)];
    WriteUnlisted(g, bs, ins, b, Patch(bs[b], Ofs(g.BSIZE(), off), d));
    forall j: nat, k: nat
      ensures ByteAt(g, now, ins, j, k) == if j == i && off <= k < off + |d| then d[k - off]
          else ByteAt(g, bs, ins, j, k)
    {
      WrittenByte(g, bs, now, ins, i, off, d, j, k);
    }
  }

  lemma WrittenByte(g: Geometry, bs: Disk, now: Disk, ins: seq<Inode>, i: nat, off: nat, d: seq<Byte>, j: nat, k: nat)
    requires FsOk(g, bs, ins) && i < |ins| && FileBlock(g, bs, ins, i, Blk(g.BSIZE(), off)) != 0
    requires |d| <= g.BSIZE() - Ofs(g.BSIZE(), off)
    requires var b := FileBlock(g, bs, ins, i, Blk(g.BSIZE(), off));
             b < |bs| && |bs[b]| == g.BSIZE() && now == bs[b := Patch(bs[b], Ofs(g.BSIZE(), off), d)]
    requires forall p :: At(g, now, ins, p) == At(g, bs, ins, p)
    ensures ByteAt(g, now, ins, j, k) == if j == i && off <= k < off + |d| then d[k - off] else ByteAt(g, bs, ins, j, k)
  {
    hide FsOk, At, Blk, Ofs;
    var n, m := Blk(g.BSIZE(), off), Blk(g.BSIZE(), k);
    if off <= k < off + |d| { SameBlock(g.BSIZE(), off, k); }
    if j == i && m == n { OtherPlace(g.BSIZE(), off, k); } else { BlocksApart(g, bs, ins, i, n, j, m); }
  }

  /** The bytes d have been written to file i at off, the sizes are as before. */
  ghost predicate Written(g: Geometry, bs: Disk, ins: seq<Inode>, now: Disk, ins': seq<Inode>, i: nat, off: nat,
      d: seq<Byte>) {
    && FsOk(g, now, ins') && |ins'| == |ins|
        && (forall j :: 0 <= j < |ins| ==> ins'[j].size == ins[j].size && ins'[j].kind == ins[j].kind)
    && (forall j: nat, k: nat {:trigger ByteAt(g, now, ins', j, k)} :: ByteAt(g, now, ins', j, k) ==
          if j == i && off <= k < off + |d| then d[k - off] else ByteAt(g, bs, ins, j, k))
    && (forall j: nat, n: nat {:trigger FileBlock(g, now, ins', j, n)} {:trigger FileBlock(g, bs, ins, j, n)} ::
          FileBlock(g, bs, ins, j, n) != 0 ==> FileBlock(g, now, ins', j, n) != 0)
    && (forall k: nat {:trigger Blk(g.BSIZE(), k)} :: off <= k < off + |d| ==>
        FileBlock(g, now, ins', i, Blk(g.BSIZE(), k)) != 0)
  }

  lemma WrittenNothing(g: Geometry, bs: Disk, ins: seq<Inode>, i: nat, off: nat)
    requires FsOk(g, bs, ins)
    ensures Written(g, bs, ins, bs, ins, i, off, [])
  {
  }

  lemma WrittenMapped(g: Geometry, bs: Disk, ins: seq<Inode>, bs1: Disk, ins1: seq<Inode>, bs2: Disk, ins2: seq<Inode>,
                      i: nat, off: nat, d: seq<Byte>, bn: nat)
    requires Written(g, bs, ins, bs1, ins1, i, off, d) && FsOk(g, bs2, ins2) && Extends(g, bs1, ins1, bs2, ins2, i, bn)
    requires var b, b' := FileBlock(g, bs1, ins1, i, bn), FileBlock(g, bs2, ins2, i, bn);
             if b == 0 then b' == 0 || (b' < |bs2| && bs2[b'] == Zeros(g.BSIZE())) else b' == b
    ensures Written(g, bs, ins, bs2, ins2, i, off, d)
  {
    hide FsOk, FileBlock, ByteAt, Blk, Used;
    BmapKeepsBytes(g, bs1, ins1, bs2, ins2, i, bn);
    forall j: nat, k: nat
      ensures ByteAt(g, bs2, ins2, j, k) == if j == i && off <= k < off + |d| then d[k - off]
          else ByteAt(g, bs, ins, j, k)
    {
      assert ByteAt(g, bs2, ins2, j, k) == ByteAt(g, bs1, ins1, j, k);
    }
    forall k: nat | off <= k < off + |d| ensures FileBlock(g, bs2, ins2, i, Blk(g.BSIZE(), k)) != 0 {
      assert FileBlock(g, bs1, ins1, i, Blk(g.BSIZE(), k)) != 0;
    }
    forall j: nat, n: nat | FileBlock(g, bs, ins, j, n) != 0 ensures FileBlock(g, bs2, ins2, j, n) != 0 {
      assert FileBlock(g, bs1, ins1, j, n) != 0;
    }
  }

  lemma WrittenMore(g: Geometry, bs: Disk, ins: seq<Inode>, bs1: Disk, ins1: seq<Inode>, i: nat, off: nat,
      d: seq<Byte>, e: seq<Byte>)
    requires Written(g, bs, ins, bs1, ins1, i, off, d) && i < |ins|
    requires FileBlock(g, bs1, ins1, i, Blk(g.BSIZE(), off + |d|)) != 0 && |e| <= g.BSIZE() - Ofs(g.BSIZE(), off + |d|)
    ensures var b := FileBlock(g, bs1, ins1, i, Blk(g.BSIZE(), off + |d|));
            b < |bs1| && |bs1[b]| == g.BSIZE()
            && Written(g, bs, ins, bs1[b := Patch(bs1[b], Ofs(g.BSIZE(), off + |d|), e)], ins1, i, off, d + e)
  {
    hide FsOk, FileBlock, ByteAt, Blk, Used, Ofs, Patch;
    WriteStep(g, bs1, ins1, i, off + |d|, e);
    var b := FileBlock(g, bs1, ins1, i, Blk(g.BSIZE(), off + |d|));
    var now := bs1[b := Patch(bs1[b], Ofs(g.BSIZE(), off + |d|), e)];
    forall j: nat, k: nat
      ensures ByteAt(g, now, ins1, j, k) == if j == i && off <= k < off + |d + e| then (d + e)[k - off]
          else ByteAt(g, bs, ins, j, k)
    {
      assert ByteAt(g, bs1, ins1, j, k) == if j == i && off <= k < off + |d| then d[k - off]
          else ByteAt(g, bs, ins, j, k);
    }
    forall k: nat | off <= k < off + |d + e| ensures FileBlock(g, now, ins1, i, Blk(g.BSIZE(), k)) != 0 {
      if k >= off + |d| { SameBlock(g.BSIZE(), off + |d|, k); }
    }
    forall j: nat, n: nat | FileBlock(g, bs, ins, j, n) != 0 ensures FileBlock(g, now, ins1, j, n) != 0 {
      assert FileBlock(g, bs1, ins1, j, n) != 0;
    }
  }

  /** The new size makes the file the old one with the bytes spliced in, and leaves every block below it mapped. */
  lemma Resized(g: Geometry, bs: Disk, ins: seq<Inode>, bs1: Disk, ins1: seq<Inode>, i: nat, off: nat, d: seq<Byte>)
    requires FilesOk(g, bs, ins) && Written(g, bs, ins, bs1, ins1, i, off, d) && i < |ins| && off <= ins[i].size
    requires off + |d| <= MaxFile(g) * g.BSIZE()
    ensures var size := if off + |d| > ins[i].size then off + |d| else ins[i].size;
            var ins2 := ins1[i := ins1[i].(size := size)];
            && FilesOk(g, bs1, ins2) && Bytes(g, bs1, ins2, i) == Splice(Bytes(g, bs, ins, i), off, d)
            && forall j :: 0 <= j < |ins| && j != i ==> Bytes(g, bs1, ins2, j) == Bytes(g, bs, ins, j)
  {
    hide FsOk, FileBlock, ByteAt, Blk, Used;
    var size := if off + |d| > ins[i].size then off + |d| else ins[i].size;
    var ins2 := ins1[i := ins1[i].(size := size)];
    SizeOnly(g, bs1, ins1, i, size);
    ResizedBytes(g, bs1, ins1, i, size);
    forall j | 0 <= j < |ins2| ensures Mapped(g, bs1, ins2, j)
        { ResizedMapped(g, bs, ins, bs1, ins1, i, off, d, ins2, j); }
    ResizedContent(g, bs, ins, bs1, ins1, i, off, d, ins2);
  }

  lemma ResizedMapped(g: Geometry, bs: Disk, ins: seq<Inode>, bs1: Disk, ins1: seq<Inode>, i: nat, off: nat,
      d: seq<Byte>,
                      ins2: seq<Inode>, j: nat)
    requires FilesOk(g, bs, ins) && Written(g, bs, ins, bs1, ins1, i, off, d) && i < |ins| && off <= ins[i].size
        && j < |ins|
    requires off + |d| <= MaxFile(g) * g.BSIZE() && |ins2| == |ins|
    requires ins2[i].size == if off + |d| > ins[i].size then off + |d| else ins[i].size
    requires j != i ==> ins2[j].size == ins1[j].size
    requires forall j: nat, n: nat :: FileBlock(g, bs1, ins2, j, n) == FileBlock(g, bs1, ins1, j, n)
    ensures Mapped(g, bs1, ins2, j)
  {
    hide FsOk, FileBlock, ByteAt, Blk, Used;
    assert Mapped(g, bs, ins, j);
    forall k: nat | k < ins2[j].size ensures FileBlock(g, bs1, ins2, j, Blk(g.BSIZE(), k)) != 0 {
      if k < ins[j].size { assert FileBlock(g, bs, ins, j, Blk(g.BSIZE(), k)) != 0; }
    }
  }

  lemma ResizedContent(g: Geometry, bs: Disk, ins: seq<Inode>, bs1: Disk, ins1: seq<Inode>, i: nat, off: nat,
      d: seq<Byte>,
                       ins2: seq<Inode>)
    requires FilesOk(g, bs, ins) && Written(g, bs, ins, bs1, ins1, i, off, d) && i < |ins| && off <= ins[i].size
    requires |ins2| == |ins| && ins2[i].size == if off + |d| > ins[i].size then off + |d| else ins[i].size
    requires forall j: nat :: j < |ins| && j != i ==> ins2[j].size == ins[j].size
    requires forall j: nat, k: nat :: ByteAt(g, bs1, ins2, j, k) == ByteAt(g, bs1, ins1, j, k)
    ensures Bytes(g, bs1, ins2, i) == Splice(Bytes(g, bs, ins, i), off, d)
    ensures forall j :: 0 <= j < |ins| && j != i ==> Bytes(g, bs1, ins2, j) == Bytes(g, bs, ins, j)
  {
    hide FsOk, FileBlock, ByteAt, Blk, Used;
    var was := Bytes(g, bs, ins, i);
    forall k: nat | k < ins2[i].size ensures ByteAt(g, bs1, ins2, i, k) == Splice(was, off, d)[k] {
      assert ByteAt(g, bs1, ins1, i, k) == if off <= k < off + |d| then d[k - off] else ByteAt(g, bs, ins, i, k);
    }
    assert Bytes(g, bs1, ins2, i) == Splice(was, off, d);
    forall j | 0 <= j < |ins| && j != i ensures Bytes(g, bs1, ins2, j) == Bytes(g, bs, ins, j) {
      forall k: nat ensures ByteAt(g, bs1, ins2, j, k) == ByteAt(g, bs, ins, j, k) {
        assert ByteAt(g, bs1, ins2, j, k) == ByteAt(g, bs1, ins1, j, k);
      }
      assert Bytes(g, bs1, ins2, j) == Bytes(g, bs, ins, j);
    }
  }

  lemma ResizedBytes(g: Geometry, bs: Disk, ins: seq<Inode>, i: nat, size: nat)
    requires FsOk(g, bs, ins) && i < |ins|
    ensures forall j: nat, k: nat :: ByteAt(g, bs, ins[i := ins[i].(size := size)], j, k) == ByteAt(g, bs, ins, j, k)
    ensures forall j: nat, n: nat ::
        FileBlock(g, bs, ins[i := ins[i].(size := size)], j, n) == FileBlock(g, bs, ins, j, n)
  {
    hide FsOk, At, Blk;
    SizeOnly(g, bs, ins, i, size);
  }

  /** writei(): the number of bytes written, which is all of them unless the disk is full; -1 for a bad offset. */
  method Writei(fs: FileSystem, i: nat, src: seq<Byte>, off: nat) returns (tot: int)
    requires FilesOk(fs.g, fs.blocks[..], fs.inodes[..]) && i < fs.inodes.Length
    requires off < 0x1_0000_0000 && |src| < 0x1_0000_0000
    modifies fs.blocks, fs.inodes
    ensures FilesOk(fs.g, fs.blocks[..], fs.inodes[..])
    ensures tot == -1 <==>
              off > old(fs.inodes[i].size) || off + |src| >= 0x1_0000_0000 || off + |src| > MaxFile(fs.g) * fs.g.BSIZE()
    ensures tot == -1 ==> fs.blocks[..] == old(fs.blocks[..]) && fs.inodes[..] == old(fs.inodes[..])
    ensures tot != -1 ==>
              && 0 <= tot <= |src| && (tot < |src| ==> Full(fs.g, fs.blocks[..]))
              && Bytes(fs.g, fs.blocks[..], fs.inodes[..], i)
                 == Splice(Bytes(fs.g, old(fs.blocks[..]), old(fs.inodes[..]), i), off, src[..tot])
              && forall j :: 0 <= j < fs.inodes.Length && j != i ==>
                   Bytes(fs.g, fs.blocks[..], fs.inodes[..], j)
                       == Bytes(fs.g, old(fs.blocks[..]), old(fs.inodes[..]), j)
    ensures forall j :: 0 <= j < fs.inodes.Length ==> fs.inodes[j].kind == old(fs.inodes[j].kind)
    ensures tot < |src| ==> tot == -1 || (off + tot) % fs.g.BSIZE() == 0 || tot == 0
    ensures 0 <= tot < |src| ==>
              FileBlock(fs.g, fs.blocks[..], fs.inodes[..], i, Blk(fs.g.BSIZE(), off + tot)) == 0
  {
    hide FsOk, FileBlock, Bytes, ByteAt, Used, Blk, Ofs, FilesOk, Mapped, Written, Extends, Patch, Splice;
    ghost var bs, ins := fs.blocks[..], fs.inodes[..];
    if off > fs.inodes[i].size || off + |src| >= 0x1_0000_0000 { return -1; }
    if off + |src| > MaxFile(fs.g) * fs.g.BSIZE() { return -1; }
    WrittenNothing(fs.g, bs, ins, i, off);
    tot := 0;
    var at := off;
    assert src[..0] == [];
    while tot < |src|
      invariant 0 <= tot <= |src| && at == off + tot && fs.inodes.Length == |ins|
      invariant Written(fs.g, bs, ins, fs.blocks[..], fs.inodes[..], i, off, src[..tot])
      invariant tot < |src| ==> tot == 0 || at % fs.g.BSIZE() == 0
    {
      ghost var bs1, ins1 := fs.blocks[..], fs.inodes[..];
      WrittenOk(fs.g, bs, ins, bs1, ins1, i, off, src[..tot]);
      BlkBelow(fs.g.BSIZE(), at, MaxFile(fs.g));
      var r := fs.Bmap(i, Blk(fs.g.BSIZE(), at));
      BmapShape(fs.g, bs1, ins1, fs.blocks[..], fs.inodes[..], i, Blk(fs.g.BSIZE(), at), r);
      WrittenMapped(fs.g, bs, ins, bs1, ins1, fs.blocks[..], fs.inodes[..], i, off, src[..tot], Blk(fs.g.BSIZE(), at));
      if r == None || r.value == 0 { break; }
      var room := fs.g.BSIZE() - Ofs(fs.g.BSIZE(), at);
      var m := if |src| - tot < room then |src| - tot else room;
      WrittenMore(fs.g, bs, ins, fs.blocks[..], fs.inodes[..], i, off, src[..tot], src[tot..tot + m]);
      assert src[..tot] + src[tot..tot + m] == src[..tot + m];
      EndOfBlock(fs.g.BSIZE(), at);
      fs.blocks[r.value] := Patch(fs.blocks[r.value], Ofs(fs.g.BSIZE(), at), src[tot..tot + m]);
      tot, at := tot + m, at + m;
    }
    Resized(fs.g, bs, ins, fs.blocks[..], fs.inodes[..], i, off, src[..tot]);
    WrittenOk(fs.g, bs, ins, fs.blocks[..], fs.inodes[..], i, off, src[..tot]);
    SameSize(fs.inodes[..], i);
    SizeKeepsBlocks(fs.g, fs.blocks[..], fs.inodes[..], i, at, Blk(fs.g.BSIZE(), at));
    if at > fs.inodes[i].size { fs.inodes[i] := fs.inodes[i].(size := at); }
  }

  lemma SizeKeepsBlocks(g: Geometry, bs: seq<Block>, ins: seq<Inode>, i: nat, size: nat, bn: nat)
    requires i < |ins|
    ensures FileBlock(g, bs, ins[i := ins[i].(size := size)], i, bn) == FileBlock(g, bs, ins, i, bn)
  {
  }

  lemma SameSize(ins: seq<Inode>, i: nat)
    requires i < |ins|
    ensures ins[i := ins[i].(size := ins[i].size)] == ins
  {
  }

  lemma EndOfBlock(n: nat, at: nat)
    requires n > 0
    ensures (at + (n - Ofs(n, at))) % n == 0
  {
    var q := at / n;
    assert at == q * n + at % n;
    assert at + (n - Ofs(n, at)) == (q + 1) * n + 0;
    DivMod(q + 1, n, 0);
  }

  lemma WrittenOk(g: Geometry, bs: Disk, ins: seq<Inode>, now: Disk, ins': seq<Inode>, i: nat, off: nat, d: seq<Byte>)
    requires Written(g, bs, ins, now, ins', i, off, d)
    ensures FsOk(g, now, ins') && |ins'| == |ins| && forall j :: 0 <= j < |ins| ==>
        ins'[j].size == ins[j].size && ins'[j].kind == ins[j].kind
  {
    hide FsOk, FileBlock, ByteAt;
  }

  lemma BmapShape(g: Geometry, bs: Disk, ins: seq<Inode>, bs': Disk, ins': seq<Inode>, i: nat, bn: nat, r: Option<nat>)
    requires FsOk(g, bs, ins) && FsOk(g, bs', ins') && bn < MaxFile(g) && r.Some?
    requires FileBlock(g, bs, ins, i, bn) != 0 ==> bs' == bs && ins' == ins
    requires r.value != 0 ==> r.value == FileBlock(g, bs', ins', i, bn)
    requires r.value == 0 ==> FileBlock(g, bs', ins', i, bn) == 0
    requires r.value != 0 && FileBlock(g, bs, ins, i, bn) == 0 ==> r.value < |bs'| && bs'[r.value] == Zeros(g.BSIZE())
    ensures var b, b' := FileBlock(g, bs, ins, i, bn), FileBlock(g, bs', ins', i, bn);
            if b == 0 then b' == 0 || (b' < |bs'| && bs'[b'] == Zeros(g.BSIZE())) else b' == b
  {
  }

  /** What itrunc() does to the files: it empties one and leaves the others as they are. */
  lemma TruncatedFile(g: Geometry, bs: Disk, ins: seq<Inode>, bs': Disk, ins': seq<Inode>, i: nat)
    requires FilesOk(g, bs, ins) && FsOk(g, bs', ins') && DataSame(g, bs, bs') && i < |ins|
    requires ins' == ins[i := Inode(seq(g.ndirect + 1, _ => 0), 0, ins[i].kind)]
    ensures FilesOk(g, bs', ins') && Bytes(g, bs', ins', i) == []
    ensures forall j :: 0 <= j < |ins| && j != i ==> Bytes(g, bs', ins', j) == Bytes(g, bs, ins, j)
  {
    hide FsOk, Used, Blk, Ofs, FileBlock;
    forall j: nat, n: nat | j < |ins| && j != i
      ensures FileBlock(g, bs', ins', j, n) == FileBlock(g, bs, ins, j, n)
      ensures FileBlock(g, bs, ins, j, n) == 0 || g.datastart <= FileBlock(g, bs, ins, j, n) < |bs|
    {
      UntouchedFile(g, bs, ins, bs', ins', j, n);
    }
    forall j | 0 <= j < |ins| ensures Mapped(g, bs', ins', j) { assert Mapped(g, bs, ins, j); }
    forall j | 0 <= j < |ins| && j != i ensures Bytes(g, bs', ins', j) == Bytes(g, bs, ins, j) {
      forall k: nat ensures ByteAt(g, bs', ins', j, k) == ByteAt(g, bs, ins, j, k) {
      }
    }
  }

  lemma UntouchedFile(g: Geometry, bs: Disk, ins: seq<Inode>, bs': Disk, ins': seq<Inode>, j: nat, n: nat)
    requires FsOk(g, bs, ins) && Shaped(g, bs', ins') && DataSame(g, bs, bs') && j < |ins| == |ins'|
        && ins'[j] == ins[j]
    ensures FileBlock(g, bs', ins', j, n) == FileBlock(g, bs, ins, j, n)
    ensures FileBlock(g, bs, ins, j, n) == 0 || g.datastart <= FileBlock(g, bs, ins, j, n) < |bs|
  {
    hide Used, Word;
    if FileBlock(g, bs, ins, j, n) != 0 { FileBlockUsed(g, bs, ins, j, n); }
    if ins[j].addrs[g.ndirect] != 0 { IndirectIsData(g, bs, ins, j); }
  }
}
