/**
 Disk blocks and the files made of them (fs.c): the free-block bitmap, balloc()
 and bfree(), and the direct and indirect blocks of inodes in bmap() and
 itrunc().

 A block is a sequence of bytes, as bread() and log_write() show it: what the
 cache and the log add to that is proved in BufferCache and LogProtocol.
 */
module BlockMap {
  import opened Common
  import opened Arithmetic
  import opened Bits

  type Byte = x: int | 0 <= x < 256

  type Block = seq<Byte>

  type Disk = seq<Block>

  /** nindirect 4-byte words make a block; blocks below datastart hold boot sector, log, inodes and bitmap. */
  datatype Geometry = Geometry(size: nat, nindirect: nat, ndirect: nat, bmapstart: nat, datastart: nat) {
    function BSIZE(): nat { 4 * nindirect }

    function BPB(): nat { 32 * nindirect }

    ghost predicate Ok() {
      && 0 < nindirect && 0 < datastart <= size < 0x1_0000_0000
      && forall b: nat :: b < size ==> bmapstart + b / BPB() < datastart
    }
  }

  // ---------- bits and words ----------

  /** Bit k of a byte, inverted. */
  function FlipByte(x: Byte, k: nat): (y: Byte)
    requires k < 8
    ensures forall j :: 0 <= j < 8 ==> (Bit(y, j) <==> if j == k then !Bit(x, k) else Bit(x, j))
  {
    assert Mask(8) == 256 by { assert Mask(4) == 16; }
    FlipFits(x, k, 8);
    assert forall j :: 0 <= j < 8 ==> (Bit(Flip(x, k), j) <==> if j == k then !Bit(x, k) else Bit(x, j)) by {
      forall j | 0 <= j < 8 ensures Bit(Flip(x, k), j) <==>
          if j == k then !Bit(x, k) else Bit(x, j) { FlipBits(x, k, j); }
    }
    Flip(x, k)
  }

  /** Word j of a block, low byte first. */
  function Word(b: Block, j: nat): (w: nat)
    requires 4 * j + 4 <= |b|
    ensures w < 0x1_0000_0000
  {
    var b0: int, b1: int, b2: int, b3: int := b[4 * j], b[4 * j + 1], b[4 * j + 2], b[4 * j + 3];
    b0 + 256 * b1 + 65536 * b2 + 16777216 * b3
  }

  function PutWord(b: Block, j: nat, w: nat): (r: Block)
    requires 4 * j + 4 <= |b| && w < 0x1_0000_0000
    ensures |r| == |b|
  {
    b[4 * j := w % 256][4 * j + 1 := w / 256 % 256][4 * j + 2 := w / 65536 % 256][4 * j + 3 := w / 16777216]
  }

  lemma WordOfPut(b: Block, j: nat, w: nat, k: nat)
    requires 4 * j + 4 <= |b| && 4 * k + 4 <= |b| && w < 0x1_0000_0000
    ensures Word(PutWord(b, j, w), k) == if k == j then w else Word(b, k)
  {
    var r := PutWord(b, j, w);
    if k == j {
      FourBytes(w);
      assert r[4 * j] == w % 256 && r[4 * j + 1] == w / 256 % 256 && r[4 * j + 2] == w / 65536 % 256
          && r[4 * j + 3] == w / 16777216;
    } else {
      assert r[4 * k] == b[4 * k] && r[4 * k + 1] == b[4 * k + 1] && r[4 * k + 2] == b[4 * k + 2]
          && r[4 * k + 3] == b[4 * k + 3];
    }
  }

  lemma FourBytes(w: nat)
    ensures w == w % 256 + 256 * (w / 256 % 256) + 65536 * (w / 65536 % 256) + 16777216 * (w / 16777216)
  {
    assert w / 65536 == w / 256 / 256 && w / 16777216 == w / 65536 / 256;
  }

  function Zeros(n: nat): (b: Block)
    ensures |b| == n && forall i :: 0 <= i < n ==> b[i] == 0
  {
    seq(n, _ => 0)
  }

  lemma ZeroWord(n: nat, j: nat)
    requires 4 * j + 4 <= n
    ensures Word(Zeros(n), j) == 0
  {
  }

  // ---------- the bitmap ----------

  /** The block, byte and bit that stand for block b: BBLOCK(b), b % BPB / 8 and b % BPB % 8. */
  function MapBlock(g: Geometry, b: nat): nat requires g.nindirect > 0 { g.bmapstart + Quotient(b, g.BPB()) }

  function Quotient(b: nat, n: nat): nat requires n > 0 { b / n }

  function MapByte(g: Geometry, b: nat): (i: nat)
    requires g.nindirect > 0
    ensures i < g.BSIZE()
  {
    b % g.BPB() / 8
  }

  function MapBit(g: Geometry, b: nat): (k: nat)
    requires g.nindirect > 0
    ensures k < 8
  {
    b % g.BPB() % 8
  }

  lemma MapPlaces(g: Geometry, b: nat, c: nat)
    requires g.nindirect > 0 && MapBlock(g, b) == MapBlock(g, c) && MapByte(g, b) == MapByte(g, c)
        && MapBit(g, b) == MapBit(g, c)
    ensures b == c
  {
    assert b == b / g.BPB() * g.BPB() + b % g.BPB() && c == c / g.BPB() * g.BPB() + c % g.BPB();
  }

  ghost predicate Blocks(g: Geometry, bs: Disk) {
    g.Ok() && |bs| >= g.size && forall b :: 0 <= b < |bs| ==> |bs[b]| == g.BSIZE()
  }

  ghost predicate Used(g: Geometry, bs: Disk, b: nat)
    requires Blocks(g, bs) && b < g.size
  {
    Bit(bs[MapBlock(g, b)][MapByte(g, b)], MapBit(g, b))
  }

  /** The disk with the bit of block b inverted. */
  ghost function Toggle(g: Geometry, bs: Disk, b: nat): (r: Disk)
    requires Blocks(g, bs) && b < g.size
    ensures Blocks(g, r) && |r| == |bs|
  {
    var m, i := MapBlock(g, b), MapByte(g, b);
    var row: Block := bs[m][i := FlipByte(bs[m][i], MapBit(g, b))];
    bs[m := row]
  }

  lemma ToggleOne(g: Geometry, bs: Disk, b: nat, c: nat)
    requires Blocks(g, bs) && b < g.size && c < g.size
    ensures Used(g, Toggle(g, bs, b), c) <==> if c == b then !Used(g, bs, b) else Used(g, bs, c)
  {
    hide Bit, FlipByte;
    if MapBlock(g, b) == MapBlock(g, c) && MapByte(g, b) == MapByte(g, c) && MapBit(g, b) == MapBit(g, c)
        { MapPlaces(g, b, c); }
  }

  lemma ToggleKeeps(g: Geometry, bs: Disk, b: nat)
    requires Blocks(g, bs) && b < g.size
    ensures forall c :: g.datastart <= c < |bs| ==> Toggle(g, bs, b)[c] == bs[c]
  {
  }

  // ---------- inodes ----------

  /** addrs holds ndirect block numbers and the number of the indirect block, 0 is none; kind is ip->type. */
  datatype Inode = Inode(addrs: seq<nat>, size: nat, kind: nat)

  /** A place for a block number: in an inode, or in the block the inode lists last. */
  datatype Place = Direct(i: nat, k: nat) | Listed(i: nat, j: nat)

  ghost predicate Shaped(g: Geometry, bs: Disk, ins: seq<Inode>) {
    Blocks(g, bs) && forall i :: 0 <= i < |ins| ==> |ins[i].addrs| == g.ndirect + 1
  }

  predicate HasPlace(g: Geometry, ins: seq<Inode>, p: Place) {
    p.i < |ins| && match p case Direct(_, k) => k <= g.ndirect case Listed(_, j) => j < g.nindirect
  }

  /** The block number in a place, 0 if there is none. */
  function At(g: Geometry, bs: Disk, ins: seq<Inode>, p: Place): nat {
    if p.i >= |ins| || |ins[p.i].addrs| != g.ndirect + 1 then 0 else
      match p
      case Direct(i, k) => if k <= g.ndirect then ins[i].addrs[k] else 0
      case Listed(i, j) =>
        var x := ins[i].addrs[g.ndirect];
        if x != 0 && x < |bs| && 4 * j + 4 <= |bs[x]| then Word(bs[x], j) else 0
  }

  /** The numbers in use are data blocks, marked in the bitmap, and no two places hold the same one. */
  ghost predicate PlacesOk(g: Geometry, bs: Disk, ins: seq<Inode>)
    requires Shaped(g, bs, ins)
  {
    && (forall p {:trigger At(g, bs, ins, p)} :: HasPlace(g, ins, p) && At(g, bs, ins, p) != 0 ==>
          g.datastart <= At(g, bs, ins, p) < g.size && Used(g, bs, At(g, bs, ins, p)))
    && (forall p, q {:trigger At(g, bs, ins, p), At(g, bs, ins, q)} ::
          HasPlace(g, ins, p) && HasPlace(g, ins, q) && p != q && At(g, bs, ins, p) != 0 ==>
            At(g, bs, ins, p) != At(g, bs, ins, q))
  }

  /** The blocks before the data are never free. */
  ghost predicate MetaUsed(g: Geometry, bs: Disk)
    requires Blocks(g, bs)
  {
    forall b :: 0 <= b < g.datastart ==> Used(g, bs, b)
  }

  ghost predicate FsOk(g: Geometry, bs: Disk, ins: seq<Inode>)
    ensures FsOk(g, bs, ins) ==> Shaped(g, bs, ins)
  {
    Shaped(g, bs, ins) && PlacesOk(g, bs, ins) && MetaUsed(g, bs)
  }

  ghost predicate Unowned(g: Geometry, bs: Disk, ins: seq<Inode>, b: nat) {
    forall p {:trigger At(g, bs, ins, p)} :: HasPlace(g, ins, p) ==> At(g, bs, ins, p) != b
  }

  /** A change outside the indirect blocks in use moves no block number. */
  lemma SameAt(g: Geometry, bs: Disk, now: Disk, ins: seq<Inode>)
    requires Shaped(g, bs, ins) && Blocks(g, now) && |now| == |bs|
    requires forall i {:trigger ins[i]} ::
        0 <= i < |ins| && ins[i].addrs[g.ndirect] != 0 && ins[i].addrs[g.ndirect] < |bs| ==>
               now[ins[i].addrs[g.ndirect]] == bs[ins[i].addrs[g.ndirect]]
    ensures forall p :: At(g, now, ins, p) == At(g, bs, ins, p)
  {
    hide Word;
  }

  lemma PlacesFollow(g: Geometry, bs: Disk, now: Disk, ins: seq<Inode>)
    requires Shaped(g, bs, ins) && PlacesOk(g, bs, ins) && Blocks(g, now)
    requires forall p :: At(g, now, ins, p) == At(g, bs, ins, p)
    requires forall b :: g.datastart <= b < g.size && Used(g, bs, b) && !Used(g, now, b) ==> Unowned(g, bs, ins, b)
    ensures PlacesOk(g, now, ins)
  {
    hide At, Used, HasPlace, Blocks;
    forall p | HasPlace(g, ins, p) && At(g, now, ins, p) != 0
      ensures g.datastart <= At(g, now, ins, p) < g.size && Used(g, now, At(g, now, ins, p))
    {
      var b := At(g, bs, ins, p);
    }
  }

  /** The indirect block of an inode is a place's block. */
  lemma IndirectIsData(g: Geometry, bs: Disk, ins: seq<Inode>, i: nat)
    requires Shaped(g, bs, ins) && PlacesOk(g, bs, ins) && i < |ins| && ins[i].addrs[g.ndirect] != 0
    ensures var x := ins[i].addrs[g.ndirect];
            x == At(g, bs, ins, Direct(i, g.ndirect)) && g.datastart <= x < g.size && Used(g, bs, x)
  {
    assert HasPlace(g, ins, Direct(i, g.ndirect));
  }

  /** Inverting the bit of a block that no place holds, above the metadata, keeps everything else. */
  lemma ToggleUnowned(g: Geometry, bs: Disk, ins: seq<Inode>, b: nat)
    requires FsOk(g, bs, ins) && g.datastart <= b < g.size && Unowned(g, bs, ins, b)
    ensures FsOk(g, Toggle(g, bs, b), ins)
    ensures forall p :: At(g, Toggle(g, bs, b), ins, p) == At(g, bs, ins, p)
    ensures forall c :: 0 <= c < g.size ==>
        (Used(g, Toggle(g, bs, b), c) <==> if c == b then !Used(g, bs, b) else Used(g, bs, c))
  {
    hide At, Used, HasPlace, Toggle, PlacesOk;
    var now := Toggle(g, bs, b);
    forall c | 0 <= c < g.size ensures Used(g, now, c) <==> if c == b then !Used(g, bs, b) else Used(g, bs, c) {
      ToggleOne(g, bs, b, c);
    }
    ToggleKeeps(g, bs, b);
    forall i {:trigger ins[i]} | 0 <= i < |ins| && ins[i].addrs[g.ndirect] != 0
        ensures g.datastart <= ins[i].addrs[g.ndirect] {
      IndirectIsData(g, bs, ins, i);
    }
    SameAt(g, bs, now, ins);
    PlacesFollow(g, bs, now, ins);
  }

  /** So does writing a data block that no inode lists its blocks in. */
  lemma WriteUnlisted(g: Geometry, bs: Disk, ins: seq<Inode>, b: nat, d: Block)
    requires FsOk(g, bs, ins) && g.datastart <= b < g.size && |d| == g.BSIZE()
    requires forall i {:trigger ins[i]} :: 0 <= i < |ins| ==> ins[i].addrs[g.ndirect] != b
    ensures FsOk(g, bs[b := d], ins)
    ensures forall p :: At(g, bs[b := d], ins, p) == At(g, bs, ins, p)
    ensures forall c :: 0 <= c < g.size ==> (Used(g, bs[b := d], c) <==> Used(g, bs, c))
  {
    hide At, HasPlace, PlacesOk, Bit;
    var now := bs[b := d];
    SameAt(g, bs, now, ins);
    forall c | 0 <= c < g.size ensures Used(g, now, c) <==> Used(g, bs, c) { assert MapBlock(g, c) < g.datastart; }
    PlacesFollow(g, bs, now, ins);
  }

  /** The disk after balloc() has marked and cleared block b. */
  ghost function Allocated(g: Geometry, bs: Disk, b: nat): Disk
    requires Blocks(g, bs) && b < g.size
  {
    Toggle(g, bs, b)[b := Zeros(g.BSIZE())]
  }

  lemma AllocKeeps(g: Geometry, bs: Disk, ins: seq<Inode>, b: nat)
    requires FsOk(g, bs, ins) && b < g.size && !Used(g, bs, b)
    ensures g.datastart <= b && FsOk(g, Allocated(g, bs, b), ins) && Unowned(g, Allocated(g, bs, b), ins, b)
    ensures forall p :: At(g, Allocated(g, bs, b), ins, p) == At(g, bs, ins, p)
    ensures forall c :: 0 <= c < g.size ==> (Used(g, Allocated(g, bs, b), c) <==> c == b || Used(g, bs, c))
  {
    hide At, Used, HasPlace, Toggle;
    assert Unowned(g, bs, ins, b);
    ToggleUnowned(g, bs, ins, b);
    var now := Toggle(g, bs, b);
    NotIndirect(g, bs, ins, b);
    WriteUnlisted(g, now, ins, b, Zeros(g.BSIZE()));
    forall p | HasPlace(g, ins, p) ensures At(g, Allocated(g, bs, b), ins, p) != b {
      assert At(g, bs, ins, p) != b;
    }
  }

  lemma NotIndirect(g: Geometry, bs: Disk, ins: seq<Inode>, b: nat)
    requires FsOk(g, bs, ins) && Unowned(g, bs, ins, b) && b != 0
    ensures forall i {:trigger ins[i]} :: 0 <= i < |ins| ==> ins[i].addrs[g.ndirect] != b
  {
    hide Used;
    forall i {:trigger ins[i]} | 0 <= i < |ins| ensures ins[i].addrs[g.ndirect] != b {
      var p := Direct(i, g.ndirect);
      assert HasPlace(g, ins, p) && At(g, bs, ins, p) == ins[i].addrs[g.ndirect];
    }
  }

  /** addrs[k] = b */
  function SetAddr(ins: seq<Inode>, i: nat, k: nat, b: nat): (r: seq<Inode>)
    requires i < |ins| && k < |ins[i].addrs|
    ensures |r| == |ins|
  {
    ins[i := ins[i].(addrs := ins[i].addrs[k := b])]
  }

  /** A fresh block put into an empty place of an inode; as an indirect block it lists nothing. */
  lemma LinkDirect(g: Geometry, bs: Disk, ins: seq<Inode>, i: nat, k: nat, b: nat)
    requires FsOk(g, bs, ins) && i < |ins| && k <= g.ndirect && ins[i].addrs[k] == 0
    requires g.datastart <= b < g.size && Used(g, bs, b) && Unowned(g, bs, ins, b) && bs[b] == Zeros(g.BSIZE())
    ensures FsOk(g, bs, SetAddr(ins, i, k, b))
    ensures forall p :: At(g, bs, SetAddr(ins, i, k, b), p) == if p == Direct(i, k) then b else At(g, bs, ins, p)
  {
    hide Used, Word, PlacesOk;
    var ins' := SetAddr(ins, i, k, b);
    forall p ensures At(g, bs, ins', p) == if p == Direct(i, k) then b else At(g, bs, ins, p) {
      if p.Listed? && p.i == i && k == g.ndirect && p.j < g.nindirect { ZeroWord(g.BSIZE(), p.j); }
    }
    OneMorePlace(g, bs, bs, ins, ins', Direct(i, k), b);
  }

  /** One place more, holding a block that no other place holds. */
  lemma OneMorePlace(g: Geometry, bs: Disk, now: Disk, ins: seq<Inode>, ins': seq<Inode>, at: Place, b: nat)
    requires FsOk(g, bs, ins) && Shaped(g, now, ins') && |ins'| == |ins|
    requires g.datastart <= b < g.size && Used(g, now, b) && Unowned(g, bs, ins, b)
    requires forall p :: At(g, now, ins', p) == if p == at then b else At(g, bs, ins, p)
    requires forall c :: 0 <= c < g.size ==> (Used(g, now, c) <==> Used(g, bs, c))
    ensures FsOk(g, now, ins')
  {
    hide Used, At;
  }

  /** a[j] = b in the indirect block x */
  function Listing(bs: Disk, x: nat, j: nat, b: nat): Disk
    requires x < |bs| && 4 * j + 4 <= |bs[x]| && b < 0x1_0000_0000
  {
    bs[x := PutWord(bs[x], j, b)]
  }

  lemma LinkListed(g: Geometry, bs: Disk, ins: seq<Inode>, i: nat, j: nat, b: nat)
    requires FsOk(g, bs, ins) && i < |ins| && ins[i].addrs[g.ndirect] != 0 && j < g.nindirect
        && At(g, bs, ins, Listed(i, j)) == 0
    requires g.datastart <= b < g.size && Used(g, bs, b) && Unowned(g, bs, ins, b)
    ensures ins[i].addrs[g.ndirect] < |bs| && |bs[ins[i].addrs[g.ndirect]]| == g.BSIZE()
    ensures var now := Listing(bs, ins[i].addrs[g.ndirect], j, b);
            && FsOk(g, now, ins)
            && (forall p :: At(g, now, ins, p) == if p == Listed(i, j) then b else At(g, bs, ins, p))
            && (forall c :: 0 <= c < g.size ==> (Used(g, now, c) <==> Used(g, bs, c)))
  {
    hide Bit, Word, PutWord, PlacesOk, MetaUsed;
    IndirectIsData(g, bs, ins, i);
    var x := ins[i].addrs[g.ndirect];
    var now := bs[x := PutWord(bs[x], j, b)];
    forall c | 0 <= c < g.size ensures Used(g, now, c) <==> Used(g, bs, c) { assert MapBlock(g, c) < g.datastart; }
    forall p ensures At(g, now, ins, p) == if p == Listed(i, j) then b else At(g, bs, ins, p) {
      if p.Listed? && p.i == i && p.j < g.nindirect { WordOfPut(bs[x], j, b, p.j); }
      if p.Listed? && p.i != i && p.i < |ins| { OtherIndirect(g, bs, ins, i, p.i); }
    }
    OneMorePlace(g, bs, now, ins, ins, Listed(i, j), b);
  }

  lemma OtherIndirect(g: Geometry, bs: Disk, ins: seq<Inode>, i: nat, i': nat)
    requires FsOk(g, bs, ins) && i < |ins| && i' < |ins| && i != i' && ins[i].addrs[g.ndirect] != 0
    ensures ins[i'].addrs[g.ndirect] != ins[i].addrs[g.ndirect]
  {
    hide Used, Word;
    var p, q := Direct(i, g.ndirect), Direct(i', g.ndirect);
    assert HasPlace(g, ins, p) && HasPlace(g, ins, q) && At(g, bs, ins, p) == ins[i].addrs[g.ndirect]
        && At(g, bs, ins, q) == ins[i'].addrs[g.ndirect];
  }

  /** The places that addrs[k] = 0 empties. */
  predicate Gone(g: Geometry, i: nat, k: nat, p: Place) {
    p == Direct(i, k) || (k == g.ndirect && p.Listed? && p.i == i)
  }

  lemma CutPlace(g: Geometry, bs: Disk, ins: seq<Inode>, i: nat, k: nat)
    requires FsOk(g, bs, ins) && i < |ins| && k <= g.ndirect
    ensures FsOk(g, bs, SetAddr(ins, i, k, 0))
    ensures forall p :: At(g, bs, SetAddr(ins, i, k, 0), p) == if Gone(g, i, k, p) then 0 else At(g, bs, ins, p)
    ensures forall p :: HasPlace(g, ins, p) && Gone(g, i, k, p) && At(g, bs, ins, p) != 0 ==>
              Unowned(g, bs, SetAddr(ins, i, k, 0), At(g, bs, ins, p))
  {
    hide Used, Word, PlacesOk, MetaUsed;
    var ins' := SetAddr(ins, i, k, 0);
    assert forall p :: At(g, bs, ins', p) == if Gone(g, i, k, p) then 0 else At(g, bs, ins, p);
    FewerPlaces(g, bs, ins, ins', i, k);
  }

  lemma FewerPlaces(g: Geometry, bs: Disk, ins: seq<Inode>, ins': seq<Inode>, i: nat, k: nat)
    requires FsOk(g, bs, ins) && Shaped(g, bs, ins') && |ins'| == |ins|
    requires forall p :: At(g, bs, ins', p) == if Gone(g, i, k, p) then 0 else At(g, bs, ins, p)
    ensures FsOk(g, bs, ins')
    ensures forall p :: HasPlace(g, ins, p) && Gone(g, i, k, p) && At(g, bs, ins, p) != 0 ==>
        Unowned(g, bs, ins', At(g, bs, ins, p))
  {
    hide Used, At, Gone;
  }

  /** Where a file's nth block is listed. */
  function Spot(g: Geometry, i: nat, bn: nat): Place
      { if bn < g.ndirect then Direct(i, bn) else Listed(i, bn - g.ndirect) }

  /** The nth block of a file, 0 if it has none. */
  function FileBlock(g: Geometry, bs: Disk, ins: seq<Inode>, i: nat, bn: nat): nat { At(g, bs, ins, Spot(g, i, bn)) }

  /** MAXFILE */
  function MaxFile(g: Geometry): nat { g.ndirect + g.nindirect }

  ghost predicate Full(g: Geometry, bs: Disk)
    requires Blocks(g, bs)
  {
    forall c :: 0 <= c < g.size ==> Used(g, bs, c)
  }

  /** Inode i owns block b. */
  ghost predicate Owns(g: Geometry, bs: Disk, ins: seq<Inode>, i: nat, b: nat) {
    b != 0 && exists p {:trigger At(g, bs, ins, p)} :: HasPlace(g, ins, p) && p.i == i && At(g, bs, ins, p) == b
  }

  class FileSystem {
    const g: Geometry
    const blocks: array<Block>
    const inodes: array<Inode>

    ghost predicate Valid()
      reads this, blocks, inodes
      ensures Valid() ==> Shaped(g, blocks[..], inodes[..])
    {
      FsOk(g, blocks[..], inodes[..])
    }

    /** The inner loop of balloc(): the first free block from base on in one bitmap block. */
    method ScanMap(base: nat, ghost q: nat) returns (bi: nat)
      requires Valid() && base == q * g.BPB() < g.size
      ensures bi <= g.BPB() && forall c :: base <= c < base + bi && c < g.size ==> Used(g, blocks[..], c)
      ensures bi < g.BPB() && base + bi < g.size ==> !Used(g, blocks[..], base + bi)
    {
      hide PlacesOk, At, Bit, FlipByte, MetaUsed;
      DivMod(q, g.BPB(), 0);
      MapInRange(g, blocks[..], base);
      var m := g.bmapstart + base / g.BPB();
      bi := 0;
      while bi < g.BPB() && base + bi < g.size
        invariant bi <= g.BPB()
        invariant forall c :: base <= c < base + bi && c < g.size ==> Used(g, blocks[..], c)
      {
        DivMod(q, g.BPB(), bi);
        if !Bit(blocks[m][bi / 8], bi % 8) { return; }
        bi := bi + 1;
      }
    }

    /** balloc(): the first free block, marked and cleared; 0 if there is none. */
    method Balloc() returns (b: nat)
      requires Valid()
      modifies blocks
      ensures Blocks(g, old(blocks[..])) && Blocks(g, blocks[..])
      ensures b == 0 ==> blocks[..] == old(blocks[..]) && Full(g, blocks[..])
      ensures b != 0 ==>
                && b < g.size && !Used(g, old(blocks[..]), b)
                    && (forall c :: 0 <= c < b ==> Used(g, old(blocks[..]), c))
                && blocks[..] == Allocated(g, old(blocks[..]), b)
    {
      hide PlacesOk, At, Used, Toggle;
      ghost var bs := blocks[..];
      var base := 0;
      ghost var q: nat := 0;
      while base < g.size
        invariant base == q * g.BPB() && blocks[..] == bs
        invariant forall c :: 0 <= c < base && c < g.size ==> Used(g, bs, c)
        decreases g.size - base
      {
        var bi := ScanMap(base, q);
        if bi < g.BPB() && base + bi < g.size {
          b := base + bi;
          assert b != 0 by { assert Used(g, bs, 0); }
          MarkUsed(b);
          blocks[b] := Zeros(g.BSIZE());
          return;
        }
        assert (q + 1) * g.BPB() == base + g.BPB();
        base, q := base + g.BPB(), q + 1;
      }
      b := 0;
    }

    /** bp->data[bi/8] |= m */
    method MarkUsed(b: nat)
      requires Blocks(g, blocks[..]) && b < g.size && !Used(g, blocks[..], b)
      modifies blocks
      ensures Blocks(g, old(blocks[..])) && blocks[..] == Toggle(g, old(blocks[..]), b)
    {
      hide Bit, FlipByte;
      ghost var bs := blocks[..];
      MapInRange(g, bs, b);
      var m, bi := g.bmapstart + b / g.BPB(), b % g.BPB();
      var row: Block := blocks[m][bi / 8 := FlipByte(blocks[m][bi / 8], bi % 8)];
      blocks[m] := row;
    }

    /** bfree(); false is its panic. */
    method Bfree(b: nat) returns (ok: bool)
      requires Blocks(g, blocks[..]) && b < g.size
      modifies blocks
      ensures Blocks(g, old(blocks[..])) && Blocks(g, blocks[..])
      ensures ok <==> Used(g, old(blocks[..]), b)
      ensures blocks[..] == if ok then Toggle(g, old(blocks[..]), b) else old(blocks[..])
    {
      hide Bit, FlipByte;
      ghost var bs := blocks[..];
      MapInRange(g, bs, b);
      var m, bi := g.bmapstart + b / g.BPB(), b % g.BPB();
      if !Bit(blocks[m][bi / 8], bi % 8) { return false; }
      var row: Block := blocks[m][bi / 8 := FlipByte(blocks[m][bi / 8], bi % 8)];
      blocks[m] := row;
      assert blocks[..] == Toggle(g, bs, b);
      ok := true;
    }

    /** A new block for an empty place in an inode, if there is a free one. */
    method LinkNew(i: nat, k: nat, ghost bn: nat) returns (b: nat)
      requires Valid() && i < inodes.Length && k <= g.ndirect && inodes[i].addrs[k] == 0
      requires if k < g.ndirect then bn == k else bn >= g.ndirect
      modifies blocks, inodes
      ensures Valid() && Extends(g, old(blocks[..]), old(inodes[..]), blocks[..], inodes[..], i, bn)
      ensures b == 0 ==> blocks[..] == old(blocks[..]) && inodes[..] == old(inodes[..]) && Full(g, blocks[..])
      ensures b != 0 ==>
                && inodes[i].addrs[k] == b < g.size && !Used(g, old(blocks[..]), b)
                && FileBlock(g, blocks[..], inodes[..], i, bn) == (if k < g.ndirect then b else 0)
                && blocks[b] == Zeros(g.BSIZE())
    {
      hide FsOk, At, Used, HasPlace, Extends;
      ghost var bs, ins := blocks[..], inodes[..];
      ExtendsSelf(g, bs, ins, i, bn);
      b := Balloc();
      if b == 0 { return; }
      LinkedNew(g, bs, ins, i, k, bn, b);
      inodes[i] := inodes[i].(addrs := inodes[i].addrs[k := b]);
      assert inodes[..] == SetAddr(ins, i, k, b);
    }

    /** The block listed at j of the indirect block, which is allocated if need be. */
    method ListNew(i: nat, j: nat) returns (b: nat)
      requires Valid() && i < inodes.Length && j < g.nindirect && inodes[i].addrs[g.ndirect] != 0
      modifies blocks
      ensures Valid() && Extends(g, old(blocks[..]), inodes[..], blocks[..], inodes[..], i, g.ndirect + j)
      ensures FileBlock(g, old(blocks[..]), inodes[..], i, g.ndirect + j) != 0 ==> blocks[..] == old(blocks[..])
      ensures b == FileBlock(g, blocks[..], inodes[..], i, g.ndirect + j)
      ensures b == 0 ==> blocks[..] == old(blocks[..]) && Full(g, blocks[..])
      ensures b != 0 && FileBlock(g, old(blocks[..]), inodes[..], i, g.ndirect + j) == 0 ==>
                b < g.size && !Used(g, old(blocks[..]), b) && blocks[b] == Zeros(g.BSIZE())
    {
      hide FsOk, Used, HasPlace, Extends, Word, PutWord;
      ghost var bs, ins := blocks[..], inodes[..];
      ExtendsSelf(g, bs, ins, i, g.ndirect + j);
      IndirectHere(g, bs, ins, i);
      var x := inodes[i].addrs[g.ndirect];
      b := Word(blocks[x], j);
      assert b == At(g, bs, ins, Listed(i, j));
      if b != 0 { return; }
      b := Balloc();
      if b == 0 { return; }
      ListedNew(g, bs, ins, i, j, b);
      blocks[x] := PutWord(blocks[x], j, b);
      assert blocks[..] == Listing(Allocated(g, bs, b), x, j, b);
    }

    /**
     bmap(): the block number of the file's block bn, which is allocated if need be;
     0 if the disk is full, None the panic for a block beyond MAXFILE.
     */
    method Bmap(i: nat, bn: nat) returns (r: Option<nat>)
      requires Valid() && i < inodes.Length
      modifies blocks, inodes
      ensures Valid() && (r == None <==> bn >= MaxFile(g))
      ensures r == None || FileBlock(g, old(blocks[..]), old(inodes[..]), i, bn) != 0 ==>
                blocks[..] == old(blocks[..]) && inodes[..] == old(inodes[..])
      ensures r.Some? && r.value != 0 ==> r.value == FileBlock(g, blocks[..], inodes[..], i, bn)
      ensures r.Some? && r.value == 0 ==> Full(g, blocks[..]) && FileBlock(g, blocks[..], inodes[..], i, bn) == 0
      ensures r.Some? && r.value != 0 && FileBlock(g, old(blocks[..]), old(inodes[..]), i, bn) == 0 ==>
                r.value < g.size && !Used(g, old(blocks[..]), r.value) && blocks[r.value] == Zeros(g.BSIZE())
      ensures Extends(g, old(blocks[..]), old(inodes[..]), blocks[..], inodes[..], i, bn)
    {
      hide FsOk, At, Used, HasPlace;
      ghost var bs, ins := blocks[..], inodes[..];
      ExtendsSelf(g, bs, ins, i, bn);
      if bn < g.ndirect {
        DirectBlock(g, bs, ins, i, bn);
        var addr := inodes[i].addrs[bn];
        if addr == 0 { addr := LinkNew(i, bn, bn); }
        return Some(addr);
      }
      var j := bn - g.ndirect;
      if j < g.nindirect {
        var addr := inodes[i].addrs[g.ndirect];
        if addr == 0 {
          addr := LinkNew(i, g.ndirect, bn);
          if addr == 0 {
            NoneListed(g, bs, ins, i, bn);
            return Some(0);
          }
          NoneListed(g, bs, ins, i, bn);
        }
        ghost var bs1, ins1 := blocks[..], inodes[..];
        var b := ListNew(i, j);
        if FileBlock(g, bs, ins, i, bn) == 0 { ExtendsTwice(g, bs, ins, bs1, ins1, blocks[..], inodes[..], i, bn); }
        return Some(b);
      }
      r := None;
    }

    /** The first loop of itrunc(): the direct blocks are freed. */
    method FreeDirect(i: nat) returns (ok: bool)
      requires Valid() && i < inodes.Length
      modifies blocks, inodes
      ensures ok && Valid() && inodes[..] == Emptied(old(inodes[..]), i, g.ndirect)
      ensures forall p :: At(g, blocks[..], inodes[..], p) == if p.Direct? && p.i == i && p.k < g.ndirect then 0
                                                             else At(g, old(blocks[..]), old(inodes[..]), p)
      ensures DataSame(g, old(blocks[..]), blocks[..])
      ensures forall c :: 0 <= c < g.size ==>
                (Used(g, blocks[..], c) <==> Used(g, old(blocks[..]), c) && !Heads(old(inodes[..]), i, g.ndirect, c))
    {
      hide FsOk, At, Used, HasPlace, Toggle, DirectDone, Emptied;
      ghost var bs, ins := blocks[..], inodes[..];
      var k := 0;
      DirectStart(g, bs, ins, i);
      while k < g.ndirect
        invariant k <= g.ndirect && Valid() && inodes.Length == |ins| && |blocks[..]| == |bs|
        invariant DirectDone(g, bs, ins, blocks[..], inodes[..], i, k)
      {
        ghost var bs1, ins1 := blocks[..], inodes[..];
        var b := inodes[i].addrs[k];
        CutDirect(g, bs1, ins1, i, k);
        DirectMore(g, bs, ins, bs1, ins1, i, k);
        if b != 0 {
          ok := Bfree(b);
          inodes[i] := inodes[i].(addrs := inodes[i].addrs[k := 0]);
        }
        assert inodes[..] == SetAddr(ins1, i, k, 0) by { SetSame(ins1, i, k); }
        k := k + 1;
      }
      DirectEnd(g, bs, ins, blocks[..], inodes[..], i);
      ok := true;
    }

    /** The rest of itrunc()'s freeing: the blocks listed in the indirect block, and then that block. */
    method FreeListed(i: nat) returns (ok: bool)
      requires Valid() && i < inodes.Length && inodes[i].addrs[g.ndirect] != 0
      modifies blocks, inodes
      ensures ok && Valid() && inodes[..] == SetAddr(old(inodes[..]), i, g.ndirect, 0)
      ensures DataSame(g, old(blocks[..]), blocks[..])
      ensures forall c :: 0 <= c < g.size ==>
                (Used(g, blocks[..], c) <==>
                 Used(g, old(blocks[..]), c) && c != old(inodes[i].addrs[g.ndirect])
                 && !Lists(g, old(blocks[..]), old(inodes[..]), i, g.nindirect, c))
    {
      hide FsOk, At, Used, HasPlace, Toggle, ListedDone, Word;
      ghost var bs, ins := blocks[..], inodes[..];
      var x := inodes[i].addrs[g.ndirect];
      ListedStart(g, bs, ins, i);
      var j := 0;
      while j < g.nindirect
        invariant j <= g.nindirect && inodes[..] == ins && Shaped(g, blocks[..], inodes[..]) && |blocks[..]| == |bs|
        invariant ListedDone(g, bs, ins, blocks[..], i, j)
      {
        ListedMore(g, bs, ins, blocks[..], i, j);
        var b := Word(blocks[x], j);
        if b != 0 { ok := Bfree(b); }
        j := j + 1;
      }
      ListedEnd(g, bs, ins, blocks[..], i);
      ok := Bfree(x);
      inodes[i] := inodes[i].(addrs := inodes[i].addrs[g.ndirect := 0]);
      assert inodes[..] == SetAddr(ins, i, g.ndirect, 0);
    }

    /** itrunc(): every block of the inode is freed, and nothing else; no bfree() panics. */
    method Itrunc(i: nat) returns (ok: bool)
      requires Valid() && i < inodes.Length
      modifies blocks, inodes
      ensures ok && Valid() && DataSame(g, old(blocks[..]), blocks[..])
      ensures inodes[..] == old(inodes[..])[i := Inode(seq(g.ndirect + 1, _ => 0), 0, old(inodes[i].kind))]
      ensures forall c :: 0 <= c < g.size ==>
                (Used(g, blocks[..], c) <==>
                    Used(g, old(blocks[..]), c) && !Owns(g, old(blocks[..]), old(inodes[..]), i, c))
    {
      hide FsOk, At, Used, HasPlace, Lists, Heads, Owns;
      ghost var bs, ins := blocks[..], inodes[..];
      ok := FreeDirect(i);
      ghost var bs1, ins1 := blocks[..], inodes[..];
      var was := inodes[i].addrs[g.ndirect];
      if inodes[i].addrs[g.ndirect] != 0 { ok := FreeListed(i); }
      TruncatedOwns(g, bs, ins, bs1, ins1, i);
      ghost var ins2 := inodes[..];
      SetSame(ins1, i, g.ndirect);
      assert ins2 == SetAddr(ins1, i, g.ndirect, 0);
      inodes[i] := inodes[i].(size := 0);
      AllZero(g, ins, ins1, i);
      assert inodes[..] == ins[i := Inode(seq(g.ndirect + 1, _ => 0), 0, ins[i].kind)];
      SizeOnly(g, blocks[..], ins2, i, 0);
    }
  }

  /** c is among the first j blocks listed in inode i's indirect block. */
  ghost predicate Lists(g: Geometry, bs: Disk, ins: seq<Inode>, i: nat, j: nat, c: nat) {
    c != 0 && exists j' {:trigger Listed(i, j')} :: 0 <= j' < j && At(g, bs, ins, Listed(i, j')) == c
  }

  /**
   After j rounds: as if the inode had let go of its indirect block already, with
   the first j of the listed blocks free.
   */
  ghost predicate ListedDone(g: Geometry, bs: Disk, ins: seq<Inode>, now: Disk, i: nat, j: nat)
    requires Shaped(g, bs, ins) && i < |ins|
  {
    && FsOk(g, now, SetAddr(ins, i, g.ndirect, 0)) && DataSame(g, bs, now)
    && (forall p :: At(g, now, SetAddr(ins, i, g.ndirect, 0), p) == At(g, bs, SetAddr(ins, i, g.ndirect, 0), p))
    && (forall c :: 0 <= c < g.size ==> (Used(g, now, c) <==> Used(g, bs, c) && !Lists(g, bs, ins, i, j, c)))
  }

  lemma ListedStart(g: Geometry, bs: Disk, ins: seq<Inode>, i: nat)
    requires FsOk(g, bs, ins) && i < |ins| && ins[i].addrs[g.ndirect] != 0
    ensures ListedDone(g, bs, ins, bs, i, 0)
    ensures g.datastart <= ins[i].addrs[g.ndirect] < g.size
  {
    hide FsOk, At, Used, Gone;
    CutPlace(g, bs, ins, i, g.ndirect);
    IndirectOwned(g, bs, ins, i);
  }

  /** What the inode lists is in use, and once it lets go of its indirect block nobody else's. */
  lemma ListedIsOwn(g: Geometry, bs: Disk, ins: seq<Inode>, i: nat, j: nat)
    requires FsOk(g, bs, ins) && i < |ins| && j < g.nindirect && ins[i].addrs[g.ndirect] != 0
    ensures var b := At(g, bs, ins, Listed(i, j));
            b != 0 ==>
              && g.datastart <= b < g.size && Used(g, bs, b) && Unowned(g, bs, SetAddr(ins, i, g.ndirect, 0), b)
              && b != ins[i].addrs[g.ndirect] && !Lists(g, bs, ins, i, j, b)
    ensures Unowned(g, bs, SetAddr(ins, i, g.ndirect, 0), ins[i].addrs[g.ndirect])
  {
    hide FsOk, At, Used;
    CutPlace(g, bs, ins, i, g.ndirect);
    var b := At(g, bs, ins, Listed(i, j));
    assert HasPlace(g, ins, Listed(i, j)) && Gone(g, i, g.ndirect, Listed(i, j));
    assert HasPlace(g, ins, Direct(i, g.ndirect)) && Gone(g, i, g.ndirect, Direct(i, g.ndirect));
    IndirectAt(g, bs, ins, i);
    if b != 0 {
      OwnBlock(g, bs, ins, Listed(i, j), Direct(i, g.ndirect));
      forall j' | 0 <= j' < j ensures At(g, bs, ins, Listed(i, j')) != b {
        assert HasPlace(g, ins, Listed(i, j'));
        OwnBlock(g, bs, ins, Listed(i, j), Listed(i, j'));
      }
    }
  }

  lemma IndirectAt(g: Geometry, bs: Disk, ins: seq<Inode>, i: nat)
    requires Shaped(g, bs, ins) && i < |ins|
    ensures At(g, bs, ins, Direct(i, g.ndirect)) == ins[i].addrs[g.ndirect]
  {
  }

  lemma OwnBlock(g: Geometry, bs: Disk, ins: seq<Inode>, p: Place, q: Place)
    requires FsOk(g, bs, ins) && HasPlace(g, ins, p) && HasPlace(g, ins, q) && p != q && At(g, bs, ins, p) != 0
    ensures g.datastart <= At(g, bs, ins, p) < g.size && Used(g, bs, At(g, bs, ins, p))
        && At(g, bs, ins, q) != At(g, bs, ins, p)
  {
    hide At, Used, HasPlace, MetaUsed;
  }

  lemma WordHere(g: Geometry, bs: Disk, now: Disk, ins: seq<Inode>, i: nat, j: nat)
    requires Shaped(g, bs, ins) && i < |ins| && j < g.nindirect && g.datastart <= ins[i].addrs[g.ndirect] < |bs|
        && DataSame(g, bs, now)
    ensures |now[ins[i].addrs[g.ndirect]]| == g.BSIZE()
        && Word(now[ins[i].addrs[g.ndirect]], j) == At(g, bs, ins, Listed(i, j))
  {
  }

  lemma ListsMore(g: Geometry, bs: Disk, ins: seq<Inode>, i: nat, j: nat)
    ensures forall c: nat :: Lists(g, bs, ins, i, j + 1, c) <==>
        Lists(g, bs, ins, i, j, c) || (c != 0 && c == At(g, bs, ins, Listed(i, j)))
  {
    hide At;
    forall c: nat ensures Lists(g, bs, ins, i, j + 1, c) <==>
        Lists(g, bs, ins, i, j, c) || (c != 0 && c == At(g, bs, ins, Listed(i, j))) {
      var last := Listed(i, j);
    }
  }

  lemma ListedMore(g: Geometry, bs: Disk, ins: seq<Inode>, now: Disk, i: nat, j: nat)
    requires FsOk(g, bs, ins) && Shaped(g, now, ins) && |now| == |bs| && i < |ins| && j < g.nindirect
    requires ins[i].addrs[g.ndirect] != 0 && g.datastart <= ins[i].addrs[g.ndirect] < |bs|
        && ListedDone(g, bs, ins, now, i, j)
    ensures |now[ins[i].addrs[g.ndirect]]| == g.BSIZE()
    ensures var b := Word(now[ins[i].addrs[g.ndirect]], j);
            (b != 0 ==> b < g.size && Used(g, now, b))
            && ListedDone(g, bs, ins, if b != 0 then Toggle(g, now, b) else now, i, j + 1)
  {
    hide FsOk, At, Used, Toggle, Lists, Word;
    WordHere(g, bs, now, ins, i, j);
    ListedIsOwn(g, bs, ins, i, j);
    ListsMore(g, bs, ins, i, j);
    var b := Word(now[ins[i].addrs[g.ndirect]], j);
    if b != 0 {
      assert Unowned(g, now, SetAddr(ins, i, g.ndirect, 0), b) by {
        SameOwners(g, bs, now, SetAddr(ins, i, g.ndirect, 0), b);
      }
      ToggleUnowned(g, now, SetAddr(ins, i, g.ndirect, 0), b);
      ToggleKeeps(g, now, b);
    }
  }

  lemma SameOwners(g: Geometry, bs: Disk, now: Disk, ins: seq<Inode>, b: nat)
    requires Unowned(g, bs, ins, b) && forall p :: At(g, now, ins, p) == At(g, bs, ins, p)
    ensures Unowned(g, now, ins, b)
  {
    hide At;
  }

  lemma ListedEnd(g: Geometry, bs: Disk, ins: seq<Inode>, now: Disk, i: nat)
    requires FsOk(g, bs, ins) && Shaped(g, now, ins) && |now| == |bs| && i < |ins| && ins[i].addrs[g.ndirect] != 0
    requires ListedDone(g, bs, ins, now, i, g.nindirect)
    ensures ins[i].addrs[g.ndirect] < g.size && Used(g, now, ins[i].addrs[g.ndirect])
    ensures var x := ins[i].addrs[g.ndirect];
            && FsOk(g, Toggle(g, now, x), SetAddr(ins, i, g.ndirect, 0)) && DataSame(g, bs, Toggle(g, now, x))
            && (forall c :: 0 <= c < g.size ==>
                  (Used(g, Toggle(g, now, x), c) <==>
                      Used(g, bs, c) && c != x && !Lists(g, bs, ins, i, g.nindirect, c)))
  {
    hide FsOk, At, Used, Toggle;
    var x := ins[i].addrs[g.ndirect];
    IndirectOwned(g, bs, ins, i);
    ListedIsOwn(g, bs, ins, i, 0);
    forall j | 0 <= j < g.nindirect ensures At(g, bs, ins, Listed(i, j)) != x || x == 0
        { ListedIsOwn(g, bs, ins, i, j); }
    SameOwners(g, bs, now, SetAddr(ins, i, g.ndirect, 0), x);
    ToggleUnowned(g, now, SetAddr(ins, i, g.ndirect, 0), x);
    ToggleKeeps(g, now, x);
  }

  /** What the two loops free is together what the inode owns. */
  lemma TruncatedOwns(g: Geometry, bs: Disk, ins: seq<Inode>, bs1: Disk, ins1: seq<Inode>, i: nat)
    requires Shaped(g, bs, ins) && i < |ins| && |ins1| == |ins| && Shaped(g, bs1, ins1)
    requires ins1 == Emptied(ins, i, g.ndirect)
    requires forall p :: At(g, bs1, ins1, p) == if p.Direct? && p.i == i && p.k < g.ndirect then 0
        else At(g, bs, ins, p)
    ensures forall c: nat :: Owns(g, bs, ins, i, c) <==>
              Heads(ins, i, g.ndirect, c)
              || (ins1[i].addrs[g.ndirect] != 0
                  && (c == ins1[i].addrs[g.ndirect] || Lists(g, bs1, ins1, i, g.nindirect, c)))
  {
    var x := ins1[i].addrs[g.ndirect];
    assert x == ins[i].addrs[g.ndirect];
    forall c: nat
      ensures Owns(g, bs, ins, i, c) <==>
          Heads(ins, i, g.ndirect, c) || (x != 0 && (c == x || Lists(g, bs1, ins1, i, g.nindirect, c)))
    {
      hide Word;
      if Owns(g, bs, ins, i, c) {
        var p :| HasPlace(g, ins, p) && p.i == i && At(g, bs, ins, p) == c;
        match p {
          case Direct(_, k) => if k < g.ndirect { assert c == ins[i].addrs[..g.ndirect][k]; }
          case Listed(_, j) => assert At(g, bs1, ins1, Listed(i, j)) == c;
        }
      }
      if Heads(ins, i, g.ndirect, c) {
        var k :| 0 <= k < g.ndirect && ins[i].addrs[..g.ndirect][k] == c;
        assert HasPlace(g, ins, Direct(i, k)) && At(g, bs, ins, Direct(i, k)) == c;
      }
      if x != 0 && c == x { assert HasPlace(g, ins, Direct(i, g.ndirect))
          && At(g, bs, ins, Direct(i, g.ndirect)) == c; }
      if Lists(g, bs1, ins1, i, g.nindirect, c) {
        var j :| 0 <= j < g.nindirect && At(g, bs1, ins1, Listed(i, j)) == c;
        assert HasPlace(g, ins, Listed(i, j)) && At(g, bs, ins, Listed(i, j)) == c;
      }
    }
  }

  lemma AllZero(g: Geometry, ins: seq<Inode>, ins1: seq<Inode>, i: nat)
    requires i < |ins| && |ins[i].addrs| == g.ndirect + 1 && ins1 == Emptied(ins, i, g.ndirect)
    ensures SetAddr(ins1, i, g.ndirect, 0)[i].addrs == seq(g.ndirect + 1, _ => 0)
  {
  }

  /** The size of an inode has no part in who owns what. */
  lemma SizeOnly(g: Geometry, bs: Disk, ins: seq<Inode>, i: nat, size: nat)
    requires FsOk(g, bs, ins) && i < |ins|
    ensures FsOk(g, bs, ins[i := ins[i].(size := size)])
    ensures forall p :: At(g, bs, ins[i := ins[i].(size := size)], p) == At(g, bs, ins, p)
  {
    hide Used, Word;
    var now := ins[i := ins[i].(size := size)];
    assert forall p :: At(g, bs, now, p) == At(g, bs, ins, p);
    SameNumbers(g, bs, ins, now);
  }

  lemma SameNumbers(g: Geometry, bs: Disk, ins: seq<Inode>, now: seq<Inode>)
    requires FsOk(g, bs, ins) && Shaped(g, bs, now) && |now| == |ins| && forall p ::
        At(g, bs, now, p) == At(g, bs, ins, p)
    ensures FsOk(g, bs, now)
  {
    hide Used, At;
  }

  lemma SetSame(ins: seq<Inode>, i: nat, k: nat)
    requires i < |ins| && k < |ins[i].addrs|
    ensures SetAddr(ins, i, k, ins[i].addrs[k]) == ins
  {
    assert ins[i].addrs[k := ins[i].addrs[k]] == ins[i].addrs;
  }

  /** After k rounds: what the inodes are, where the blocks are listed, which are in use. */
  ghost predicate DirectDone(g: Geometry, bs: Disk, ins: seq<Inode>, now: Disk, ins': seq<Inode>, i: nat, k: nat)
    requires Shaped(g, bs, ins) && Shaped(g, now, ins') && i < |ins| && k <= g.ndirect
  {
    && ins' == Emptied(ins, i, k) && DataSame(g, bs, now)
    && (forall p :: At(g, now, ins', p) == if p.Direct? && p.i == i && p.k < k then 0 else At(g, bs, ins, p))
    && (forall c :: 0 <= c < g.size ==> (Used(g, now, c) <==> Used(g, bs, c) && !Heads(ins, i, k, c)))
  }

  lemma DirectStart(g: Geometry, bs: Disk, ins: seq<Inode>, i: nat)
    requires FsOk(g, bs, ins) && i < |ins|
    ensures DirectDone(g, bs, ins, bs, ins, i, 0)
  {
    hide FsOk, At, Used;
    EmptiedNone(ins, i);
  }

  lemma DirectEnd(g: Geometry, bs: Disk, ins: seq<Inode>, now: Disk, ins': seq<Inode>, i: nat)
    requires Shaped(g, bs, ins) && Shaped(g, now, ins') && i < |ins| && DirectDone(g, bs, ins, now, ins', i, g.ndirect)
    ensures ins' == Emptied(ins, i, g.ndirect) && DataSame(g, bs, now)
    ensures forall p :: At(g, now, ins', p) == if p.Direct? && p.i == i && p.k < g.ndirect then 0 else At(g, bs, ins, p)
    ensures forall c :: 0 <= c < g.size ==> (Used(g, now, c) <==> Used(g, bs, c) && !Heads(ins, i, g.ndirect, c))
  {
    hide At, Used, Heads;
  }

  /** One round: the disk and the inodes after it, whether or not there was a block to free. */
  lemma DirectMore(g: Geometry, bs: Disk, ins: seq<Inode>, bs1: Disk, ins1: seq<Inode>, i: nat, k: nat)
    requires FsOk(g, bs, ins) && FsOk(g, bs1, ins1) && i < |ins| && k < g.ndirect && |ins1| == |ins|
    requires DirectDone(g, bs, ins, bs1, ins1, i, k)
    ensures var b := ins1[i].addrs[k];
            (b != 0 ==> b < g.size)
            && DirectDone(g, bs, ins, if b != 0 then Toggle(g, bs1, b) else bs1, SetAddr(ins1, i, k, 0), i, k + 1)
  {
    hide FsOk, At, Used, Toggle, Emptied, Heads;
    CutDirect(g, bs1, ins1, i, k);
    HeadsMore(g, ins, i, k);
    EmptiedMore(ins, i, k);
  }

  /** The first k addresses of inode i set to 0. */
  function Emptied(ins: seq<Inode>, i: nat, k: nat): (r: seq<Inode>)
    requires i < |ins| && k <= |ins[i].addrs|
    ensures |r| == |ins|
  {
    ins[i := ins[i].(addrs := seq(k, _ => 0) + ins[i].addrs[k..])]
  }

  lemma EmptiedNone(ins: seq<Inode>, i: nat)
    requires i < |ins|
    ensures Emptied(ins, i, 0) == ins
  {
    assert seq(0, _ => 0) + ins[i].addrs[0..] == ins[i].addrs;
  }

  lemma EmptiedMore(ins: seq<Inode>, i: nat, k: nat)
    requires i < |ins| && k < |ins[i].addrs|
    ensures Emptied(ins, i, k + 1) == SetAddr(Emptied(ins, i, k), i, k, 0)
    ensures ins[i].addrs[k] == 0 ==> SetAddr(Emptied(ins, i, k), i, k, 0) == Emptied(ins, i, k)
    ensures Emptied(ins, i, k)[i].addrs[k] == ins[i].addrs[k]
  {
    var was := Emptied(ins, i, k)[i].addrs;
    assert was[k := 0] == seq(k + 1, _ => 0) + ins[i].addrs[k + 1..];
    assert ins[i].addrs[k] == 0 ==> was[k := 0] == was;
  }

  /** c is among the first k addresses of inode i. */
  predicate Heads(ins: seq<Inode>, i: nat, k: nat, c: nat)
    requires i < |ins| && k <= |ins[i].addrs|
  {
    c != 0 && c in ins[i].addrs[..k]
  }

  lemma HeadsMore(g: Geometry, ins: seq<Inode>, i: nat, k: nat)
    requires i < |ins| && k < |ins[i].addrs|
    ensures forall c :: 0 <= c < g.size ==>
              (Heads(ins, i, k + 1, c) <==> Heads(ins, i, k, c) || (c != 0 && c == ins[i].addrs[k]))
  {
    assert ins[i].addrs[..k + 1] == ins[i].addrs[..k] + [ins[i].addrs[k]];
  }

  ghost predicate DataSame(g: Geometry, bs: Disk, now: Disk) {
    |now| == |bs| && forall c :: g.datastart <= c < |bs| ==> now[c] == bs[c]
  }

  /** addrs[k] = 0 and, if it was not 0, bfree(): together they keep the rest. */
  lemma CutDirect(g: Geometry, bs: Disk, ins: seq<Inode>, i: nat, k: nat)
    requires FsOk(g, bs, ins) && i < |ins| && k < g.ndirect
    ensures FsOk(g, bs, SetAddr(ins, i, k, 0))
    ensures var b := ins[i].addrs[k];
            b != 0 ==> b < g.size && Used(g, bs, b) && FsOk(g, Toggle(g, bs, b), SetAddr(ins, i, k, 0))
    ensures var b := ins[i].addrs[k]; var now := if b != 0 then Toggle(g, bs, b) else bs;
            && DataSame(g, bs, now)
            && (forall p :: At(g, now, SetAddr(ins, i, k, 0), p) == if p == Direct(i, k) then 0 else At(g, bs, ins, p))
            && (forall c :: 0 <= c < g.size ==> (Used(g, now, c) <==> Used(g, bs, c) && (b != 0 ==> c != b)))
  {
    hide Used, HasPlace, Toggle, At, FsOk;
    CutPlace(g, bs, ins, i, k);
    var b := ins[i].addrs[k];
    DirectBlock(g, bs, ins, i, k);
    if b != 0 {
      FileBlockUsed(g, bs, ins, i, k);
      ToggleUnowned(g, bs, SetAddr(ins, i, k, 0), b);
      ToggleKeeps(g, bs, b);
    }
  }

  /**
   What bmap() leaves alone: the sizes, the blocks of all files but for block bn of
   file i, their contents, and the allocated blocks' being so.
   */
  ghost predicate Extends(g: Geometry, bs: Disk, ins: seq<Inode>, bs': Disk, ins': seq<Inode>, i: nat, bn: nat)
    requires Shaped(g, bs, ins) && Shaped(g, bs', ins')
  {
    && |ins'| == |ins| && |bs'| == |bs|
        && (forall k :: 0 <= k < |ins| ==> ins'[k].size == ins[k].size && ins'[k].kind == ins[k].kind)
    && (forall k: nat, n: nat {:trigger FileBlock(g, bs', ins', k, n)} {:trigger FileBlock(g, bs, ins, k, n)} ::
          k != i || n != bn ==> FileBlock(g, bs', ins', k, n) == FileBlock(g, bs, ins, k, n))
    && (forall k: nat, n: nat {:trigger FileBlock(g, bs, ins, k, n)} ::
          FileBlock(g, bs, ins, k, n) != 0 ==>
            FileBlock(g, bs, ins, k, n) < |bs| && bs'[FileBlock(g, bs, ins, k, n)] == bs[FileBlock(g, bs, ins, k, n)])
    && (forall c :: 0 <= c < g.size && Used(g, bs, c) ==> Used(g, bs', c))
  }

  lemma ExtendsSelf(g: Geometry, bs: Disk, ins: seq<Inode>, i: nat, bn: nat)
    requires FsOk(g, bs, ins)
    ensures Extends(g, bs, ins, bs, ins, i, bn)
  {
  }

  lemma MapInRange(g: Geometry, bs: Disk, b: nat)
    requires Blocks(g, bs) && b < g.size
    ensures MapBlock(g, b) < g.datastart && MapBlock(g, b) < |bs| && |bs[MapBlock(g, b)]| == g.BSIZE()
  {
  }

  lemma DirectBlock(g: Geometry, bs: Disk, ins: seq<Inode>, i: nat, bn: nat)
    requires Shaped(g, bs, ins) && i < |ins| && bn < g.ndirect
    ensures FileBlock(g, bs, ins, i, bn) == ins[i].addrs[bn]
  {
  }

  lemma IndirectHere(g: Geometry, bs: Disk, ins: seq<Inode>, i: nat)
    requires FsOk(g, bs, ins) && i < |ins| && ins[i].addrs[g.ndirect] != 0
    ensures g.datastart <= ins[i].addrs[g.ndirect] < |bs| && |bs[ins[i].addrs[g.ndirect]]| == g.BSIZE()
  {
    IndirectIsData(g, bs, ins, i);
  }

  lemma FileBlockUsed(g: Geometry, bs: Disk, ins: seq<Inode>, k: nat, n: nat)
    requires FsOk(g, bs, ins) && FileBlock(g, bs, ins, k, n) != 0
    ensures g.datastart <= FileBlock(g, bs, ins, k, n) < g.size && Used(g, bs, FileBlock(g, bs, ins, k, n))
    ensures k < |ins| && HasPlace(g, ins, Spot(g, k, n))
  {
    hide Used, Word;
    assert HasPlace(g, ins, Spot(g, k, n));
  }

  lemma LinkedNew(g: Geometry, bs: Disk, ins: seq<Inode>, i: nat, k: nat, bn: nat, b: nat)
    requires FsOk(g, bs, ins) && b < g.size && !Used(g, bs, b)
    requires i < |ins| && k <= g.ndirect && ins[i].addrs[k] == 0 && if k < g.ndirect then bn == k else bn >= g.ndirect
    ensures FsOk(g, Allocated(g, bs, b), SetAddr(ins, i, k, b))
    ensures Extends(g, bs, ins, Allocated(g, bs, b), SetAddr(ins, i, k, b), i, bn)
    ensures FileBlock(g, Allocated(g, bs, b), SetAddr(ins, i, k, b), i, bn) == if k < g.ndirect then b else 0
  {
    hide FsOk, At, Used, HasPlace, Toggle, PlacesOk, MetaUsed;
    var now := Allocated(g, bs, b);
    AllocKeeps(g, bs, ins, b);
    ToggleKeeps(g, bs, b);
    LinkDirect(g, now, ins, i, k, b);
    if k == g.ndirect { NoneListed(g, bs, ins, i, bn); }
    ExtendsAlloc(g, bs, ins, now, SetAddr(ins, i, k, b), i, bn, b);
  }

  lemma NoneListed(g: Geometry, bs: Disk, ins: seq<Inode>, i: nat, bn: nat)
    requires Shaped(g, bs, ins) && i < |ins| && ins[i].addrs[g.ndirect] == 0 && bn >= g.ndirect
    ensures FileBlock(g, bs, ins, i, bn) == 0
  {
  }

  /** bs' is the disk after balloc() and, perhaps, one more entry in an indirect block. */
  lemma ExtendsAlloc(g: Geometry, bs: Disk, ins: seq<Inode>, bs': Disk, ins': seq<Inode>, i: nat, bn: nat, b: nat)
    requires FsOk(g, bs, ins) && Shaped(g, bs', ins') && |ins'| == |ins| && |bs'| == |bs| && b < g.size
        && !Used(g, bs, b)
    requires forall k :: 0 <= k < |ins| ==> ins'[k].size == ins[k].size && ins'[k].kind == ins[k].kind
    requires forall k: nat, n: nat :: k != i || n != bn ==> FileBlock(g, bs', ins', k, n) == FileBlock(g, bs, ins, k, n)
    requires forall k: nat, n: nat {:trigger FileBlock(g, bs, ins, k, n)} ::
               var c := FileBlock(g, bs, ins, k, n); g.datastart <= c < |bs| && c != b ==> bs'[c] == bs[c]
    requires forall c :: 0 <= c < g.size && Used(g, bs, c) ==> Used(g, bs', c)
    ensures Extends(g, bs, ins, bs', ins', i, bn)
  {
    hide FsOk, Used, FileBlock;
    forall k: nat, n: nat | FileBlock(g, bs, ins, k, n) != 0
      ensures FileBlock(g, bs, ins, k, n) < |bs| && bs'[FileBlock(g, bs, ins, k, n)] == bs[FileBlock(g, bs, ins, k, n)]
    {
      FileBlockUsed(g, bs, ins, k, n);
    }
  }

  lemma ListedNew(g: Geometry, bs: Disk, ins: seq<Inode>, i: nat, j: nat, b: nat)
    requires FsOk(g, bs, ins) && b < g.size && !Used(g, bs, b) && j < g.nindirect
    requires i < |ins| && ins[i].addrs[g.ndirect] != 0 && At(g, bs, ins, Listed(i, j)) == 0
    ensures var x := ins[i].addrs[g.ndirect];
            && x != b && g.datastart <= x < |Allocated(g, bs, b)| && |Allocated(g, bs, b)[x]| == g.BSIZE()
            && Allocated(g, bs, b)[x] == bs[x]
    ensures var now := Listing(Allocated(g, bs, b), ins[i].addrs[g.ndirect], j, b);
            && FsOk(g, now, ins) && Extends(g, bs, ins, now, ins, i, g.ndirect + j)
            && FileBlock(g, now, ins, i, g.ndirect + j) == b && now[b] == Zeros(g.BSIZE())
  {
    hide FsOk, At, Used, HasPlace, Toggle, PlacesOk, MetaUsed, PutWord;
    var x := ins[i].addrs[g.ndirect];
    IndirectOwned(g, bs, ins, i);
    AllocKeeps(g, bs, ins, b);
    var mid := Allocated(g, bs, b);
    ToggleKeeps(g, bs, b);
    LinkListed(g, mid, ins, i, j, b);
    forall k: nat, n: nat {:trigger FileBlock(g, bs, ins, k, n)} ensures FileBlock(g, bs, ins, k, n) != x {
      NotTheIndirect(g, bs, ins, i, k, n);
    }
    ExtendsAlloc(g, bs, ins, Listing(mid, x, j, b), ins, i, g.ndirect + j, b);
  }

  lemma IndirectOwned(g: Geometry, bs: Disk, ins: seq<Inode>, i: nat)
    requires FsOk(g, bs, ins) && i < |ins| && ins[i].addrs[g.ndirect] != 0
    ensures g.datastart <= ins[i].addrs[g.ndirect] < g.size && Used(g, bs, ins[i].addrs[g.ndirect])
  {
    IndirectIsData(g, bs, ins, i);
  }

  /** An indirect block is not a block of any file. */
  lemma NotTheIndirect(g: Geometry, bs: Disk, ins: seq<Inode>, i: nat, k: nat, n: nat)
    requires FsOk(g, bs, ins) && i < |ins| && ins[i].addrs[g.ndirect] != 0
    ensures FileBlock(g, bs, ins, k, n) != ins[i].addrs[g.ndirect]
  {
    hide Used, Word, MetaUsed;
    var p, q := Direct(i, g.ndirect), Spot(g, k, n);
    assert At(g, bs, ins, p) == ins[i].addrs[g.ndirect] && HasPlace(g, ins, p) && p != q;
    if FileBlock(g, bs, ins, k, n) != 0 { assert HasPlace(g, ins, q); }
  }

  lemma ExtendsTwice(g: Geometry, bs: Disk, ins: seq<Inode>, bs1: Disk, ins1: seq<Inode>, bs2: Disk, ins2: seq<Inode>,
      i: nat, bn: nat)
    requires Shaped(g, bs, ins) && Shaped(g, bs1, ins1) && Shaped(g, bs2, ins2)
    requires Extends(g, bs, ins, bs1, ins1, i, bn) && Extends(g, bs1, ins1, bs2, ins2, i, bn)
    requires FileBlock(g, bs, ins, i, bn) == 0
    ensures Extends(g, bs, ins, bs2, ins2, i, bn)
  {
    hide FileBlock, Used;
  }
}
