/**
 Directories and paths (dirlookup(), dirlink(), skipelem() and namex() in fs.c):
 a directory's bytes stand for a map from names of at most 14 bytes to inode
 numbers, and a path for the sequence of its components.

 A C string is the bytes before its terminator; reading at its end gives 0.
 */
module Directory {
  import opened Common
  import opened Arithmetic
  import opened BlockMap
  import opened FileData

  const DIRSIZ: nat := 14
  const DIRENT: nat := 16
  const T_DIR: nat := 1

  type Name = seq<Byte>

  // ---------- names ----------

  /** s[k] of a C string or buffer s. */
  function Char(s: seq<Byte>, k: nat): Byte { if k < |s| then s[k] else 0 }

  /** The bytes before the first 0, at most n of them. */
  function Cut(s: seq<Byte>, n: nat): (r: Name)
    ensures |r| <= n && |r| <= |s|
    ensures forall k :: 0 <= k < |r| ==> r[k] == s[k] && r[k] != 0
    ensures |r| == n || Char(s, |r|) == 0
  {
    if n == 0 || s == [] || s[0] == 0 then [] else [s[0]] + Cut(s[1..], n - 1)
  }

  /** The name that a component, or the name field of a directory entry, stands for. */
  function NameOf(s: seq<Byte>): Name { Cut(s, DIRSIZ) }

  lemma CutIs(s: seq<Byte>, n: nat, r: Name)
    requires |r| <= n && |r| <= |s| && (forall k :: 0 <= k < |r| ==> r[k] == s[k] && r[k] != 0)
    requires |r| == n || Char(s, |r|) == 0
    ensures Cut(s, n) == r
  {
    var c := Cut(s, n);
    assert |c| == |r|;
  }

  /** namecmp(), which is strncmp(p, q, DIRSIZ), against 0. */
  method NameCmp(p: seq<Byte>, q: seq<Byte>) returns (same: bool)
    ensures same <==> NameOf(p) == NameOf(q)
  {
    var k := 0;
    while k < DIRSIZ && Char(p, k) != 0 && Char(p, k) == Char(q, k)
      invariant k <= DIRSIZ && k <= |p| && k <= |q|
      invariant forall j :: 0 <= j < k ==> p[j] == q[j] && p[j] != 0
    {
      k := k + 1;
    }
    same := k == DIRSIZ || Char(p, k) == Char(q, k);
    if same {
      CutIs(p, DIRSIZ, p[..k]);
      CutIs(q, DIRSIZ, q[..k]);
      assert p[..k] == q[..k];
    } else {
      CutsDiffer(p, q, k);
    }
  }

  lemma CutsDiffer(p: seq<Byte>, q: seq<Byte>, k: nat)
    requires k < DIRSIZ && k <= |p| && k <= |q| && (forall j :: 0 <= j < k ==> p[j] == q[j] && p[j] != 0)
    requires Char(p, k) != Char(q, k)
    ensures NameOf(p) != NameOf(q)
  {
    var c, d := NameOf(p), NameOf(q);
    assert |c| >= k && |d| >= k;
  }

  /** strncpy(de.name, name, DIRSIZ): the name and zeros to fill up. */
  method StrNCpy(t: seq<Byte>) returns (s: seq<Byte>)
    ensures |s| == DIRSIZ && NameOf(s) == NameOf(t)
  {
    s := [];
    var n := DIRSIZ;
    ghost var k: nat := 0;
    while n > 0 && Char(t, DIRSIZ - n) != 0
      invariant 0 <= n <= DIRSIZ && |s| == DIRSIZ - n <= |t|
      invariant forall j :: 0 <= j < |s| ==> s[j] == t[j] && s[j] != 0
    {
      s := s + [t[DIRSIZ - n]];
      n := n - 1;
    }
    ghost var name := s;
    while n > 0
      invariant 0 <= n <= DIRSIZ && |s| == DIRSIZ - n && name <= s
      invariant forall j :: |name| <= j < |s| ==> s[j] == 0
    {
      s := s + [0];
      n := n - 1;
    }
    CutIs(t, DIRSIZ, name);
    CutIs(s, DIRSIZ, name);
  }

  // ---------- a directory as a map ----------

  /** de.inum and de.name of entry e. */
  function Inum(s: seq<Byte>, e: nat): (n: nat)
    requires DIRENT * e + DIRENT <= |s|
    ensures n < 65536
  {
    var b0: int, b1: int := s[DIRENT * e], s[DIRENT * e + 1];
    b0 + 256 * b1
  }

  function EntryName(s: seq<Byte>, e: nat): Name
    requires DIRENT * e + DIRENT <= |s|
  {
    NameOf(s[DIRENT * e + 2..DIRENT * e + DIRENT])
  }

  function Entries(s: seq<Byte>): nat { |s| / DIRENT }

  /** Entry e binds the name. */
  predicate Binds(s: seq<Byte>, e: nat, name: Name)
    requires e < Entries(s)
  {
    Inum(s, e) != 0 && EntryName(s, e) == name
  }

  /** No name is bound twice. */
  ghost predicate DirOk(s: seq<Byte>) {
    && |s| % DIRENT == 0
    && forall e, f {:trigger Inum(s, e), Inum(s, f)} ::
        0 <= e < f < Entries(s) && Inum(s, e) != 0 && Inum(s, f) != 0 ==>
         EntryName(s, e) != EntryName(s, f)
  }

  ghost function Names(s: seq<Byte>): set<Name> {
    set e | 0 <= e < Entries(s) && Inum(s, e) != 0 :: EntryName(s, e)
  }

  ghost function EntryOf(s: seq<Byte>, name: Name): (e: nat)
    requires name in Names(s)
    ensures e < Entries(s) && Binds(s, e, name)
  {
    var e :| 0 <= e < Entries(s) && Inum(s, e) != 0 && EntryName(s, e) == name;
    e
  }

  /** The map a directory stands for. */
  ghost function DirMap(s: seq<Byte>): map<Name, nat> {
    map name | name in Names(s) :: Inum(s, EntryOf(s, name))
  }

  lemma BoundAt(s: seq<Byte>, e: nat, name: Name)
    requires DirOk(s) && e < Entries(s) && Binds(s, e, name)
    ensures name in DirMap(s) && DirMap(s)[name] == Inum(s, e)
  {
    hide Inum, EntryName;
  }

  lemma NotBound(s: seq<Byte>, name: Name)
    requires forall e :: 0 <= e < Entries(s) ==> !Binds(s, e, name)
    ensures name !in DirMap(s)
  {
    hide Inum, EntryName;
  }

  // ---------- dirlookup() and dirlink() ----------

  /** Every offset in a file, and the end of an entry there, is a 32-bit number. */
  ghost predicate Small(g: Geometry) { MaxFile(g) * g.BSIZE() + DIRENT < 0x1_0000_0000 }

  /** Found stands for the inode that iget() returns and for *poff; Panic for the panics. */
  datatype LookupResult = Found(inum: nat, off: nat) | Absent | Panic

  /** The first entry that binds the name, if one does, also where a name is bound twice. */
  ghost predicate IsFirst(s: seq<Byte>, name: Name, r: LookupResult) {
    match r
    case Found(inum, off) =>
      && off % DIRENT == 0 && off / DIRENT < Entries(s) && Binds(s, off / DIRENT, name) && inum == Inum(s, off / DIRENT)
      && forall f {:trigger Inum(s, f)} :: 0 <= f < off / DIRENT ==> !Binds(s, f, name)
    case Absent => forall f {:trigger Inum(s, f)} :: 0 <= f < Entries(s) ==> !Binds(s, f, name)
    case Panic => false
  }

  /** dirlookup() */
  method DirLookup(fs: FileSystem, dp: nat, name: seq<Byte>) returns (r: LookupResult)
    requires FilesOk(fs.g, fs.blocks[..], fs.inodes[..]) && dp < fs.inodes.Length && Small(fs.g)
    modifies fs.blocks, fs.inodes
    ensures fs.blocks[..] == old(fs.blocks[..]) && fs.inodes[..] == old(fs.inodes[..])
    ensures fs.inodes[dp].kind != T_DIR ==> r == Panic
    ensures var s := Bytes(fs.g, fs.blocks[..], fs.inodes[..], dp);
            fs.inodes[dp].kind == T_DIR && |s| % DIRENT == 0 ==> IsFirst(s, NameOf(name), r)
    ensures var s := Bytes(fs.g, fs.blocks[..], fs.inodes[..], dp);
            fs.inodes[dp].kind == T_DIR && |s| % DIRENT != 0 ==>
              r == Panic || (r.Found? && r.off / DIRENT < Entries(s) && Binds(s, r.off / DIRENT, NameOf(name)))
    ensures var s := Bytes(fs.g, fs.blocks[..], fs.inodes[..], dp);
            fs.inodes[dp].kind == T_DIR && DirOk(s) ==>
              if NameOf(name) in DirMap(s) then
                r.Found? && r.inum == DirMap(s)[NameOf(name)] && r.off % DIRENT == 0
                && r.off / DIRENT < Entries(s) && Binds(s, r.off / DIRENT, NameOf(name))
              else r == Absent
  {
    hide FilesOk, Bytes, DirMap, Inum, EntryName, DirOk, NameOf;
    ghost var s := Bytes(fs.g, fs.blocks[..], fs.inodes[..], dp);
    if fs.inodes[dp].kind != T_DIR { return Panic; }
    SizeFits(fs.g, fs.blocks[..], fs.inodes[..], dp);
    var off := 0;
    ghost var e: nat := 0;
    while off < fs.inodes[dp].size
      invariant off == DIRENT * e && fs.blocks[..] == old(fs.blocks[..]) && fs.inodes[..] == old(fs.inodes[..])
      invariant e <= Entries(s) && off <= |s|
      invariant forall f :: 0 <= f < e ==> !Binds(s, f, NameOf(name))
    {
      var de := Readi(fs, dp, off, DIRENT);
      if |de| != DIRENT {
        DirSize(s);
        return Panic;
      }
      EntryRead(s, e, de);
      var b0: int, b1: int := de[0], de[1];
      if b0 + 256 * b1 != 0 {
        var same := NameCmp(name, de[2..]);
        if same {
          if DirOk(s) { BoundAt(s, e, NameOf(name)); }
          return Found(b0 + 256 * b1, off);
        }
      }
      off, e := off + DIRENT, e + 1;
    }
    NotBound(s, NameOf(name));
    r := Absent;
  }

  lemma SizeFits(g: Geometry, bs: Disk, ins: seq<Inode>, i: nat)
    requires FilesOk(g, bs, ins) && i < |ins| && Small(g)
    ensures ins[i].size + DIRENT < 0x1_0000_0000 && ins[i].size <= MaxFile(g) * g.BSIZE()
    ensures |Bytes(g, bs, ins, i)| == ins[i].size
  {
    hide FsOk;
    assert Mapped(g, bs, ins, i);
  }

  lemma DirSize(s: seq<Byte>)
    ensures DirOk(s) ==> |s| == DIRENT * Entries(s)
  {
  }

  lemma EntryRead(s: seq<Byte>, e: nat, de: seq<Byte>)
    requires DIRENT * e + DIRENT <= |s| && de == s[DIRENT * e..DIRENT * e + DIRENT]
    ensures e < Entries(s) && EntryName(s, e) == NameOf(de[2..])
    ensures var b0: int, b1: int := de[0], de[1]; Inum(s, e) == b0 + 256 * b1
  {
    hide NameOf;
    assert de[2..] == s[DIRENT * e + 2..DIRENT * e + DIRENT];
  }

  /** The first entry from e on with inode number 0, or one past the last entry. */
  function FirstFree(s: seq<Byte>, e: nat): (f: nat)
    requires e <= Entries(s)
    ensures e <= f <= Entries(s) && forall x :: e <= x < f ==> Inum(s, x) != 0
    decreases Entries(s) - e
  {
    if e == Entries(s) || Inum(s, e) == 0 then e else FirstFree(s, e + 1)
  }

  /** The 16 bytes written for a new entry: inum as a 16-bit number, and the name. */
  ghost predicate IsEntry(d: seq<Byte>, inum: nat, name: Name) {
    |d| == DIRENT && NameOf(d[2..]) == name && var b0: int, b1: int := d[0], d[1]; b0 + 256 * b1 == inum % 65536
  }

  lemma SplicedEntry(s: seq<Byte>, e: nat, d: seq<Byte>, inum: nat, name: Name)
    requires |s| % DIRENT == 0 && e <= Entries(s) && IsEntry(d, inum, name)
    ensures DIRENT * e <= |s|
    ensures var t := Splice(s, DIRENT * e, d);
            && |t| == (if e == Entries(s) then |s| + DIRENT else |s|) && |t| % DIRENT == 0
            && e < Entries(t) && Inum(t, e) == inum % 65536 && EntryName(t, e) == name
            && forall f {:trigger Inum(t, f)} {:trigger EntryName(t, f)} :: 0 <= f < Entries(s) && f != e ==>
                 Inum(t, f) == Inum(s, f) && EntryName(t, f) == EntryName(s, f)
  {
    hide NameOf;
    var t := Splice(s, DIRENT * e, d);
    assert t[DIRENT * e..DIRENT * e + DIRENT] == d;
    EntryRead(t, e, d);
    forall f | 0 <= f < Entries(s) && f != e ensures Inum(t, f) == Inum(s, f) && EntryName(t, f) == EntryName(s, f) {
      assert t[DIRENT * f + 2..DIRENT * f + DIRENT] == s[DIRENT * f + 2..DIRENT * f + DIRENT];
    }
  }

  /** The new entry, in the place of one without inode number or after the last, adds one binding and changes none. */
  lemma LinkedMap(s: seq<Byte>, e: nat, d: seq<Byte>, inum: nat, name: Name)
    requires DirOk(s) && e <= Entries(s) && (e < Entries(s) ==> Inum(s, e) == 0) && IsEntry(d, inum, name)
    requires name !in DirMap(s) && DIRENT * e <= |s|
    ensures DirOk(Splice(s, DIRENT * e, d))
    ensures DirMap(Splice(s, DIRENT * e, d)) == if inum % 65536 == 0 then DirMap(s) else DirMap(s)[name := inum % 65536]
  {
    hide NameOf, Inum, EntryName, Splice, IsEntry, DirMap;
    var t := Splice(s, DIRENT * e, d);
    SplicedEntry(s, e, d, inum, name);
    forall f | 0 <= f < Entries(s) && Inum(s, f) != 0 ensures EntryName(s, f) != name
        { BoundAt(s, f, EntryName(s, f)); }
    assert DirOk(t);
    forall x: Name ensures x in DirMap(t) <==> x in DirMap(s) || (x == name && inum % 65536 != 0) {
      if x in DirMap(s) { MapEntry(s, x); var f := EntryOf(s, x); BoundAt(t, f, x); }
      if x == name && inum % 65536 != 0 { BoundAt(t, e, x); }
      if x in DirMap(t) { MapEntry(t, x); var f := EntryOf(t, x); if f != e { BoundAt(s, f, x); } }
    }
    forall x: Name | x in DirMap(t) ensures DirMap(t)[x] == if x == name then inum % 65536 else DirMap(s)[x] {
      MapEntry(t, x);
      var f := EntryOf(t, x);
      BoundAt(t, f, x);
      if f != e { BoundAt(s, f, x); }
    }
  }

  lemma MapEntry(s: seq<Byte>, x: Name)
    requires x in DirMap(s)
    ensures x in Names(s) && EntryOf(s, x) < Entries(s) && Binds(s, EntryOf(s, x), x)
  {
    hide Inum, EntryName;
  }

  /** Linked and Refused are the results 0 and -1. */
  datatype LinkResult = Linked | Refused | LinkPanic

  /** dirlink() of the inode numbered inum, of which the entry keeps the low 16 bits. */
  method DirLink(fs: FileSystem, dp: nat, name: seq<Byte>, inum: nat) returns (r: LinkResult)
    requires FilesOk(fs.g, fs.blocks[..], fs.inodes[..]) && dp < fs.inodes.Length && Small(fs.g)
    requires fs.g.BSIZE() % DIRENT == 0
    modifies fs.blocks, fs.inodes
    ensures FilesOk(fs.g, fs.blocks[..], fs.inodes[..]) && fs.inodes[dp].kind == old(fs.inodes[dp].kind)
    ensures r != Linked ==>
              Bytes(fs.g, fs.blocks[..], fs.inodes[..], dp) ==
              Bytes(fs.g, old(fs.blocks[..]), old(fs.inodes[..]), dp)
    ensures forall j :: 0 <= j < fs.inodes.Length && j != dp ==>
              Bytes(fs.g, fs.blocks[..], fs.inodes[..], j) == Bytes(fs.g, old(fs.blocks[..]), old(fs.inodes[..]), j)
    ensures var s, t := Bytes(fs.g, old(fs.blocks[..]), old(fs.inodes[..]), dp),
        Bytes(fs.g, fs.blocks[..], fs.inodes[..], dp);
            fs.inodes[dp].kind == T_DIR && DirOk(s) ==>
              && r != LinkPanic && DirOk(t)
              && (NameOf(name) in DirMap(s) ==> r == Refused)
              && (r == Refused && NameOf(name) !in DirMap(s) ==>
                    || (FirstFree(s, 0) == Entries(s) && Full(fs.g, fs.blocks[..]))
                    || DIRENT * FirstFree(s, 0) + DIRENT > MaxFile(fs.g) * fs.g.BSIZE())
              && (r == Linked ==>
                    && DirMap(t) == (if inum % 65536 == 0 then DirMap(s) else DirMap(s)[NameOf(name) := inum % 65536])
                    && |t| == if FirstFree(s, 0) < Entries(s) then |s| else |s| + DIRENT)
  {
    hide FilesOk, Bytes, DirMap, Inum, EntryName, DirOk, NameOf, Binds, Splice, Full, FirstFree;
    ghost var s := Bytes(fs.g, fs.blocks[..], fs.inodes[..], dp);
    var found := DirLookup(fs, dp, name);
    if found.Found? { return Refused; }
    if found.Panic? { return LinkPanic; }
    var off, done := FreeSlot(fs, dp);
    if !done { return LinkPanic; }
    var ok := WriteEntry(fs, dp, off, name, inum);
    if DirOk(s) { DirSize(s); }
    r := if ok then Linked else Refused;
  }

  /** A byte whose block is not there is at or after the end of the file. */
  lemma MappedBelow(g: Geometry, bs: Disk, ins: seq<Inode>, i: nat, off: nat)
    requires FilesOk(g, bs, ins) && i < |ins| && FileBlock(g, bs, ins, i, Blk(g.BSIZE(), off)) == 0
    ensures ins[i].size <= off
  {
    hide FsOk, FileBlock, Blk;
    assert Mapped(g, bs, ins, i);
  }

  /** The end of dirlink(): one entry written at off, whole or not at all. */
  method WriteEntry(fs: FileSystem, dp: nat, off: nat, name: seq<Byte>, inum: nat) returns (ok: bool)
    requires FilesOk(fs.g, fs.blocks[..], fs.inodes[..]) && dp < fs.inodes.Length && Small(fs.g)
    requires fs.g.BSIZE() % DIRENT == 0 && off % DIRENT == 0 && off < 0x1_0000_0000
    modifies fs.blocks, fs.inodes
    ensures FilesOk(fs.g, fs.blocks[..], fs.inodes[..]) && fs.inodes[dp].kind == old(fs.inodes[dp].kind)
    ensures forall j :: 0 <= j < fs.inodes.Length && j != dp ==>
              Bytes(fs.g, fs.blocks[..], fs.inodes[..], j) == Bytes(fs.g, old(fs.blocks[..]), old(fs.inodes[..]), j)
    ensures var s, t := Bytes(fs.g, old(fs.blocks[..]), old(fs.inodes[..]), dp),
        Bytes(fs.g, fs.blocks[..], fs.inodes[..], dp);
            if !ok then t == s && (off <= |s| ==>
                (off == |s| && Full(fs.g, fs.blocks[..])) || off + DIRENT > MaxFile(fs.g) * fs.g.BSIZE())
            else DirOk(s) && NameOf(name) !in DirMap(s) && off == DIRENT * FirstFree(s, 0)
                 && (FirstFree(s, 0) < Entries(s) ==> Inum(s, FirstFree(s, 0)) == 0) ==>
              && DirOk(t)
              && DirMap(t) == (if inum % 65536 == 0 then DirMap(s) else DirMap(s)[NameOf(name) := inum % 65536])
              && |t| == if FirstFree(s, 0) < Entries(s) then |s| else |s| + DIRENT
  {
    hide FilesOk, Bytes, DirMap, Inum, EntryName, DirOk, NameOf, Binds, Splice, Full, FirstFree;
    ghost var s := Bytes(fs.g, fs.blocks[..], fs.inodes[..], dp);
    SizeFits(fs.g, fs.blocks[..], fs.inodes[..], dp);
    var b0: Byte, b1: Byte := inum % 256, inum / 256 % 256;
    var rest := StrNCpy(name);
    var de := [b0, b1] + rest;
    EntryMade(de, b0, b1, rest, inum, NameOf(name));
    DirSize(s);
    var n := Writei(fs, dp, de, off);
    if n != DIRENT {
      if n >= 0 {
        WholeEntry(fs.g.BSIZE(), off, n);
        SpliceNothing(s, off, de);
        MappedBelow(fs.g, fs.blocks[..], fs.inodes[..], dp, off);
      }
      return false;
    }
    assert de[..n] == de;
    if DirOk(s) && NameOf(name) !in DirMap(s) && off == DIRENT * FirstFree(s, 0)
       && (FirstFree(s, 0) < Entries(s) ==> Inum(s, FirstFree(s, 0)) == 0) {
      LinkedMap(s, FirstFree(s, 0), de, inum, NameOf(name));
      DirWhole(s);
      SplicedEntry(s, FirstFree(s, 0), de, inum, NameOf(name));
    }
    ok := true;
  }

  lemma DirWhole(s: seq<Byte>)
    requires DirOk(s)
    ensures |s| % DIRENT == 0
  {
  }

  /** The loop of dirlink(): the offset of the first entry without inode number, or the end. */
  method FreeSlot(fs: FileSystem, dp: nat) returns (off: nat, done: bool)
    requires FilesOk(fs.g, fs.blocks[..], fs.inodes[..]) && dp < fs.inodes.Length && Small(fs.g)
    modifies fs.blocks, fs.inodes
    ensures fs.blocks[..] == old(fs.blocks[..]) && fs.inodes[..] == old(fs.inodes[..])
    ensures var s := Bytes(fs.g, fs.blocks[..], fs.inodes[..], dp);
            && off % DIRENT == 0 && (DirOk(s) ==> done)
            && off < 0x1_0000_0000
            && (done && |s| % DIRENT == 0 ==> off == DIRENT * FirstFree(s, 0))
            && (done && |s| % DIRENT == 0 && FirstFree(s, 0) < Entries(s) ==> Inum(s, FirstFree(s, 0)) == 0)
  {
    hide FilesOk, Bytes, Inum, EntryName, NameOf, FirstFree;
    ghost var s := Bytes(fs.g, fs.blocks[..], fs.inodes[..], dp);
    SizeFits(fs.g, fs.blocks[..], fs.inodes[..], dp);
    off := 0;
    ghost var e: nat := 0;
    while off < fs.inodes[dp].size
      invariant off == DIRENT * e && fs.blocks[..] == old(fs.blocks[..]) && fs.inodes[..] == old(fs.inodes[..])
      invariant off < |s| + DIRENT
      invariant |s| % DIRENT == 0 ==> e <= Entries(s) && FirstFree(s, 0) == FirstFree(s, e)
    {
      var de := Readi(fs, dp, off, DIRENT);
      if |de| != DIRENT { return off, false; }
      EntryRead(s, e, de);
      FreeMore(s, e);
      var b0: int, b1: int := de[0], de[1];
      if b0 + 256 * b1 == 0 { return off, true; }
      off, e := off + DIRENT, e + 1;
    }
    if |s| % DIRENT == 0 { FreeEnd(s); }
    done := true;
  }

  lemma FreeMore(s: seq<Byte>, e: nat)
    requires e < Entries(s)
    ensures FirstFree(s, e) == if Inum(s, e) == 0 then e else FirstFree(s, e + 1)
  {
    hide Inum;
  }

  lemma FreeEnd(s: seq<Byte>)
    ensures FirstFree(s, Entries(s)) == Entries(s)
  {
  }

  lemma EntryMade(de: seq<Byte>, b0: Byte, b1: Byte, rest: seq<Byte>, inum: nat, name: Name)
    requires de == [b0, b1] + rest && |rest| == DIRSIZ && NameOf(rest) == name && b0 == inum % 256
        && b1 == inum / 256 % 256
    ensures IsEntry(de, inum, name)
  {
    assert de[2..] == rest;
  }

  /** An entry lies in one block, so it is written whole or not at all. */
  lemma WholeEntry(n: nat, off: nat, tot: nat)
    requires n > 0 && n % DIRENT == 0 && off % DIRENT == 0 && (tot == 0 || (off + tot) % n == 0)
    ensures tot % DIRENT == 0
  {
    var q, m := (off + tot) / n, n / DIRENT;
    assert tot != 0 ==> off + tot == q * n;
    assert n == DIRENT * m && q * (DIRENT * m) == DIRENT * (q * m);
    assert off == DIRENT * (off / DIRENT);
  }

  lemma SpliceNothing(s: seq<Byte>, off: nat, d: seq<Byte>)
    ensures off <= |s| ==> Splice(s, off, d[..0]) == s
  {
  }
}
