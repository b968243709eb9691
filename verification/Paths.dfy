/**
 Path names (skipelem() and namex() in fs.c): a path is the sequence of its
 components, and looking it up is looking those up one after the other.  The
 inode that a name leads to stands for the reference that iget() returns; locks
 and reference counts are not part of this module.
 */
module Paths {
  import opened Common
  import opened BlockMap
  import opened FileData
  import opened Directory

  const SLASH: Byte := 47
  const ROOTINO: nat := 1

  /** The position of the first byte from k on that is not a slash, and of the first that ends a component. */
  function PastSlashes(path: seq<Byte>, k: nat): (r: nat)
    requires k <= |path|
    ensures k <= r <= |path| && Char(path, r) != SLASH && forall j :: k <= j < r ==> path[j] == SLASH
    decreases |path| - k
  {
    if Char(path, k) == SLASH then PastSlashes(path, k + 1) else k
  }

  function PastElement(path: seq<Byte>, k: nat): (r: nat)
    requires k <= |path|
    ensures k <= r <= |path| && (Char(path, r) == SLASH || Char(path, r) == 0)
    ensures forall j :: k <= j < r ==> path[j] != SLASH && path[j] != 0
    decreases |path| - k
  {
    if Char(path, k) == SLASH || Char(path, k) == 0 then k else PastElement(path, k + 1)
  }

  /** The components of the path from position k on, each cut to 14 bytes. */
  function Elements(path: seq<Byte>, k: nat): seq<Name>
    requires k <= |path|
    decreases |path| - k
  {
    var s := PastSlashes(path, k);
    if Char(path, s) == 0 then [] else
      var e := PastElement(path, s);
      assert e != s;
      [NameOf(path[s..e])] + Elements(path, e)
  }

  lemma ElementsSkip(path: seq<Byte>, k: nat)
    requires k <= |path|
    ensures Elements(path, k) == Elements(path, PastSlashes(path, k))
    decreases |path| - k
  {
    if Char(path, k) == SLASH { ElementsSkip(path, k + 1); }
  }

  /**
   skipelem(): the rest of the path, or None for 0, and the name.  The rest is empty exactly at the last component.
   */
  method SkipElem(path: seq<Byte>, k: nat) returns (r: Option<nat>, name: seq<Byte>)
    requires k <= |path|
    ensures r == None <==> Elements(path, k) == []
    ensures r.Some? ==>
              && k < r.value <= |path| && Elements(path, k) == [NameOf(name)] + Elements(path, r.value)
              && (Char(path, r.value) == 0 <==> Elements(path, r.value) == [])
  {
    hide NameOf, Cut;
    var p := k;
    while Char(path, p) == SLASH
      invariant k <= p <= |path| && PastSlashes(path, p) == PastSlashes(path, k)
      decreases |path| - p
    {
      p := p + 1;
    }
    if Char(path, p) == 0 { return None, []; }
    var s := p;
    while Char(path, p) != SLASH && Char(path, p) != 0
      invariant s <= p <= |path| && PastElement(path, p) == PastElement(path, s)
      decreases |path| - p
    {
      p := p + 1;
    }
    var len := p - s;
    name := if len >= DIRSIZ then path[s..s + DIRSIZ] else path[s..s + len] + [0];
    CutElement(path, s, p, name);
    ghost var e := p;
    while Char(path, p) == SLASH
      invariant e <= p <= |path| && PastSlashes(path, p) == PastSlashes(path, e)
      decreases |path| - p
    {
      p := p + 1;
    }
    ElementsSkip(path, e);
    NothingLeft(path, p);
    r := Some(p);
  }

  lemma NothingLeft(path: seq<Byte>, p: nat)
    requires p <= |path| && Char(path, p) != SLASH
    ensures Char(path, p) == 0 <==> Elements(path, p) == []
  {
    hide NameOf;
  }

  /** The name buffer holds the component's first 14 bytes, or all of it and a terminator. */
  lemma CutElement(path: seq<Byte>, s: nat, e: nat, name: seq<Byte>)
    requires s <= e <= |path| && (forall j :: s <= j < e ==> path[j] != 0)
    requires name == if e - s >= DIRSIZ then path[s..s + DIRSIZ] else path[s..e] + [0]
    ensures NameOf(name) == NameOf(path[s..e])
  {
    var c := path[s..e];
    var r := if |c| >= DIRSIZ then c[..DIRSIZ] else c;
    CutIs(c, DIRSIZ, r);
    CutIs(name, DIRSIZ, r);
  }

  // ---------- looking a path up ----------

  /** What the directories say: which inodes are directories, and the map each one stands for. */
  ghost predicate IsDir(ins: seq<Inode>, i: nat) { i < |ins| && ins[i].kind == T_DIR }

  /** Every directory's bytes are a map to inodes that exist. */
  ghost predicate DirsOk(g: Geometry, bs: Disk, ins: seq<Inode>) {
    forall i {:trigger Bytes(g, bs, ins, i)} :: 0 <= i < |ins| && IsDir(ins, i) ==>
      DirOk(Bytes(g, bs, ins, i)) && forall name :: name in DirMap(Bytes(g, bs, ins, i)) ==>
          DirMap(Bytes(g, bs, ins, i))[name] < |ins|
  }

  /** One name in directory i. */
  ghost function Step(g: Geometry, bs: Disk, ins: seq<Inode>, i: nat, name: Name): Option<nat> {
    if !IsDir(ins, i) then None
    else if name in DirMap(Bytes(g, bs, ins, i)) then Some(DirMap(Bytes(g, bs, ins, i))[name]) else None
  }

  /** The fold of Step over the components. */
  ghost function Resolve(g: Geometry, bs: Disk, ins: seq<Inode>, i: nat, names: seq<Name>): Option<nat>
    decreases |names|
  {
    if names == [] then Some(i) else
      match Step(g, bs, ins, i, names[0])
      case None => None
      case Some(next) => Resolve(g, bs, ins, next, names[1..])
  }

  /** The inode in which the last component is to be looked up, if it is a directory. */
  ghost function ResolveParent(g: Geometry, bs: Disk, ins: seq<Inode>, i: nat, names: seq<Name>): Option<nat> {
    if names == [] then None else
      match Resolve(g, bs, ins, i, names[..|names| - 1])
      case None => None
      case Some(d) => if IsDir(ins, d) then Some(d) else None
  }

  /** Looking up one path after another is looking up both together. */
  lemma {:induction false} ResolveConcat(g: Geometry, bs: Disk, ins: seq<Inode>, i: nat, a: seq<Name>, b: seq<Name>)
    ensures Resolve(g, bs, ins, i, a + b) ==
            match Resolve(g, bs, ins, i, a) case None => None case Some(j) => Resolve(g, bs, ins, j, b)
    decreases |a|
  {
    hide Step;
    if a == [] {
      assert a + b == b;
    } else {
      assert (a + b)[0] == a[0] && (a + b)[1..] == a[1..] + b;
      match Step(g, bs, ins, i, a[0]) {
        case None =>
        case Some(next) => ResolveConcat(g, bs, ins, next, a[1..], b);
      }
    }
  }

  lemma ResolveNone(g: Geometry, bs: Disk, ins: seq<Inode>, i: nat)
    ensures Resolve(g, bs, ins, i, []) == Some(i)
  {
  }

  lemma NoParent(g: Geometry, bs: Disk, ins: seq<Inode>, i: nat)
    ensures ResolveParent(g, bs, ins, i, []) == None
  {
  }

  lemma NextName(names: seq<Name>, done: nat, name: Name, rest: seq<Name>)
    requires done <= |names| && names[done..] == [name] + rest
    ensures done < |names| && names[done] == name && names[done + 1..] == rest
  {
    assert names[done] == names[done..][0];
    assert names[done + 1..] == names[done..][1..];
  }

  lemma OneStep(g: Geometry, bs: Disk, ins: seq<Inode>, start: nat, names: seq<Name>, done: nat, ip: nat)
    requires done < |names| && Resolve(g, bs, ins, start, names[..done]) == Some(ip)
    ensures Resolve(g, bs, ins, start, names[..done + 1]) == Step(g, bs, ins, ip, names[done])
  {
    hide Step;
    assert names[..done + 1] == names[..done] + [names[done]];
    ResolveConcat(g, bs, ins, start, names[..done], [names[done]]);
    match Step(g, bs, ins, ip, names[done]) {
      case None =>
      case Some(next) => ResolveNone(g, bs, ins, next);
    }
  }

  /** A component that cannot be looked up makes the whole look-up fail. */
  lemma NoStep(g: Geometry, bs: Disk, ins: seq<Inode>, start: nat, names: seq<Name>, done: nat, ip: nat)
    requires done < |names| && Resolve(g, bs, ins, start, names[..done]) == Some(ip)
        && Step(g, bs, ins, ip, names[done]) == None
    ensures Resolve(g, bs, ins, start, names) == None
    ensures done + 1 < |names| || !IsDir(ins, ip) ==> ResolveParent(g, bs, ins, start, names) == None
  {
    hide Step, Resolve, IsDir;
    var n := |names|;
    OneStep(g, bs, ins, start, names, done, ip);
    assert names == names[..done + 1] + names[done + 1..];
    ResolveConcat(g, bs, ins, start, names[..done + 1], names[done + 1..]);
    if done + 1 < n {
      assert names[..n - 1] == names[..done + 1] + names[done + 1..n - 1];
      ResolveConcat(g, bs, ins, start, names[..done + 1], names[done + 1..n - 1]);
    } else {
      assert names[..n - 1] == names[..done];
    }
  }

  lemma LastName(g: Geometry, bs: Disk, ins: seq<Inode>, start: nat, names: seq<Name>, done: nat, ip: nat)
    requires done < |names| && Resolve(g, bs, ins, start, names[..done]) == Some(ip) && names[done + 1..] == []
        && IsDir(ins, ip)
    ensures done == |names| - 1 && ResolveParent(g, bs, ins, start, names) == Some(ip)
  {
    hide Resolve, IsDir;
    assert done + 1 == |names|;
  }

  /** dirlookup() is one Step. */
  lemma Looked(g: Geometry, bs: Disk, ins: seq<Inode>, ip: nat, name: Name, r: LookupResult)
    requires ip < |ins| && ins[ip].kind == T_DIR && DirsOk(g, bs, ins)
    requires var s := Bytes(g, bs, ins, ip);
             DirOk(s) ==> if name in DirMap(s) then r.Found? && r.inum == DirMap(s)[name] else r == Absent
    ensures Step(g, bs, ins, ip, name) == match r case Found(inum, _) => Some(inum) case _ => None
    ensures r.Found? ==> r.inum < |ins|
  {
    hide Bytes, DirMap, DirOk;
    var s := Bytes(g, bs, ins, ip);
  }

  lemma NotADir(g: Geometry, bs: Disk, ins: seq<Inode>, ip: nat, name: Name)
    requires ip < |ins| && ins[ip].kind != T_DIR
    ensures Step(g, bs, ins, ip, name) == None
  {
  }

  /** namex(): the inode, or None for 0, and the name buffer; cwd is the inode of myproc()->cwd. */
  method NameX(fs: FileSystem, path: seq<Byte>, nameiparent: bool, cwd: nat) returns (r: Option<nat>, name: seq<Byte>)
    requires FilesOk(fs.g, fs.blocks[..], fs.inodes[..]) && Small(fs.g) && DirsOk(fs.g, fs.blocks[..], fs.inodes[..])
    requires cwd < fs.inodes.Length && ROOTINO < fs.inodes.Length
    modifies fs.blocks, fs.inodes
    ensures fs.blocks[..] == old(fs.blocks[..]) && fs.inodes[..] == old(fs.inodes[..])
    ensures var start := if Char(path, 0) == SLASH then ROOTINO else cwd; var names := Elements(path, 0);
            if nameiparent then
              && r == ResolveParent(fs.g, fs.blocks[..], fs.inodes[..], start, names)
              && (r.Some? ==> names != [] && NameOf(name) == names[|names| - 1])
            else r == Resolve(fs.g, fs.blocks[..], fs.inodes[..], start, names)
  {
    hide FilesOk, Bytes, DirMap, DirOk, NameOf, Elements, Resolve, ResolveParent, Binds, DirsOk, Step;
    ghost var bs, ins := fs.blocks[..], fs.inodes[..];
    var ip := if Char(path, 0) == SLASH then ROOTINO else cwd;
    ghost var start, names := ip, Elements(path, 0);
    ghost var done: nat := 0;
    var p := 0;
    name := [];
    ResolveNone(fs.g, bs, ins, start);
    assert names[..0] == [] && names[0..] == names;
    while true
      invariant p <= |path| && ip < fs.inodes.Length && fs.blocks[..] == bs && fs.inodes[..] == ins
      invariant done <= |names| && names[done..] == Elements(path, p)
      invariant Resolve(fs.g, bs, ins, start, names[..done]) == Some(ip)
          && (nameiparent ==> done < |names| || names == [])
      decreases |path| - p
    {
      ghost var here := p;
      var rest;
      rest, name := SkipElem(path, p);
      if rest == None { break; }
      NextName(names, done, NameOf(name), Elements(path, rest.value));
      p := rest.value;
      if fs.inodes[ip].kind != T_DIR {
        NotADir(fs.g, bs, ins, ip, names[done]);
        NoStep(fs.g, bs, ins, start, names, done, ip);
        return None, name;
      }
      if nameiparent && Char(path, p) == 0 {
        LastName(fs.g, bs, ins, start, names, done, ip);
        return Some(ip), name;
      }
      var next := DirLookup(fs, ip, name);
      Looked(fs.g, bs, ins, ip, NameOf(name), next);
      if !next.Found? {
        NoStep(fs.g, bs, ins, start, names, done, ip);
        return None, name;
      }
      OneStep(fs.g, bs, ins, start, names, done, ip);
      ip, done := next.inum, done + 1;
    }
    assert names[..done] == names;
    if nameiparent {
      NoParent(fs.g, bs, ins, start);
      return None, name;
    }
    r := Some(ip);
  }
}
