/**
 What the redirections of a command do when it is run: runcmd() closes a descriptor and opens the file
 (sh.c), and open() reads the mode bit by bit (sysfile.c).
 */
module ShellRedirects {
  import opened Common
  import opened Bits
  import opened ShellLexer
  import opened ShellGrammar

  /** An open file: its name, what may be done with it, and the offset. */
  datatype Open = Open(name: string, readable: bool, writable: bool, off: nat)

  /** The plain files by name, and a process's descriptors. */
  datatype World = World(files: map<string, seq<int>>, fds: map<nat, Open>)

  function Used(fds: map<nat, Open>, fd: nat): set<nat> { set d | d in fds && fd <= d }

  /** fdalloc(): the lowest descriptor from fd on that is not in use. */
  function Lowest(fds: map<nat, Open>, fd: nat): (r: nat)
    ensures r >= fd && r !in fds && forall d :: fd <= d < r ==> d in fds
    decreases |Used(fds, fd)|
  {
    if fd !in fds then fd
    else
      assert Used(fds, fd) == Used(fds, fd + 1) + {fd};
      Lowest(fds, fd + 1)
  }

  /** sys_open() of a plain file; None is its result -1. */
  function Opening(w: World, name: string, mode: nat): Option<World> {
    if name !in w.files && !Bit(mode, 9) then None
    else
      var data := if name !in w.files || Bit(mode, 10) then [] else w.files[name];
      var file := Open(name, !Bit(mode, 0), Bit(mode, 0) || Bit(mode, 1), 0);
      Some(World(w.files[name := data], w.fds[Lowest(w.fds, 0) := file]))
  }

  function Text(s: string, at: Slice): string {
    if at.q <= at.eq <= |s| then s[at.q..at.eq] else ""
  }

  /** runcmd() as far as the redirections that c begins with; None is its exit(1). */
  function Opened(s: string, w: World, c: Cmd): Option<World>
    decreases c
  {
    match c
    case Redir(d, file, mode, fd) =>
      if mode < 0 || fd < 0 then None
      else (match Opening(w.(fds := w.fds - {fd}), Text(s, file), mode)
            case None => None
            case Some(w') => Opened(s, w', d))
    case _ => Some(w)
  }

  // ---------- what is written after a command ----------

  datatype Redirection = Redirection(op: char, name: string)

  predicate Reads(r: Redirection) { r.op == '<' }

  /** The redirections among items, in the order in which they are written. */
  function RedirsOf(s: string, t: seq<Token>): seq<Redirection> {
    if t == [] then []
    else if RedirOp(t[0].kind) then
      (if |t| > 1 then [Redirection(t[0].kind, Text(s, t[1].at))] + RedirsOf(s, t[2..]) else [])
    else RedirsOf(s, t[1..])
  }

  predicate AllOps(rs: seq<Redirection>) { forall i :: 0 <= i < |rs| ==> RedirOp(rs[i].op) }

  /** Standard input and output are open, as main() sees to. */
  predicate Standard(w: World) { 0 in w.fds && 1 in w.fds }

  /** One redirection: < needs its file and changes none, > empties or creates it, >> creates it only. */
  function OneRedir(w: World, r: Redirection): Option<World> {
    if Reads(r) then
      if r.name in w.files then Some(w.(fds := w.fds[0 := Open(r.name, true, false, 0)])) else None
    else
      var data := if r.op == '>' || r.name !in w.files then [] else w.files[r.name];
      Some(World(w.files[r.name := data], w.fds[1 := Open(r.name, false, true, 0)]))
  }

  /** The last one written is opened first. */
  function AllRedirs(w: World, rs: seq<Redirection>): Option<World> {
    if rs == [] then Some(w)
    else match AllRedirs(w, rs[1..])
      case None => None
      case Some(w') => OneRedir(w', rs[0])
  }

  lemma ReadMode()
    ensures !Bit(O_RDONLY, 0) && !Bit(O_RDONLY, 1) && !Bit(O_RDONLY, 9) && !Bit(O_RDONLY, 10)
  {
    ZeroBits(0);
    ZeroBits(1);
    ZeroBits(9);
    ZeroBits(10);
  }

  lemma {:induction false} ZeroBits(k: nat)
    ensures !Bit(0, k)
  {
    if k > 0 { ZeroBits(k - 1); }
  }

  lemma WriteModes()
    ensures var m := O_WRONLY + O_CREATE + O_TRUNC; Bit(m, 0) && Bit(m, 9) && Bit(m, 10)
    ensures var m := O_WRONLY + O_CREATE; Bit(m, 0) && Bit(m, 9) && !Bit(m, 10)
  {
    assert Bit(0x601, 9) == Bit(0xC0, 6) == Bit(6, 1);
    assert Bit(0x601, 10) == Bit(0xC0, 7) == Bit(6, 2);
    assert Bit(0x201, 9) == Bit(0x40, 6) == Bit(2, 1);
    assert Bit(0x201, 10) == Bit(0x40, 7) == Bit(2, 2);
  }

  /** The modes and descriptors that the parser chooses do what is meant. */
  lemma RedirectedOpens(s: string, w: World, c: Cmd, op: char, at: Slice)
    requires RedirOp(op) && Standard(w)
    ensures Opened(s, w, Redirected(c, op, at)) ==
            match OneRedir(w, Redirection(op, Text(s, at)))
            case None => None
            case Some(w') => Opened(s, w', c)
  {
    hide Bit;
    ReadMode();
    WriteModes();
    var fd := if op == '<' then 0 else 1;
    var closed := w.fds - {fd};
    assert Lowest(closed, 0) == fd;
    assert forall file: Open {:trigger closed[fd := file]} :: closed[fd := file] == w.fds[fd := file];
    if op == '<' && Text(s, at) in w.files {
      assert w.files[Text(s, at) := w.files[Text(s, at)]] == w.files;
    }
  }

  lemma OneStandard(w: World, r: Redirection)
    requires Standard(w) && OneRedir(w, r).Some?
    ensures Standard(OneRedir(w, r).value)
  {
  }

  lemma {:induction false} AllStandard(w: World, rs: seq<Redirection>)
    requires Standard(w) && AllRedirs(w, rs).Some?
    ensures Standard(AllRedirs(w, rs).value)
  {
    if rs != [] {
      AllStandard(w, rs[1..]);
      OneStandard(AllRedirs(w, rs[1..]).value, rs[0]);
    }
  }

  /** A command inside redirections opens them, the last one first, and goes on as the command does. */
  lemma {:induction false} WrappedOpens(s: string, w: World, c: Cmd, t: seq<Token>)
    requires Standard(w) && Items(t)
    ensures Opened(s, w, Wrapped(c, t)) ==
            match AllRedirs(w, RedirsOf(s, t))
            case None => None
            case Some(w') => Opened(s, w', c)
    decreases |t|
  {
    hide Opened, OneRedir, Redirected;
    if t != [] {
      if RedirOp(t[0].kind) {
        var r, rest := Redirection(t[0].kind, Text(s, t[1].at)), RedirsOf(s, t[2..]);
        WrappedOpens(s, w, Redirected(c, t[0].kind, t[1].at), t[2..]);
        assert ([r] + rest)[1..] == rest;
        if AllRedirs(w, rest).Some? {
          AllStandard(w, rest);
          RedirectedOpens(s, AllRedirs(w, rest).value, c, t[0].kind, t[1].at);
        }
      } else {
        WrappedOpens(s, w, c, t[1..]);
      }
    }
  }

  lemma {:induction false} RedirsAreOps(s: string, t: seq<Token>)
    ensures AllOps(RedirsOf(s, t))
    decreases |t|
  {
    if t != [] {
      if RedirOp(t[0].kind) {
        if |t| > 1 { RedirsAreOps(s, t[2..]); }
      } else {
        RedirsAreOps(s, t[1..]);
      }
    }
  }

  // ---------- the world after a list of redirections ----------

  /** Some redirection from k on may create the file. */
  ghost predicate Creates(rs: seq<Redirection>, k: nat, name: string) {
    exists j :: k <= j < |rs| && !Reads(rs[j]) && rs[j].name == name
  }

  ghost predicate Empties(rs: seq<Redirection>, name: string) {
    exists j :: 0 <= j < |rs| && rs[j].op == '>' && rs[j].name == name
  }

  /** Every file to be read is there, or is created by a redirection written after. */
  ghost predicate AllThere(w: World, rs: seq<Redirection>) {
    forall i :: 0 <= i < |rs| && Reads(rs[i]) ==> rs[i].name in w.files || Creates(rs, i + 1, rs[i].name)
  }

  /** No redirection before the kth is for the same descriptor. */
  ghost predicate Foremost(rs: seq<Redirection>, k: nat) {
    k < |rs| && forall i :: 0 <= i < k ==> Reads(rs[i]) != Reads(rs[k])
  }

  /** Descriptor 0 is the foremost file read, 1 the foremost file written, and the others are as before. */
  ghost predicate Descriptors(w: World, rs: seq<Redirection>, now: World) {
    && now.fds.Keys == w.fds.Keys
    && (forall fd :: fd in w.fds && fd > 1 ==> now.fds[fd] == w.fds[fd])
    && (forall k: nat {:trigger Foremost(rs, k)} :: Foremost(rs, k) ==>
          (if Reads(rs[k]) then 0 in now.fds && now.fds[0] == Open(rs[k].name, true, false, 0)
           else 1 in now.fds && now.fds[1] == Open(rs[k].name, false, true, 0)))
    && (0 in w.fds && (forall i :: 0 <= i < |rs| ==> !Reads(rs[i])) ==> now.fds[0] == w.fds[0])
    && (1 in w.fds && (forall i :: 0 <= i < |rs| ==> Reads(rs[i])) ==> now.fds[1] == w.fds[1])
  }

  /** Files named after > are empty, those named after >> are there, and nothing else has changed. */
  ghost predicate Contents(w: World, rs: seq<Redirection>, now: World) {
    && (forall name :: name in now.files <==> name in w.files || Creates(rs, 0, name))
    && (forall name :: name in now.files ==>
          now.files[name] == if Empties(rs, name) || name !in w.files then [] else w.files[name])
  }

  lemma CreatesStep(rs: seq<Redirection>, k: nat, name: string)
    requires rs != []
    ensures Creates(rs, k + 1, name) <==> Creates(rs[1..], k, name)
    ensures Creates(rs, 0, name) <==> (!Reads(rs[0]) && rs[0].name == name) || Creates(rs[1..], 0, name)
    ensures Empties(rs, name) <==> (rs[0].op == '>' && rs[0].name == name) || Empties(rs[1..], name)
  {
    if j :| k + 1 <= j < |rs| && !Reads(rs[j]) && rs[j].name == name { assert rs[1..][j - 1] == rs[j]; }
    if j :| k <= j < |rs[1..]| && !Reads(rs[1..][j]) && rs[1..][j].name == name { assert rs[j + 1] == rs[1..][j]; }
    if j :| 0 <= j < |rs| && !Reads(rs[j]) && rs[j].name == name { assert j > 0 ==> rs[1..][j - 1] == rs[j]; }
    if j :| 0 <= j < |rs[1..]| && !Reads(rs[1..][j]) && rs[1..][j].name == name { assert rs[j + 1] == rs[1..][j]; }
    if j :| 0 <= j < |rs| && rs[j].op == '>' && rs[j].name == name { assert j > 0 ==> rs[1..][j - 1] == rs[j]; }
    if j :| 0 <= j < |rs[1..]| && rs[1..][j].op == '>' && rs[1..][j].name == name { assert rs[j + 1] == rs[1..][j]; }
  }

  lemma ThereStep(w: World, rs: seq<Redirection>)
    requires rs != []
    ensures AllThere(w, rs) <==>
            AllThere(w, rs[1..]) && (Reads(rs[0]) ==> rs[0].name in w.files || Creates(rs[1..], 0, rs[0].name))
  {
    hide Creates;
    forall i: nat, name ensures Creates(rs, i + 1, name) <==> Creates(rs[1..], i, name) { CreatesStep(rs, i, name); }
    if AllThere(w, rs) {
      forall i | 0 <= i < |rs[1..]| && Reads(rs[1..][i])
        ensures rs[1..][i].name in w.files || Creates(rs[1..], i + 1, rs[1..][i].name)
      {
        assert rs[1..][i] == rs[i + 1];
        assert Creates(rs, i + 1 + 1, rs[i + 1].name) <==> Creates(rs[1..], i + 1, rs[i + 1].name);
      }
      assert Creates(rs, 0 + 1, rs[0].name) <==> Creates(rs[1..], 0, rs[0].name);
    }
    if AllThere(w, rs[1..]) && (Reads(rs[0]) ==> rs[0].name in w.files || Creates(rs[1..], 0, rs[0].name)) {
      forall i | 0 <= i < |rs| && Reads(rs[i]) ensures rs[i].name in w.files || Creates(rs, i + 1, rs[i].name) {
        if i > 0 {
          assert rs[1..][i - 1] == rs[i];
          assert Creates(rs, i - 1 + 1 + 1, rs[i].name) <==> Creates(rs[1..], i - 1 + 1, rs[i].name);
        } else {
          assert Creates(rs, 0 + 1, rs[0].name) <==> Creates(rs[1..], 0, rs[0].name);
        }
      }
    }
  }

  lemma ContentsStep(w: World, rs: seq<Redirection>, mid: World, now: World)
    requires rs != [] && RedirOp(rs[0].op) && Contents(w, rs[1..], mid) && OneRedir(mid, rs[0]) == Some(now)
    ensures Contents(w, rs, now)
  {
    hide Creates, Empties;
    forall name ensures Creates(rs, 0, name) <==> (!Reads(rs[0]) && rs[0].name == name) || Creates(rs[1..], 0, name)
      ensures Empties(rs, name) <==> (rs[0].op == '>' && rs[0].name == name) || Empties(rs[1..], name)
    {
      CreatesStep(rs, 0, name);
    }
  }

  lemma DescriptorsStep(w: World, rs: seq<Redirection>, mid: World, now: World)
    requires rs != [] && Standard(w) && Descriptors(w, rs[1..], mid) && OneRedir(mid, rs[0]) == Some(now)
    ensures Descriptors(w, rs, now)
  {
    var rest := rs[1..];
    assert forall i :: 0 <= i < |rest| ==> rest[i] == rs[i + 1];
    assert now.fds.Keys == w.fds.Keys;
    forall k: nat {:trigger Foremost(rs, k)} | Foremost(rs, k)
      ensures if Reads(rs[k]) then now.fds[0] == Open(rs[k].name, true, false, 0)
              else now.fds[1] == Open(rs[k].name, false, true, 0)
    {
      if k > 0 { assert Reads(rs[0]) != Reads(rs[k]) && Foremost(rest, k - 1); }
    }
    if forall i :: 0 <= i < |rs| ==> !Reads(rs[i]) { assert !Reads(rs[0]); }
    if forall i :: 0 <= i < |rs| ==> Reads(rs[i]) { assert Reads(rs[0]); }
  }

  /** When a list of redirections can be opened, and all that has then changed. */
  lemma {:induction false} RedirsOpen(w: World, rs: seq<Redirection>)
    requires Standard(w) && AllOps(rs)
    ensures AllRedirs(w, rs).Some? <==> AllThere(w, rs)
    ensures AllThere(w, rs) ==> var now := AllRedirs(w, rs).value; Descriptors(w, rs, now) && Contents(w, rs, now)
  {
    hide AllThere, Descriptors, Contents;
    if rs == [] {
      NoRedirs(w);
    } else {
      RedirsOpen(w, rs[1..]);
      ThereStep(w, rs);
      if AllThere(w, rs[1..]) {
        var mid := AllRedirs(w, rs[1..]).value;
        NowThere(w, rs[1..], mid, rs[0].name);
        if OneRedir(mid, rs[0]).Some? {
          ContentsStep(w, rs, mid, OneRedir(mid, rs[0]).value);
          DescriptorsStep(w, rs, mid, OneRedir(mid, rs[0]).value);
        }
      }
    }
  }

  lemma NoRedirs(w: World)
    ensures AllThere(w, []) && Descriptors(w, [], w) && Contents(w, [], w)
  {
  }

  lemma NowThere(w: World, rs: seq<Redirection>, now: World, name: string)
    requires Contents(w, rs, now)
    ensures name in now.files <==> name in w.files || Creates(rs, 0, name)
  {
  }

  /** A command or block, run: its redirections have the effect that the tokens say, or it exits. */
  lemma CommandOpens(s: string, w: World, c: Cmd, t: seq<Token>)
    requires Standard(w) && Items(t) && !c.Redir?
    ensures var rs, r := RedirsOf(s, t), Opened(s, w, Wrapped(c, t));
            && (r.Some? <==> AllThere(w, rs))
            && (r.Some? ==> Descriptors(w, rs, r.value) && Contents(w, rs, r.value))
  {
    hide AllThere, Descriptors, Contents, Wrapped;
    RedirsAreOps(s, t);
    RedirsOpen(w, RedirsOf(s, t));
    WrappedOpens(s, w, c, t);
  }

  /** What the parser makes of a line of words and redirections opens them as the line says. */
  lemma ParsedOpens(s: string, w: World, t: seq<Token>)
    requires Standard(w) && Items(t) && |Args(t)| < MAXARGS
    ensures PCmd(t).Some?
    ensures var rs, r := RedirsOf(s, t), Opened(s, w, PCmd(t).value);
            && (r.Some? <==> AllThere(w, rs))
            && (r.Some? ==> Descriptors(w, rs, r.value) && Contents(w, rs, r.value))
  {
    hide AllThere, Descriptors, Contents, Wrapped, PCmd, Opened, IsPipe, IsLine;
    var c := Wrapped(Exec(Args(t)), t);
    assert t[..|t|] == t && t[|t|..] == [];
    ExecIsPipe(t, c);
    MakeLine(t, |t|, c);
    ParsesTheGrammar(t, c);
    CommandOpens(s, w, Exec(Args(t)), t);
  }

  // ---------- what is then written ----------

  /** data with out written at off. */
  function Over(data: seq<int>, off: nat, out: seq<int>): seq<int>
    requires off <= |data|
  {
    data[..off] + out + if off + |out| <= |data| then data[off + |out|..] else []
  }

  /** A write() of each piece through a descriptor whose offset is off, one after the other. */
  function Output(data: seq<int>, off: nat, pieces: seq<seq<int>>): seq<int>
    requires off <= |data|
    decreases |pieces|
  {
    if pieces == [] then data else Output(Over(data, off, pieces[0]), off + |pieces[0]|, pieces[1..])
  }

  function Joint(pieces: seq<seq<int>>): seq<int> {
    if pieces == [] then [] else pieces[0] + Joint(pieces[1..])
  }

  lemma {:induction false} OutputIsOver(data: seq<int>, off: nat, pieces: seq<seq<int>>)
    requires off <= |data|
    ensures Output(data, off, pieces) == Over(data, off, Joint(pieces))
    decreases |pieces|
  {
    if pieces != [] {
      var p, rest := pieces[0], Joint(pieces[1..]);
      OutputIsOver(Over(data, off, p), off + |p|, pieces[1..]);
      assert Over(Over(data, off, p), off + |p|, rest) == Over(data, off, p + rest);
    }
  }

  /** >> begins at the start of the file, so it appends exactly if the file is empty or nothing is written. */
  lemma AppendsIff(data: seq<int>, pieces: seq<seq<int>>)
    ensures Output(data, 0, pieces) == data + Joint(pieces) <==> data == [] || Joint(pieces) == []
  {
    OutputIsOver(data, 0, pieces);
    var out := Joint(pieces);
    assert |Over(data, 0, out)| == if |out| <= |data| then |data| else |out|;
  }
}
