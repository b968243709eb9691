/**
 Commands, the grammar of command lines, and the parser of sh.c as it acts on tokens.
 */
module ShellGrammar {
  import opened Common
  import opened ShellLexer

  const MAXARGS := 10

  const O_RDONLY := 0x000
  const O_WRONLY := 0x001
  const O_CREATE := 0x200
  const O_TRUNC := 0x400

  datatype Cmd =
    | Exec(args: seq<Slice>)
    | Redir(cmd: Cmd, file: Slice, mode: int, fd: int)
    | Pipe(left: Cmd, right: Cmd)
    | List(left: Cmd, right: Cmd)
    | Back(cmd: Cmd)

  predicate RedirOp(k: char) { k == '<' || k == '>' || k == MORE }

  /** redircmd() as parseredirs() calls it. */
  function Redirected(c: Cmd, op: char, file: Slice): Cmd {
    Redir(c, file, if op == '<' then O_RDONLY else if op == '>' then O_WRONLY + O_CREATE + O_TRUNC
        else O_WRONLY + O_CREATE, if op == '<' then 0 else 1)
  }

  // ---------- the grammar ----------

  /** Words and redirections in any order. */
  predicate Items(t: seq<Token>) {
    || t == []
    || (t[0].kind == WORD && Items(t[1..]))
    || (RedirOp(t[0].kind) && |t| > 1 && t[1].kind == WORD && Items(t[2..]))
  }

  /** Words that are not the file of a redirection. */
  function Args(t: seq<Token>): seq<Slice> {
    if t == [] then []
    else if RedirOp(t[0].kind) then (if |t| > 1 then Args(t[2..]) else [])
    else [t[0].at] + Args(t[1..])
  }

  /** A command inside the redirections of t, the first innermost. */
  function Wrapped(c: Cmd, t: seq<Token>): Cmd
    decreases |t|
  {
    if t == [] then c
    else if RedirOp(t[0].kind) then (if |t| > 1 then Wrapped(Redirected(c, t[0].kind, t[1].at), t[2..]) else c)
    else Wrapped(c, t[1..])
  }

  /** A block ( line ) redirections, or words and redirections with fewer than MAXARGS words. */
  ghost predicate IsExec(t: seq<Token>, c: Cmd)
    decreases |t|, 0
  {
    || (Items(t) && |Args(t)| < MAXARGS && c == Wrapped(Exec(Args(t)), t))
    || (exists k, d {:trigger IsLine(t[1..k], d)} ::
          && 1 <= k < |t| && t[0].kind == '(' && t[k].kind == ')' && IsLine(t[1..k], d)
          && Items(t[k + 1..]) && Args(t[k + 1..]) == [] && c == Wrapped(d, t[k + 1..]))
  }

  ghost predicate IsPipe(t: seq<Token>, c: Cmd)
    decreases |t|, 1
  {
    || IsExec(t, c)
    || (exists k, d, e {:trigger IsExec(t[..k], d), IsPipe(t[k + 1..], e)} ::
          0 <= k < |t| && t[k].kind == '|' && IsExec(t[..k], d) && IsPipe(t[k + 1..], e) && c == Pipe(d, e))
  }

  function Backs(n: nat, c: Cmd): Cmd { if n == 0 then c else Backs(n - 1, Back(c)) }

  predicate Ands(t: seq<Token>) { forall i :: 0 <= i < |t| ==> t[i].kind == '&' }

  /** A pipeline and any number of &, alone or followed by ; and a line. */
  ghost predicate IsLine(t: seq<Token>, c: Cmd)
    decreases |t|, 2
  {
    || (exists k, d {:trigger IsPipe(t[..k], d)} ::
        0 <= k <= |t| && IsPipe(t[..k], d) && Ands(t[k..]) && c == Backs(|t| - k, d))
    || (exists k, j, d, e {:trigger IsPipe(t[..k], d), IsLine(t[j + 1..], e)} ::
          && 0 <= k <= j < |t| && IsPipe(t[..k], d) && Ands(t[k..j]) && t[j].kind == ';' && IsLine(t[j + 1..], e)
          && c == List(Backs(j - k, d), e))
  }

  // ---------- the parser on tokens ----------

  /** A panic, or a command and the tokens after it. */
  datatype Parsed = Panic | Parsed(cmd: Cmd, rest: seq<Token>)

  /** The character that the next token starts with; WORD for a word, NUL if there is none. */
  function Head(t: seq<Token>): char {
    if t == [] then NUL else if t[0].kind == MORE then '>' else t[0].kind
  }

  /** Where a command without a block ends. */
  predicate AtEnd(t: seq<Token>) { t == [] || Head(t) == '|' || Head(t) == ')' || Head(t) == '&' || Head(t) == ';' }

  predicate AtRedir(t: seq<Token>) { t != [] && (Head(t) == '<' || Head(t) == '>') }

  /** parseredirs() */
  function PRedirs(c: Cmd, t: seq<Token>): (p: Parsed)
    ensures p.Parsed? ==> |p.rest| <= |t|
    decreases |t|
  {
    if !AtRedir(t) then Parsed(c, t)
    else if |t| < 2 || t[1].kind != WORD then Panic
    else PRedirs(Redirected(c, t[0].kind, t[1].at), t[2..])
  }

  /** argv[argc] = q of the command that redirections are wrapped around. */
  function AddArg(c: Cmd, w: Slice): Cmd {
    match c
    case Exec(args) => Exec(args + [w])
    case Redir(d, file, mode, fd) => Redir(AddArg(d, w), file, mode, fd)
    case _ => c
  }

  /** The loop of parseexec(). */
  function PArgs(c: Cmd, argc: nat, t: seq<Token>): (p: Parsed)
    ensures p.Parsed? ==> |p.rest| <= |t|
    decreases |t|
  {
    if AtEnd(t) then Parsed(c, t)
    else if t[0].kind != WORD || argc + 1 >= MAXARGS then Panic
    else match PRedirs(AddArg(c, t[0].at), t[1..])
      case Panic => Panic
      case Parsed(d, rest) => PArgs(d, argc + 1, rest)
  }

  /** parseexec() */
  function PExec(t: seq<Token>): (p: Parsed)
    ensures p.Parsed? ==> |p.rest| <= |t|
    decreases |t|, 1
  {
    if Head(t) == '(' then PBlock(t)
    else match PRedirs(Exec([]), t)
      case Panic => Panic
      case Parsed(c, rest) => PArgs(c, 0, rest)
  }

  /** parseblock() */
  function PBlock(t: seq<Token>): (p: Parsed)
    ensures p.Parsed? ==> |p.rest| < |t|
    decreases |t|, 0
  {
    if Head(t) != '(' then Panic
    else match PLine(t[1..])
      case Panic => Panic
      case Parsed(c, rest) => if Head(rest) != ')' then Panic else PRedirs(c, rest[1..])
  }

  /** parsepipe() */
  function PPipe(t: seq<Token>): (p: Parsed)
    ensures p.Parsed? ==> |p.rest| <= |t|
    decreases |t|, 2
  {
    match PExec(t)
    case Panic => Panic
    case Parsed(c, rest) =>
      if Head(rest) != '|' then Parsed(c, rest)
      else match PPipe(rest[1..])
        case Panic => Panic
        case Parsed(d, last) => Parsed(Pipe(c, d), last)
  }

  /** The loop of parseline(). */
  function PBacks(c: Cmd, t: seq<Token>): (p: Parsed)
    ensures p.Parsed? && |p.rest| <= |t| && Head(p.rest) != '&'
    decreases |t|
  {
    if Head(t) != '&' then Parsed(c, t) else PBacks(Back(c), t[1..])
  }

  /** parseline() */
  function PLine(t: seq<Token>): (p: Parsed)
    ensures p.Parsed? ==> |p.rest| <= |t|
    decreases |t|, 3
  {
    match PPipe(t)
    case Panic => Panic
    case Parsed(c, rest) =>
      var b := PBacks(c, rest);
      if Head(b.rest) != ';' then b
      else match PLine(b.rest[1..])
        case Panic => Panic
        case Parsed(d, last) => Parsed(List(b.cmd, d), last)
  }

  /** parsecmd(), up to nulterminate() */
  function PCmd(t: seq<Token>): Option<Cmd> {
    match PLine(t)
    case Panic => None
    case Parsed(c, rest) => if rest == [] then Some(c) else None
  }

  // ---------- words and redirections ----------

  /** The part of parseexec() after its test for a block. */
  function PItems(c: Cmd, argc: nat, t: seq<Token>): Parsed {
    match PRedirs(c, t)
    case Panic => Panic
    case Parsed(d, rest) => PArgs(d, argc, rest)
  }

  lemma ItemStep(c: Cmd, argc: nat, t: seq<Token>)
    ensures PItems(c, argc, t) ==
              if t != [] && RedirOp(t[0].kind) then
                if |t| > 1 && t[1].kind == WORD then PItems(Redirected(c, t[0].kind, t[1].at), argc, t[2..]) else Panic
              else if AtEnd(t) then Parsed(c, t)
              else if t[0].kind == WORD && argc + 1 < MAXARGS then PItems(AddArg(c, t[0].at), argc + 1, t[1..])
              else Panic
  {
  }

  lemma {:induction false} AppendItem(u: seq<Token>, v: seq<Token>, c: Cmd)
    requires Items(u)
    requires (|v| == 1 && v[0].kind == WORD) || (|v| == 2 && RedirOp(v[0].kind) && v[1].kind == WORD)
    ensures Items(u + v) && Args(u + v) == Args(u) + Args(v) && Wrapped(c, u + v) == Wrapped(Wrapped(c, u), v)
  {
    if u == [] {
      assert u + v == v;
      assert |v| == 1 ==> v[1..] == [];
      assert |v| == 2 ==> v[2..] == [];
    } else {
      var n := if u[0].kind == WORD then 1 else 2;
      assert (u + v)[n..] == u[n..] + v;
      AppendItem(u[n..], v, if n == 1 then c else Redirected(c, u[0].kind, u[1].at));
    }
  }

  lemma {:induction false} WrapArg(c: Cmd, u: seq<Token>, w: Slice)
    ensures AddArg(Wrapped(c, u), w) == Wrapped(AddArg(c, w), u)
    decreases |u|
  {
    if u != [] {
      if RedirOp(u[0].kind) {
        if |u| > 1 { WrapArg(Redirected(c, u[0].kind, u[1].at), u[2..], w); }
      } else {
        WrapArg(c, u[1..], w);
      }
    }
  }

  /** The simple command that the tokens u make. */
  function Simple(u: seq<Token>): Cmd { Wrapped(Exec(Args(u)), u) }

  /** The parser, having read the items u, takes the item v as the grammar does. */
  lemma OneItem(u: seq<Token>, v: seq<Token>)
    requires Items(u)
    requires (|v| == 1 && v[0].kind == WORD) || (|v| == 2 && RedirOp(v[0].kind) && v[1].kind == WORD)
    ensures Items(u + v) && Args(u + v) == Args(u) + if |v| == 1 then [v[0].at] else []
    ensures Simple(u + v) == if |v| == 1 then AddArg(Simple(u), v[0].at) else Redirected(Simple(u), v[0].kind, v[1].at)
  {
    AppendItem(u, v, Exec(Args(u + v)));
    if |v| == 1 {
      assert v[1..] == [];
      WrapArg(Exec(Args(u)), u, v[0].at);
    } else {
      assert v[2..] == [];
      assert Args(u + v) == Args(u);
    }
  }

  /** r is what is left of t. */
  predicate Suffix(t: seq<Token>, r: seq<Token>)
    ensures Suffix(t, r) ==> |r| <= |t|
  {
    |r| <= |t| && r == t[|t| - |r|..]
  }

  function Front(t: seq<Token>, r: seq<Token>): (f: seq<Token>)
    requires |r| <= |t|
    ensures |f| == |t| - |r|
  {
    t[..|t| - |r|]
  }

  /** What is read first, a token, and what is read after it, up to r. */
  lemma FrontSplit(t: seq<Token>, mid: seq<Token>, r: seq<Token>)
    requires Suffix(t, mid) && mid != [] && Suffix(mid[1..], r)
    ensures Suffix(t, r)
    ensures var f, k := Front(t, r), |t| - |mid|;
            k < |f| && f[..k] == Front(t, mid) && f[k] == mid[0] && f[k + 1..] == Front(mid[1..], r)
  {
  }

  lemma FrontNone(t: seq<Token>)
    ensures Suffix(t, t) && Front(t, t) == []
  {
  }

  lemma FrontTwo(t: seq<Token>, mid: seq<Token>, r: seq<Token>)
    requires Suffix(t, mid) && Suffix(mid, r)
    ensures Suffix(t, r)
    ensures Front(t, r)[..|t| - |mid|] == Front(t, mid) && Front(t, r)[|t| - |mid|..] == Front(mid, r)
  {
  }

  lemma FrontInner(t: seq<Token>, r: seq<Token>)
    requires t != [] && Suffix(t[1..], r)
    ensures Suffix(t, r) && Front(t, r) != [] && Front(t, r)[0] == t[0] && Front(t, r)[1..] == Front(t[1..], r)
  {
  }

  lemma {:induction false} ItemsSound(u: seq<Token>, t: seq<Token>)
    requires Items(u) && |Args(u)| < MAXARGS && PItems(Simple(u), |Args(u)|, t).Parsed?
    ensures var p := PItems(Simple(u), |Args(u)|, t);
            && Suffix(t, p.rest) && Items(u + Front(t, p.rest)) && |Args(u + Front(t, p.rest))| < MAXARGS
            && p.cmd == Simple(u + Front(t, p.rest))
    decreases |t|
  {
    hide Simple, PItems;
    ItemStep(Simple(u), |Args(u)|, t);
    if AtEnd(t) {
      assert u + Front(t, t) == u;
    } else {
      var n := if t[0].kind == WORD then 1 else 2;
      OneItem(u, t[..n]);
      ItemsSound(u + t[..n], t[n..]);
      var r := PItems(Simple(u), |Args(u)|, t).rest;
      assert u + t[..n] + Front(t[n..], r) == u + Front(t, r);
    }
  }

  lemma {:induction false} ItemsComplete(u: seq<Token>, v: seq<Token>, r: seq<Token>)
    requires Items(u) && Items(v) && |Args(u)| + |Args(v)| < MAXARGS && AtEnd(r)
    ensures PItems(Simple(u), |Args(u)|, v + r) == Parsed(Simple(u + v), r)
    decreases |v|
  {
    hide Simple, PItems, Wrapped;
    ItemStep(Simple(u), |Args(u)|, v + r);
    if v == [] {
      assert v + r == r && u + v == u;
    } else {
      var n := if v[0].kind == WORD then 1 else 2;
      OneItem(u, v[..n]);
      assert (v + r)[n..] == v[n..] + r && u + v[..n] + v[n..] == u + v;
      ItemsComplete(u + v[..n], v[n..], r);
    }
  }

  lemma {:induction false} RedirsSound(c: Cmd, t: seq<Token>)
    requires PRedirs(c, t).Parsed?
    ensures var p := PRedirs(c, t);
            && Suffix(t, p.rest) && Items(Front(t, p.rest)) && Args(Front(t, p.rest)) == []
            && p.cmd == Wrapped(c, Front(t, p.rest))
    decreases |t|
  {
    if AtRedir(t) {
      RedirsSound(Redirected(c, t[0].kind, t[1].at), t[2..]);
      var r := PRedirs(c, t).rest;
      assert Front(t, r)[2..] == Front(t[2..], r);
    }
  }

  lemma {:induction false} RedirsComplete(c: Cmd, v: seq<Token>, r: seq<Token>)
    requires Items(v) && Args(v) == [] && !AtRedir(r)
    ensures PRedirs(c, v + r) == Parsed(Wrapped(c, v), r)
    decreases |v|
  {
    if v == [] {
      assert v + r == r;
    } else {
      assert (v + r)[2..] == v[2..] + r;
      RedirsComplete(Redirected(c, v[0].kind, v[1].at), v[2..], r);
    }
  }

  lemma BackStep(c: Cmd, t: seq<Token>)
    ensures PBacks(c, t) == if Head(t) != '&' then Parsed(c, t) else PBacks(Back(c), t[1..])
  {
  }

  lemma {:induction false} BacksSound(c: Cmd, t: seq<Token>)
    ensures var p := PBacks(c, t); Suffix(t, p.rest) && Ands(Front(t, p.rest)) && p.cmd == Backs(|t| - |p.rest|, c)
    decreases |t|
  {
    hide Ands, PBacks, Front, Suffix;
    NoAnds();
    BackStep(c, t);
    if Head(t) == '&' {
      BacksSound(Back(c), t[1..]);
      var r := PBacks(c, t).rest;
      FrontInner(t, r);
      MoreAnds(Front(t, r));
    } else {
      FrontNone(t);
    }
  }

  lemma NoAnds()
    ensures Ands([])
  {
  }

  lemma MoreAnds(t: seq<Token>)
    requires t != [] && t[0].kind == '&' && Ands(t[1..])
    ensures Ands(t)
  {
    forall i | 1 <= i < |t| ensures t[i].kind == '&' { assert t[1..][i - 1] == t[i]; }
  }

  lemma {:induction false} BacksComplete(c: Cmd, v: seq<Token>, r: seq<Token>)
    requires Ands(v) && Head(r) != '&'
    ensures PBacks(c, v + r) == Parsed(Backs(|v|, c), r)
    decreases |v|
  {
    if v == [] {
      assert v + r == r;
    } else {
      assert (v + r)[1..] == v[1..] + r;
      BacksComplete(Back(c), v[1..], r);
    }
  }

  // ---------- what the parser accepts is what the grammar has ----------

  lemma MakeBlock(t: seq<Token>, k: nat, d: Cmd)
    requires 1 <= k < |t| && t[0].kind == '(' && t[k].kind == ')' && IsLine(t[1..k], d)
    requires Items(t[k + 1..]) && Args(t[k + 1..]) == []
    ensures IsExec(t, Wrapped(d, t[k + 1..]))
  {
  }

  lemma MakePipe(t: seq<Token>, k: nat, d: Cmd, e: Cmd)
    requires k < |t| && t[k].kind == '|' && IsExec(t[..k], d) && IsPipe(t[k + 1..], e)
    ensures IsPipe(t, Pipe(d, e))
  {
  }

  lemma ExecIsPipe(t: seq<Token>, c: Cmd)
    ensures IsExec(t, c) ==> IsPipe(t, c)
  {
  }

  lemma MakeLine(t: seq<Token>, k: nat, d: Cmd)
    requires k <= |t| && IsPipe(t[..k], d) && Ands(t[k..])
    ensures IsLine(t, Backs(|t| - k, d))
  {
  }

  lemma MakeList(t: seq<Token>, k: nat, j: nat, d: Cmd, e: Cmd)
    requires k <= j < |t| && IsPipe(t[..k], d) && Ands(t[k..j]) && t[j].kind == ';' && IsLine(t[j + 1..], e)
    ensures IsLine(t, List(Backs(j - k, d), e))
  {
  }

  lemma BlockParsed(t: seq<Token>)
    requires PExec(t).Parsed? && Head(t) == '('
    ensures PLine(t[1..]).Parsed? && Head(PLine(t[1..]).rest) == ')'
    ensures PExec(t) == PRedirs(PLine(t[1..]).cmd, PLine(t[1..]).rest[1..])
  {
  }

  lemma NoBlock(t: seq<Token>)
    requires Head(t) != '('
    ensures PExec(t) == PItems(Simple([]), 0, t)
  {
  }

  lemma SimpleSound(t: seq<Token>)
    requires PExec(t).Parsed? && Head(t) != '('
    ensures var p := PExec(t); Suffix(t, p.rest) && IsExec(Front(t, p.rest), p.cmd)
  {
    hide PItems, PExec, Wrapped, Items, Args;
    NoBlock(t);
    MakeSimple([]);
    ItemsSound([], t);
    var f := Front(t, PExec(t).rest);
    assert [] + f == f;
    MakeSimple(f);
  }

  lemma MakeSimple(t: seq<Token>)
    ensures Items(t) && |Args(t)| < MAXARGS ==> IsExec(t, Simple(t))
    ensures t == [] ==> Items(t) && Args(t) == []
  {
  }

  lemma BlockSound(t: seq<Token>)
    requires PExec(t).Parsed? && Head(t) == '('
    ensures var p := PExec(t); Suffix(t, p.rest) && IsExec(Front(t, p.rest), p.cmd)
    decreases |t|, 0
  {
    hide IsLine, IsExec, Items, Args, Wrapped, PRedirs, PExec, PLine, Front, Suffix;
    BlockParsed(t);
    LineSound(t[1..]);
    var p, l := PExec(t), PLine(t[1..]);
    RedirsSound(l.cmd, l.rest[1..]);
    var f, k := Front(t, p.rest), |t| - |l.rest|;
    FrontInner(t, l.rest);
    FrontSplit(t, l.rest, p.rest);
    assert f[..k][1..] == f[1..k] && f[0] == f[..k][0];
    MakeBlock(f, k, l.cmd);
  }

  lemma ExecSound(t: seq<Token>)
    requires PExec(t).Parsed?
    ensures var p := PExec(t); Suffix(t, p.rest) && IsExec(Front(t, p.rest), p.cmd)
    decreases |t|, 1
  {
    hide IsExec, PExec;
    if Head(t) == '(' { BlockSound(t); } else { SimpleSound(t); }
  }

  lemma {:induction false} PipeSound(t: seq<Token>)
    requires PPipe(t).Parsed?
    ensures var p := PPipe(t); Suffix(t, p.rest) && IsPipe(Front(t, p.rest), p.cmd)
    decreases |t|, 2
  {
    hide IsExec, PExec, IsPipe;
    var p, x := PPipe(t), PExec(t);
    ExecSound(t);
    if Head(x.rest) != '|' {
      ExecIsPipe(Front(t, p.rest), p.cmd);
    } else {
      PipeSound(x.rest[1..]);
      FrontSplit(t, x.rest, p.rest);
      MakePipe(Front(t, p.rest), |t| - |x.rest|, x.cmd, PPipe(x.rest[1..]).cmd);
    }
  }

  lemma {:induction false} LineSound(t: seq<Token>)
    requires PLine(t).Parsed?
    ensures var p := PLine(t); Suffix(t, p.rest) && IsLine(Front(t, p.rest), p.cmd)
    decreases |t|, 3
  {
    hide IsLine, IsPipe, PPipe, PBacks, Ands, Backs, Front, Suffix;
    var p, x := PLine(t), PPipe(t);
    PipeSound(t);
    BacksSound(x.cmd, x.rest);
    var b := PBacks(x.cmd, x.rest);
    FrontTwo(t, x.rest, b.rest);
    var f, k, j := Front(t, p.rest), |t| - |x.rest|, |t| - |b.rest|;
    if Head(b.rest) == ';' {
      LineSound(b.rest[1..]);
      FrontSplit(t, b.rest, p.rest);
      assert f[..j][..k] == f[..k] && f[..j][k..] == f[k..j];
      MakeList(f, k, j, x.cmd, PLine(b.rest[1..]).cmd);
    } else {
      MakeLine(f, k, x.cmd);
    }
  }

  lemma TailHead(t: seq<Token>, k: nat, r: seq<Token>)
    requires k <= |t|
    ensures t + r == t[..k] + (t[k..] + r)
    ensures k == |t| ==> t[k..] + r == r
    ensures k < |t| ==> (t[k..] + r)[0] == t[k] && (t[k..] + r)[1..] == t[k + 1..] + r
  {
  }

  lemma BlockComplete(t: seq<Token>, k: nat, d: Cmd, r: seq<Token>)
    requires 1 <= k < |t| && t[0].kind == '(' && t[k].kind == ')' && IsLine(t[1..k], d)
    requires Items(t[k + 1..]) && Args(t[k + 1..]) == [] && AtEnd(r)
    ensures PExec(t + r) == Parsed(Wrapped(d, t[k + 1..]), r)
    decreases |t|, 0
  {
    hide PLine, IsLine, PRedirs, Items, Args, Wrapped;
    LineComplete(t[1..k], d, t[k..] + r);
    TailHead(t, k, r);
    assert (t + r)[1..] == t[1..k] + (t[k..] + r);
    RedirsComplete(d, t[k + 1..], r);
  }

  lemma {:induction false} ExecComplete(t: seq<Token>, c: Cmd, r: seq<Token>)
    requires IsExec(t, c) && AtEnd(r)
    ensures PExec(t + r) == Parsed(c, r)
    decreases |t|, 1
  {
    hide PExec, PRedirs, PArgs;
    if Items(t) && |Args(t)| < MAXARGS && c == Wrapped(Exec(Args(t)), t) {
      assert [] + t == t;
      ItemsComplete([], t, r);
      NoBlock(t + r);
    } else {
      var k, d :| 1 <= k < |t| && t[0].kind == '(' && t[k].kind == ')' && IsLine(t[1..k], d)
                  && Items(t[k + 1..]) && Args(t[k + 1..]) == [] && c == Wrapped(d, t[k + 1..]);
      BlockComplete(t, k, d, r);
    }
  }

  lemma {:induction false} PipeComplete(t: seq<Token>, c: Cmd, r: seq<Token>)
    requires IsPipe(t, c) && (r == [] || Head(r) == ')' || Head(r) == '&' || Head(r) == ';')
    ensures PPipe(t + r) == Parsed(c, r)
    decreases |t|, 2
  {
    hide IsExec, PExec;
    if IsExec(t, c) {
      ExecComplete(t, c, r);
    } else {
      var k, d, e :| 0 <= k < |t| && t[k].kind == '|' && IsExec(t[..k], d) && IsPipe(t[k + 1..], e) && c == Pipe(d, e);
      TailHead(t, k, r);
      ExecComplete(t[..k], d, t[k..] + r);
      PipeComplete(t[k + 1..], e, r);
    }
  }

  lemma AndsHead(t: seq<Token>, k: nat, j: nat, r: seq<Token>)
    requires k <= j <= |t| && Ands(t[k..j])
    ensures t[k..] + r == t[k..j] + (t[j..] + r)
    ensures k < j ==> Head(t[k..] + r) == '&'
  {
    if k < j { assert t[k..j][0] == t[k]; }
  }

  /** The first part of a line, and what the parser has left of it at the end of that. */
  lemma BackedComplete(t: seq<Token>, k: nat, j: nat, d: Cmd, r: seq<Token>)
    requires k <= j <= |t| && IsPipe(t[..k], d) && Ands(t[k..j])
    requires t[j..] + r == [] || Head(t[j..] + r) == ')' || Head(t[j..] + r) == ';'
    ensures PPipe(t + r) == Parsed(d, t[k..] + r) && PBacks(d, t[k..] + r) == Parsed(Backs(j - k, d), t[j..] + r)
    decreases |t|, 3
  {
    hide IsPipe, PPipe, Ands, PBacks;
    TailHead(t, k, r);
    AndsHead(t, k, j, r);
    if k == j { assert t[k..] + r == t[j..] + r; }
    PipeComplete(t[..k], d, t[k..] + r);
    BacksComplete(d, t[k..j], t[j..] + r);
  }

  lemma {:induction false} LineComplete(t: seq<Token>, c: Cmd, r: seq<Token>)
    requires IsLine(t, c) && (r == [] || Head(r) == ')')
    ensures PLine(t + r) == Parsed(c, r)
    decreases |t|, 4
  {
    hide IsPipe, PPipe, Ands, PBacks, Backs;
    if k, d :| 0 <= k <= |t| && IsPipe(t[..k], d) && Ands(t[k..]) && c == Backs(|t| - k, d) {
      TailHead(t, |t|, r);
      assert t[k..] == t[k..|t|];
      BackedComplete(t, k, |t|, d, r);
    } else {
      var k, j, d, e :| 0 <= k <= j < |t| && IsPipe(t[..k], d) && Ands(t[k..j]) && t[j].kind == ';'
          && IsLine(t[j + 1..], e)
                        && c == List(Backs(j - k, d), e);
      TailHead(t, j, r);
      BackedComplete(t, k, j, d, r);
      LineComplete(t[j + 1..], e, r);
    }
  }

  /** The parser gives the command c exactly when the grammar does; otherwise it panics. */
  lemma ParsesTheGrammar(t: seq<Token>, c: Cmd)
    ensures PCmd(t) == Some(c) <==> IsLine(t, c)
  {
    if PCmd(t) == Some(c) {
      LineSound(t);
      assert Front(t, []) == t;
    }
    if IsLine(t, c) {
      LineComplete(t, c, []);
      assert t + [] == t;
    }
  }

  // ---------- no word is lost ----------

  /** The words of a command, arguments and files. */
  function Words(c: Cmd): seq<Slice> {
    match c
    case Exec(args) => args
    case Redir(d, file, _, _) => Words(d) + [file]
    case Pipe(d, e) => Words(d) + Words(e)
    case List(d, e) => Words(d) + Words(e)
    case Back(d) => Words(d)
  }

  function WordOf(x: Token): seq<Slice> { if x.kind == WORD then [x.at] else [] }

  function WordsOf(t: seq<Token>): seq<Slice> {
    if t == [] then [] else WordOf(t[0]) + WordsOf(t[1..])
  }

  lemma FirstWord(t: seq<Token>)
    requires t != []
    ensures WordsOf(t) == WordOf(t[0]) + WordsOf(t[1..])
  {
  }

  lemma {:induction false} WordsJoin(t: seq<Token>, u: seq<Token>)
    ensures WordsOf(t + u) == WordsOf(t) + WordsOf(u)
    decreases |t|
  {
    hide WordOf, WordsOf;
    NoWords();
    if t == [] {
      assert t + u == u;
    } else {
      WordsJoin(t[1..], u);
      FirstWord(t);
      FirstWord(t + u);
      assert (t + u)[1..] == t[1..] + u;
    }
  }

  lemma NoWords()
    ensures WordsOf([]) == []
  {
  }

  lemma WordsSplit(t: seq<Token>, k: nat)
    requires k <= |t|
    ensures WordsOf(t) == WordsOf(t[..k]) + WordsOf(t[k..])
    ensures k < |t| && t[k].kind != WORD ==> WordsOf(t[k..]) == WordsOf(t[k + 1..])
  {
    WordsJoin(t[..k], t[k..]);
    assert t[..k] + t[k..] == t;
    if k < |t| { assert t[k..][1..] == t[k + 1..]; }
  }

  lemma Adds(s: seq<Slice>, t: seq<Slice>)
    ensures multiset(s + t) == multiset(s) + multiset(t)
  {
  }

  lemma Regroup(a: multiset<Slice>, b: multiset<Slice>, c: multiset<Slice>)
    ensures (a + b) + c == a + (b + c) == b + (a + c)
  {
  }

  /** The files of the redirections among items. */
  function Files(t: seq<Token>): seq<Slice> {
    if t == [] then []
    else if RedirOp(t[0].kind) then (if |t| > 1 then [t[1].at] + Files(t[2..]) else [])
    else Files(t[1..])
  }

  lemma {:induction false} WrappedWords(c: Cmd, u: seq<Token>)
    ensures Words(Wrapped(c, u)) == Words(c) + Files(u)
    decreases |u|
  {
    if u != [] {
      if RedirOp(u[0].kind) {
        if |u| > 1 { WrappedWords(Redirected(c, u[0].kind, u[1].at), u[2..]); }
      } else {
        WrappedWords(c, u[1..]);
      }
    }
  }

  lemma {:induction false} ItemsWords(u: seq<Token>)
    requires Items(u)
    ensures multiset(WordsOf(u)) == multiset(Args(u)) + multiset(Files(u))
    decreases |u|
  {
    if u != [] {
      if u[0].kind == WORD {
        var w := [u[0].at];
        ItemsWords(u[1..]);
        Adds(w, Args(u[1..]));
        Adds(w, WordsOf(u[1..]));
        Regroup(multiset(w), multiset(Args(u[1..])), multiset(Files(u[1..])));
      } else {
        var w := [u[1].at];
        ItemsWords(u[2..]);
        assert u[1..][0] == u[1] && u[1..][1..] == u[2..];
        assert WordsOf(u) == w + WordsOf(u[2..]);
        Adds(w, WordsOf(u[2..]));
        Adds(w, Files(u[2..]));
        Regroup(multiset(w), multiset(Args(u[2..])), multiset(Files(u[2..])));
      }
    }
  }

  lemma {:induction false} AndsWords(t: seq<Token>)
    requires Ands(t)
    ensures WordsOf(t) == []
  {
    if t != [] { AndsWords(t[1..]); }
  }

  lemma {:induction false} BacksWords(n: nat, c: Cmd)
    ensures Words(Backs(n, c)) == Words(c)
  {
    if n > 0 { BacksWords(n - 1, Back(c)); }
  }

  lemma {:induction false} ExecWords(t: seq<Token>, c: Cmd)
    requires IsExec(t, c)
    ensures multiset(Words(c)) == multiset(WordsOf(t))
    decreases |t|, 1
  {
    hide IsLine, Items, Wrapped, Files, WordsOf;
    if Items(t) && |Args(t)| < MAXARGS && c == Wrapped(Exec(Args(t)), t) {
      WrappedWords(Exec(Args(t)), t);
      ItemsWords(t);
      Adds(Args(t), Files(t));
    } else {
      var k, d :| 1 <= k < |t| && t[0].kind == '(' && t[k].kind == ')' && IsLine(t[1..k], d)
                  && Items(t[k + 1..]) && Args(t[k + 1..]) == [] && c == Wrapped(d, t[k + 1..]);
      BlockWords(t, k, d);
    }
  }

  lemma BlockWords(t: seq<Token>, k: nat, d: Cmd)
    requires 1 <= k < |t| && t[0].kind == '(' && t[k].kind == ')' && IsLine(t[1..k], d)
    requires Items(t[k + 1..]) && Args(t[k + 1..]) == []
    ensures multiset(Words(Wrapped(d, t[k + 1..]))) == multiset(WordsOf(t))
    decreases |t|, 0
  {
    hide IsLine, Items, Args, Files, Wrapped, Words, WordsOf;
    LineWords(t[1..k], d);
    WrappedWords(d, t[k + 1..]);
    ItemsWords(t[k + 1..]);
    Adds(Words(d), Files(t[k + 1..]));
    WordsSplit(t, k);
    WordsSplit(t[..k], 0);
    assert t[..k][0..] == t[..k] && t[..k][0 + 1..] == t[1..k];
    Adds(WordsOf(t[1..k]), WordsOf(t[k + 1..]));
  }

  lemma {:induction false} PipeWords(t: seq<Token>, c: Cmd)
    requires IsPipe(t, c)
    ensures multiset(Words(c)) == multiset(WordsOf(t))
    decreases |t|, 2, 0
  {
    hide IsExec, WordsOf;
    if IsExec(t, c) {
      ExecWords(t, c);
    } else {
      var k, d, e :| 0 <= k < |t| && t[k].kind == '|' && IsExec(t[..k], d) && IsPipe(t[k + 1..], e) && c == Pipe(d, e);
      ExecWords(t[..k], d);
      PipeWords(t[k + 1..], e);
      WordsSplit(t, k);
      Adds(Words(d), Words(e));
      Adds(WordsOf(t[..k]), WordsOf(t[k + 1..]));
    }
  }

  /** Each word of a line is in its command once, as an argument or as a file, and nothing else is. */
  lemma {:induction false} LineWords(t: seq<Token>, c: Cmd)
    requires IsLine(t, c)
    ensures multiset(Words(c)) == multiset(WordsOf(t))
    decreases |t|, 3
  {
    hide IsPipe, Ands, Backs, WordsOf;
    if k, d :| 0 <= k <= |t| && IsPipe(t[..k], d) && Ands(t[k..]) && c == Backs(|t| - k, d) {
      assert t[k..] == t[k..|t|] && t[..|t|] == t;
      BackedWords(t, k, |t|, d);
    } else {
      var k, j, d, e :| 0 <= k <= j < |t| && IsPipe(t[..k], d) && Ands(t[k..j]) && t[j].kind == ';'
          && IsLine(t[j + 1..], e)
                        && c == List(Backs(j - k, d), e);
      BackedWords(t, k, j, d);
      LineWords(t[j + 1..], e);
      WordsSplit(t, j);
      Adds(Words(Backs(j - k, d)), Words(e));
      Adds(WordsOf(t[..j]), WordsOf(t[j + 1..]));
    }
  }

  lemma BackedWords(t: seq<Token>, k: nat, j: nat, d: Cmd)
    requires k <= j <= |t| && IsPipe(t[..k], d) && Ands(t[k..j])
    ensures multiset(Words(Backs(j - k, d))) == multiset(WordsOf(t[..j]))
    decreases |t|, 2, 1
  {
    hide IsPipe, Ands, Backs, Words, WordsOf;
    PipeWords(t[..k], d);
    AndsWords(t[k..j]);
    BacksWords(j - k, d);
    WordsSplit(t[..j], k);
    assert t[..j][..k] == t[..k] && t[..j][k..] == t[k..j];
  }
}
