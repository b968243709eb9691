/**
 The shell's parser over the line buffer (sh.c): a shared cursor, recursive descent,
 and NULs written over the ends of the words at last.
 */
module ShellParser {
  import opened Common
  import opened ShellLexer
  import opened ShellGrammar

  /** strlen() */
  function StrLen(b: string): (n: nat)
    ensures n <= |b| && NoNul(b[..n]) && (n < |b| ==> b[n] == NUL)
  {
    if b == "" || b[0] == NUL then 0 else
      var n := 1 + StrLen(b[1..]);
      assert b[..n] == [b[0]] + b[1..][..n - 1];
      n
  }

  /** The string that a pointer to place q points to. */
  function CString(b: string, q: nat): string
    requires q <= |b|
  {
    b[q..][..StrLen(b[q..])]
  }

  function Ends(c: Cmd): set<nat> { set w | w in Words(c) :: w.eq }

  /** b is a with NULs at the ends. */
  ghost predicate Terminated(a: string, ends: set<nat>, b: string) {
    |b| == |a| && forall i {:trigger b[i]} :: 0 <= i < |a| ==> b[i] == if i in ends then NUL else a[i]
  }

  /** A method's answer to what the parser does with tokens: no command if it panics. */
  predicate Answers(p: Parsed, r: Option<Cmd>, t: seq<Token>) {
    if p.Panic? then r.None? else r == Some(p.cmd) && t == p.rest
  }

  class Parser {
    const buf: array<char>
    const es: nat
    /** The cursor, *ps. */
    var ps: nat

    ghost predicate Valid()
      reads this, buf
    {
      es < buf.Length && buf[es] == NUL && NoNul(buf[..es]) && ps <= es
    }

    /** The tokens still to come. */
    ghost function Toks(): seq<Token>
      requires Valid()
      reads this, buf
    {
      Lex(buf[..es], ps)
    }

    constructor (buf: array<char>, es: nat)
      requires es < buf.Length && buf[es] == NUL && NoNul(buf[..es])
      ensures Valid() && this.buf == buf && this.es == es && Toks() == Lex(buf[..es], 0)
    {
      this.buf, this.es, ps := buf, es, 0;
    }

    method SkipWhite(from: nat) returns (s: nat)
      requires Valid() && from <= es
      ensures s == Skip(buf[..es], from)
    {
      s := from;
      while s < es && White(buf[s])
        invariant from <= s <= es && Skip(buf[..es], s) == Skip(buf[..es], from)
      {
        s := s + 1;
      }
    }

    /** peek() */
    method Peek(toks: string) returns (r: bool)
      requires Valid() && forall x :: x in toks ==> Symbol(x)
      modifies this`ps
      ensures Valid() && Toks() == old(Toks()) && (ps == es <==> Toks() == [])
      ensures r <==> Toks() != [] && Head(Toks()) in toks
    {
      ghost var s := buf[..es];
      ps := SkipWhite(ps);
      SkipLex(s, old(ps));
      assert Skip(s, ps) == ps;
      r := buf[ps] != NUL && buf[ps] in toks;
    }

    /** gettoken() */
    method GetToken() returns (kind: char, q: nat, eq: nat)
      requires Valid()
      modifies this`ps
      ensures Valid()
      ensures var t := old(Toks());
              if t == [] then kind == NUL && Toks() == []
                  else kind != NUL && t[0] == Token(kind, Slice(q, eq)) && Toks() == t[1..]
    {
      hide Lex, Skip, WordEnd;
      ghost var line := buf[..es];
      LexStep(line, ps);
      SkipLex(line, ps);
      var s := SkipWhite(ps);
      q, kind := s, buf[s];
      if kind != NUL {
        assert s < es;
        if Symbol(kind) {
          s := s + 1;
          if kind == '>' && buf[s] == '>' {
            kind := MORE;
            s := s + 1;
          }
        } else {
          kind := WORD;
          while s < es && !White(buf[s]) && !Symbol(buf[s])
            invariant ps == old(ps) && q <= s <= es && WordEnd(line, s) == WordEnd(line, q)
          {
            WordStep(line, s);
            s := s + 1;
          }
          WordStep(line, s);
        }
        assert TokenAt(line, q) == Token(kind, Slice(q, s));
      }
      eq := s;
      SkipLex(line, eq);
      ps := SkipWhite(s);
    }

    /** parseredirs() */
    method ParseRedirs(cmd: Cmd) returns (r: Option<Cmd>)
      requires Valid()
      modifies this`ps
      ensures Valid() && Answers(PRedirs(cmd, old(Toks())), r, Toks())
    {
      hide Lex;
      var c := cmd;
      while true
        invariant Valid() && PRedirs(c, Toks()) == PRedirs(cmd, old(Toks()))
        decreases |Toks()|
      {
        var more := Peek("<>");
        if !more { return Some(c); }
        var tok, _, _ := GetToken();
        var kind, q, eq := GetToken();
        if kind != WORD { return None; }
        c := Redirected(c, tok, Slice(q, eq));
      }
    }

    /** parseblock() */
    method ParseBlock() returns (r: Option<Cmd>)
      requires Valid()
      modifies this`ps
      ensures Valid() && Answers(PBlock(old(Toks())), r, Toks())
      decreases |Toks()|, 0
    {
      hide Lex;
      var open := Peek("(");
      if !open { return None; }
      var _, _, _ := GetToken();
      r := ParseLine();
      if r.None? { return; }
      var close := Peek(")");
      if !close { return None; }
      var _, _, _ := GetToken();
      r := ParseRedirs(r.value);
    }

    /** parseexec() */
    method ParseExec() returns (r: Option<Cmd>)
      requires Valid()
      modifies this`ps
      ensures Valid() && Answers(PExec(old(Toks())), r, Toks())
      decreases |Toks()|, 1
    {
      hide Lex;
      var open := Peek("(");
      if open {
        r := ParseBlock();
        return;
      }
      var argc: nat := 0;
      r := ParseRedirs(Exec([]));
      if r.None? { return; }
      while true
        invariant Valid() && r.Some? && PArgs(r.value, argc, Toks()) == PExec(old(Toks()))
        decreases |Toks()|
      {
        var end := Peek("|)&;");
        if end { return; }
        var tok, q, eq := GetToken();
        if tok == NUL { return; }
        if tok != WORD { return None; }
        var cmd := AddArg(r.value, Slice(q, eq));
        argc := argc + 1;
        if argc >= MAXARGS { return None; }
        r := ParseRedirs(cmd);
        if r.None? { return; }
      }
    }

    /** parsepipe() */
    method ParsePipe() returns (r: Option<Cmd>)
      requires Valid()
      modifies this`ps
      ensures Valid() && Answers(PPipe(old(Toks())), r, Toks())
      decreases |Toks()|, 2
    {
      hide Lex;
      r := ParseExec();
      if r.None? { return; }
      var bar := Peek("|");
      if bar {
        var _, _, _ := GetToken();
        var right := ParsePipe();
        r := if right.None? then None else Some(Pipe(r.value, right.value));
      }
    }

    /** parseline() */
    method ParseLine() returns (r: Option<Cmd>)
      requires Valid()
      modifies this`ps
      ensures Valid() && Answers(PLine(old(Toks())), r, Toks())
      decreases |Toks()|, 3
    {
      hide Lex;
      r := ParsePipe();
      if r.None? { return; }
      var cmd := r.value;
      ghost var t := PPipe(old(Toks()));
      while true
        invariant Valid() && PBacks(cmd, Toks()) == PBacks(t.cmd, t.rest) && |Toks()| <= |t.rest|
        decreases |Toks()|
      {
        var and := Peek("&");
        if !and { break; }
        var _, _, _ := GetToken();
        cmd := Back(cmd);
      }
      r := Some(cmd);
      var semi := Peek(";");
      if semi {
        var _, _, _ := GetToken();
        var right := ParseLine();
        r := if right.None? then None else Some(List(cmd, right.value));
      }
    }

    /** nulterminate() */
    method NulTerminate(c: Cmd)
      requires forall w :: w in Words(c) ==> w.eq < buf.Length
      modifies buf
      ensures Terminated(old(buf[..]), Ends(c), buf[..])
      decreases c
    {
      match c {
        case Exec(args) =>
          var i := 0;
          while i < |args|
            invariant i <= |args| && Terminated(old(buf[..]), Ends(Exec(args[..i])), buf[..])
          {
            assert args[..i + 1] == args[..i] + [args[i]];
            buf[args[i].eq] := NUL;
            i := i + 1;
          }
          assert args[..i] == args;
        case Redir(d, file, _, _) =>
          NulTerminate(d);
          buf[file.eq] := NUL;
        case Pipe(d, e) =>
          NulTerminate(d);
          NulTerminate(e);
        case List(d, e) =>
          NulTerminate(d);
          NulTerminate(e);
        case Back(d) =>
          NulTerminate(d);
      }
    }
  }

  /** The words of a parsed command are words of the line. */
  lemma CommandWords(s: string, c: Cmd)
    requires NoNul(s) && PCmd(Lex(s, 0)) == Some(c)
    ensures forall w {:trigger w in Words(c)} :: w in Words(c) <==> IsWord(s, w)
    ensures multiset(Words(c)) == multiset(WordsOf(Lex(s, 0)))
  {
    var t := Lex(s, 0);
    ParsesTheGrammar(t, c);
    LineWords(t, c);
    forall w ensures w in Words(c) <==> IsWord(s, w) {
      LexWords(s, 0, w);
      InWordsOf(t, w);
      assert w in Words(c) <==> w in multiset(Words(c));
      assert w in WordsOf(t) <==> w in multiset(WordsOf(t));
    }
  }

  lemma {:induction false} InWordsOf(t: seq<Token>, w: Slice)
    ensures w in WordsOf(t) <==> Token(WORD, w) in t
  {
    if t != [] {
      InWordsOf(t[1..], w);
      assert t == [t[0]] + t[1..];
    }
  }

  /** No end falls inside a word, so each word is left as it was, with a NUL after it. */
  lemma WordsIntact(a: string, s: string, c: Cmd, b: string, w: Slice)
    requires NoNul(s) && PCmd(Lex(s, 0)) == Some(c)
    requires |s| < |a| && a[..|s|] == s && Terminated(a, Ends(c), b) && w in Words(c)
    ensures w.q <= w.eq <= |s| && CString(b, w.q) == s[w.q..w.eq]
  {
    hide Lex, PCmd;
    CommandWords(s, c);
    assert IsWord(s, w) && b[w.eq] == NUL;
    forall v | v in Words(c) ensures v.eq == |s| || (v.eq < |s| && !Plain(s[v.eq])) {
      assert IsWord(s, v);
    }
    forall k | w.q <= k < w.eq ensures b[k] == s[k] && b[k] != NUL {
      assert Plain(s[k]) && a[..|s|][k] == s[k];
    }
    LengthIs(b[w.q..], w.eq - w.q);
  }

  lemma LengthIs(b: string, n: nat)
    requires n < |b| && b[n] == NUL && forall i :: 0 <= i < n ==> b[i] != NUL
    ensures StrLen(b) == n
  {
  }

  /**
   parsecmd().  The parser ends on every line, with the command that the grammar gives the line
   or with a panic; if there is a command, each of its words, read as a C string, is the word
   in the line.
   */
  method ParseCmd(buf: array<char>) returns (r: Option<Cmd>)
    requires NUL in buf[..]
    modifies buf
    ensures var s := old(buf[..StrLen(buf[..])]);
            && r == PCmd(Lex(s, 0)) && (forall c :: r == Some(c) <==> IsLine(Lex(s, 0), c))
            && if r.None? then buf[..] == old(buf[..]) else
                && Terminated(old(buf[..]), Ends(r.value), buf[..])
                && forall w {:trigger w in Words(r.value)} :: w in Words(r.value) ==>
                     w.q <= w.eq <= |s| && CString(buf[..], w.q) == s[w.q..w.eq]
  {
    hide Lex, IsLine, PLine, CString, Terminated, Words, Ends;
    var es: nat := 0;
    while buf[es] != NUL
      invariant es < buf.Length && es <= StrLen(buf[..])
      decreases buf.Length - es
    {
      es := es + 1;
    }
    ghost var a, s := buf[..], buf[..es];
    var p := new Parser(buf, es);
    r := p.ParseLine();
    forall c ensures PCmd(Lex(s, 0)) == Some(c) <==> IsLine(Lex(s, 0), c) { ParsesTheGrammar(Lex(s, 0), c); }
    if r.None? { return; }
    var _ := p.Peek("");
    if p.ps != p.es { return None; }
    forall w | w in Words(r.value) ensures w.eq < buf.Length { InLine(s, r.value, w); }
    p.NulTerminate(r.value);
    forall w | w in Words(r.value) ensures w.q <= w.eq <= |s| && CString(buf[..], w.q) == s[w.q..w.eq] {
      WordsIntact(a, s, r.value, buf[..], w);
    }
  }

  lemma InLine(s: string, c: Cmd, w: Slice)
    requires NoNul(s) && PCmd(Lex(s, 0)) == Some(c) && w in Words(c)
    ensures w.eq <= |s|
  {
    CommandWords(s, c);
  }
}
