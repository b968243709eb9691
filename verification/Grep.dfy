/**
 The matcher and the line buffering of grep (grep.c).  A C string is the sequence of
 the characters before its NUL.
 */
module Grep {
  // ---------- patterns as languages ----------

  /** A character or any number of it; '.' is any character. */
  datatype Item = One(c: char) | Star(c: char)

  datatype Pattern = Pattern(items: seq<Item>, end: bool)

  /** How the code takes a pattern apart: a star binds what is before it, and $ is an anchor only at the end. */
  function Parse(re: string): Pattern {
    if re == "" then Pattern([], false)
    else if |re| > 1 && re[1] == '*' then Prefixed(Star(re[0]), Parse(re[2..]))
    else if re == "$" then Pattern([], true)
    else Prefixed(One(re[0]), Parse(re[1..]))
  }

  function Prefixed(x: Item, p: Pattern): Pattern { Pattern([x] + p.items, p.end) }

  function SpellItem(x: Item): (s: string)
    ensures s != "" && s[0] == x.c
  {
    match x
    case One(c) => [c]
    case Star(c) => [c, '*']
  }

  /** How a pattern is written. */
  function Spell(p: Pattern): string
    decreases |p.items|
  {
    if p.items == [] then (if p.end then "$" else "")
    else SpellItem(p.items[0]) + Spell(Pattern(p.items[1..], p.end))
  }

  /** No character stands alone that a star after it would bind, and none is a $ at the end. */
  predicate Proper(p: Pattern)
    decreases |p.items|
  {
    p.items == [] ||
    var rest := Pattern(p.items[1..], p.end);
    && (p.items[0].One? ==> (rest.items != [] ==> rest.items[0].c != '*')
                            && (rest == Pattern([], false) ==> p.items[0].c != '$'))
    && Proper(rest)
  }

  /** The pattern that is parsed is the one, of all proper ones, that is written so. */
  lemma {:induction false} ParseSpells(re: string)
    ensures Spell(Parse(re)) == re && Proper(Parse(re))
    decreases |re|
  {
    if re != "" && re != "$" {
      var n := if |re| > 1 && re[1] == '*' then 2 else 1;
      ParseSpells(re[n..]);
      var p := Parse(re);
      assert Pattern(p.items[1..], p.end) == Parse(re[n..]);
      assert re == re[..n] + re[n..];
      if n == 1 { SpelledFirst(Parse(re[1..])); }
    }
  }

  lemma SpelledFirst(p: Pattern)
    ensures if p.items != [] then Spell(p) != "" && Spell(p)[0] == p.items[0].c
            else Spell(p) == if p.end then "$" else ""
  {
  }

  lemma {:induction false} SpellingParses(p: Pattern)
    requires Proper(p)
    ensures Parse(Spell(p)) == p
    decreases |p.items|
  {
    if p.items != [] {
      var x, rest := p.items[0], Pattern(p.items[1..], p.end);
      SpellingParses(rest);
      SpelledFirst(rest);
      var re := Spell(p);
      assert re == SpellItem(x) + Spell(rest);
      assert re[|SpellItem(x)|..] == Spell(rest);
      assert p.items == [x] + rest.items;
    }
  }

  predicate Fits(c: char, x: char) { c == '.' || c == x }

  /** The strings of an item. */
  predicate InItem(x: Item, s: string) {
    match x
    case One(c) => |s| == 1 && Fits(c, s[0])
    case Star(c) => forall i :: 0 <= i < |s| ==> Fits(c, s[i])
  }

  /** The strings made of one string of each item in turn. */
  ghost predicate InLanguage(items: seq<Item>, s: string)
    decreases |items|
  {
    if items == [] then s == []
    else exists k {:trigger s[..k]} :: 0 <= k <= |s| && InItem(items[0], s[..k]) && InLanguage(items[1..], s[k..])
  }

  /** Some prefix of the text, all of it if the pattern ends with an anchor, is in the language. */
  ghost predicate MatchesHere(p: Pattern, text: string) {
    exists n {:trigger text[..n]} :: 0 <= n <= |text| && (p.end ==> n == |text|) && InLanguage(p.items, text[..n])
  }

  ghost predicate Matches(re: string, text: string) {
    if re != "" && re[0] == '^' then MatchesHere(Parse(re[1..]), text)
    else exists i {:trigger text[i..]} :: 0 <= i <= |text| && MatchesHere(Parse(re), text[i..])
  }

  /** To match an item and then a pattern is to match the item on a prefix and the pattern on what is left. */
  lemma ItemFirst(x: Item, p: Pattern, text: string)
    ensures MatchesHere(Prefixed(x, p), text) <==>
              exists k {:trigger text[..k]} :: 0 <= k <= |text| && InItem(x, text[..k]) && MatchesHere(p, text[k..])
  {
    var q := Prefixed(x, p);
    assert q.items[1..] == p.items;
    if MatchesHere(q, text) {
      var n :| 0 <= n <= |text| && (p.end ==> n == |text|) && InLanguage(q.items, text[..n]);
      var s := text[..n];
      var k :| 0 <= k <= |s| && InItem(x, s[..k]) && InLanguage(p.items, s[k..]);
      assert s[..k] == text[..k] && s[k..] == text[k..][..n - k];
      assert MatchesHere(p, text[k..]);
    }
    if k :| 0 <= k <= |text| && InItem(x, text[..k]) && MatchesHere(p, text[k..]) {
      var rest := text[k..];
      var n :| 0 <= n <= |rest| && (p.end ==> n == |rest|) && InLanguage(p.items, rest[..n]);
      var s := text[..k + n];
      assert s[..k] == text[..k] && s[k..] == rest[..n];
      assert InLanguage(q.items, s);
    }
  }

  // ---------- the matcher ----------

  /** matchhere() */
  method MatchHere(re: string, text: string) returns (r: bool)
    ensures r <==> MatchesHere(Parse(re), text)
    decreases |re|, 0
  {
    hide MatchesHere;
    if re == "" {
      Nothing(Pattern([], false), text);
      return true;
    }
    if |re| > 1 && re[1] == '*' {
      ItemFirst(Star(re[0]), Parse(re[2..]), text);
      r := MatchStar(re[0], re[2..], text);
      return;
    }
    if re[0] == '$' && |re| == 1 {
      Nothing(Pattern([], true), text);
      return text == "";
    }
    ItemFirst(One(re[0]), Parse(re[1..]), text);
    if text != "" && (re[0] == '.' || re[0] == text[0]) {
      assert InItem(One(re[0]), text[..1]);
      r := MatchHere(re[1..], text[1..]);
      return;
    }
    return false;
  }

  lemma Nothing(p: Pattern, text: string)
    requires p.items == []
    ensures MatchesHere(p, text) <==> !p.end || text == ""
  {
    assert InLanguage(p.items, text[..0]);
  }

  /** matchstar() */
  method MatchStar(c: char, re: string, text: string) returns (r: bool)
    ensures r <==> exists k {:trigger text[..k]} ::
        0 <= k <= |text| && InItem(Star(c), text[..k]) && MatchesHere(Parse(re), text[k..])
    decreases |re|, 1
  {
    hide MatchesHere, Parse;
    var i := 0;
    while true
      invariant i <= |text| && forall j :: 0 <= j < i ==> Fits(c, text[j])
      invariant forall k {:trigger text[k..]} :: 0 <= k < i ==> !MatchesHere(Parse(re), text[k..])
      decreases |text| - i
    {
      var here := MatchHere(re, text[i..]);
      if here {
        assert InItem(Star(c), text[..i]);
        return true;
      }
      if i == |text| || !(text[i] == c || c == '.') {
        forall k | i < k <= |text| ensures !InItem(Star(c), text[..k]) { assert text[..k][i] == text[i]; }
        return false;
      }
      i := i + 1;
    }
  }

  /** match() */
  method Match(re: string, text: string) returns (r: bool)
    ensures r <==> Matches(re, text)
  {
    hide MatchesHere, Parse;
    if re != "" && re[0] == '^' {
      r := MatchHere(re[1..], text);
      return;
    }
    var i := 0;
    while true
      invariant i <= |text|
      invariant forall k {:trigger text[k..]} :: 0 <= k < i ==> !MatchesHere(Parse(re), text[k..])
      decreases |text| - i
    {
      var here := MatchHere(re, text[i..]);
      if here { return true; }
      if i == |text| { return false; }
      i := i + 1;
    }
  }

  // ---------- the line buffering ----------

  const NUL: char := '\0'
  const NL: char := '\n'

  predicate Stops(x: char) { x == NL || x == NUL }

  /** strchr(): the first newline before the first NUL of s, |s| if there is none. */
  function LineEnd(s: string): (q: nat)
    ensures q <= |s| && (q < |s| ==> s[q] == NL && forall i :: 0 <= i < q ==> !Stops(s[i]))
    ensures q == |s| ==> forall i :: 0 <= i < |s| && s[i] == NL ==> exists j :: 0 <= j < i && s[j] == NUL
  {
    var k := FirstStop(s);
    if k < |s| && s[k] == NL then k else |s|
  }

  function FirstStop(s: string): (k: nat)
    ensures k <= |s| && (k < |s| ==> Stops(s[k])) && forall i :: 0 <= i < k ==> !Stops(s[i])
  {
    if s == "" || Stops(s[0]) then 0 else 1 + FirstStop(s[1..])
  }

  /**
   What grep prints of an input: its matching lines, up to the first that is not closed by a
   newline, or has a NUL in it, or has more than max characters with its newline.
   */
  ghost function Output(re: string, max: nat, s: string): string
    decreases |s|
  {
    var q := LineEnd(s);
    if q == |s| || q >= max then ""
    else (if Matches(re, s[..q]) then s[..q + 1] else "") + Output(re, max, s[q + 1..])
  }

  predicate IsLine(max: nat, line: string) { |line| < max && forall i :: 0 <= i < |line| ==> !Stops(line[i]) }

  function Joined(lines: seq<string>): string { if lines == [] then "" else lines[0] + [NL] + Joined(lines[1..]) }

  ghost function Selected(re: string, lines: seq<string>): seq<string> {
    if lines == [] then [] else (if Matches(re, lines[0]) then [lines[0]] else []) + Selected(re, lines[1..])
  }

  /** On lines that fit, with anything unclosed after them, the output is the lines that match. */
  lemma {:induction false} OutputIsSelected(re: string, max: nat, lines: seq<string>, tail: string)
    requires forall i :: 0 <= i < |lines| ==> IsLine(max, lines[i])
    requires LineEnd(tail) == |tail|
    ensures Output(re, max, Joined(lines) + tail) == Joined(Selected(re, lines))
  {
    hide Matches, LineEnd, FirstStop;
    if lines == [] {
      assert Joined(lines) + tail == tail;
    } else {
      var s, line := Joined(lines) + tail, lines[0];
      var more := Joined(lines[1..]) + tail;
      assert s == line + [NL] + more;
      LineFirst(max, line, more);
      assert s[..|line|] == line && s[..|line| + 1] == line + [NL] && s[|line| + 1..] == more;
      OutputIsSelected(re, max, lines[1..], tail);
      var rest := Selected(re, lines[1..]);
      if Matches(re, line) {
        assert Selected(re, lines) == [line] + rest && ([line] + rest)[1..] == rest;
      } else {
        assert Selected(re, lines) == rest;
      }
    }
  }

  lemma LineFirst(max: nat, line: string, more: string)
    requires IsLine(max, line)
    ensures LineEnd(line + [NL] + more) == |line|
  {
    var s := line + [NL] + more;
    assert s[|line|] == NL && forall i :: 0 <= i < |line| ==> s[i] == line[i];
    assert FirstStop(s) == |line|;
  }

  /** What is in the buffer decides about a line that ends in it. */
  lemma LineInBuffer(s: string, rest: string)
    requires LineEnd(s) < |s|
    ensures LineEnd(s + rest) == LineEnd(s)
  {
    var t, q, k := s + rest, LineEnd(s), FirstStop(s + rest);
    assert t[q] == NL && forall i :: 0 <= i < q ==> t[i] == s[i];
    assert k == q;
  }

  /** Nothing more is printed when no line ends in the buffer and it is full or the input is at its end. */
  lemma NoMore(re: string, max: nat, s: string, rest: string)
    requires LineEnd(s) == |s| && (rest == "" || |s| == max)
    ensures Output(re, max, s + rest) == ""
  {
    var t := s + rest;
    assert forall j :: 0 <= j < |s| ==> t[j] == s[j];
  }

  /** What a line that ends in the buffer adds to the output. */
  lemma LinePrinted(re: string, max: nat, s: string, rest: string)
    requires LineEnd(s) < |s| <= max
    ensures var q := LineEnd(s);
            Output(re, max, s + rest) ==
            (if Matches(re, s[..q]) then s[..q + 1] else "") + Output(re, max, s[q + 1..] + rest)
  {
    hide Matches, LineEnd, FirstStop;
    var q, t := LineEnd(s), s + rest;
    LineInBuffer(s, rest);
    assert t[..q] == s[..q] && t[..q + 1] == s[..q + 1] && t[q + 1..] == s[q + 1..] + rest;
  }

  lemma Taken(was: string, rest: string, n: nat)
    requires n <= |rest|
    ensures was + rest == was + rest[..n] + rest[n..]
  {
  }

  /** read(): some of what is left, at least one character if there is one and room for it. */
  method Read(buf: array<char>, m: nat, rest: string) returns (n: nat)
    requires m < buf.Length
    modifies buf
    ensures m + n < buf.Length && n <= |rest| && (n == 0 <==> rest == "" || m + 1 == buf.Length)
    ensures buf[..m] == old(buf[..m]) && buf[m..m + n] == rest[..n]
  {
    var room := buf.Length - m - 1;
    if rest == "" || room == 0 { return 0; }
    n :| 1 <= n <= room && n <= |rest|;
    for i := 0 to n
      invariant buf[..m] == old(buf[..m]) && buf[m..m + i] == rest[..i]
    {
      buf[m + i] := rest[i];
    }
  }

  /** strchr(p, '\n') in the buffer, which holds m characters and a NUL. */
  method FindLine(buf: array<char>, p: nat, m: nat) returns (q: nat, found: bool)
    requires p <= m < buf.Length && buf[m] == NUL
    ensures p <= q <= m && (found <==> q < m && LineEnd(buf[p..m]) == q - p)
        && (!found <==> LineEnd(buf[p..m]) == m - p)
  {
    q := p;
    while buf[q] != NL && buf[q] != NUL
      invariant p <= q <= m && forall i :: p <= i < q ==> !Stops(buf[i])
      decreases m - q
    {
      q := q + 1;
    }
    found := buf[q] == NL;
    assert FirstStop(buf[p..m]) == q - p;
  }

  /** memmove() to the front of the buffer. */
  method MoveDown(buf: array<char>, p: nat, m: nat)
    requires p + m <= buf.Length
    modifies buf
    ensures buf[..m] == old(buf[p..p + m])
  {
    for i := 0 to m
      invariant forall k :: 0 <= k < i ==> buf[k] == old(buf[p + k])
      invariant forall k :: i <= k < buf.Length ==> buf[k] == old(buf[k])
    {
      buf[i] := buf[p + i];
    }
  }

  /** The C string that s starts with. */
  function CString(s: string): string {
    if s == "" || s[0] == NUL then "" else [s[0]] + CString(s[1..])
  }

  lemma {:induction false} CStringIs(s: string, q: nat)
    requires q < |s| && s[q] == NUL && forall i :: 0 <= i < q ==> s[i] != NUL
    ensures CString(s) == s[..q]
  {
    if q > 0 { CStringIs(s[1..], q - 1); }
  }

  lemma LineString(was: string, p: nat, q: nat, m: nat)
    requires p <= q < m < |was| && LineEnd(was[p..m]) == q - p
    ensures was[q] == NL && CString(was[q := NUL][p..]) == was[p..q] == was[p..m][..q - p]
    ensures was[p..q + 1] == was[p..m][..q - p + 1] && was[q + 1..m] == was[p..m][q - p + 1..]
  {
    var s, now := was[p..m], was[q := NUL][p..];
    assert s[q - p] == was[q];
    forall i | 0 <= i < q - p ensures now[i] != NUL { assert now[i] == s[i]; }
    CStringIs(now, q - p);
    assert now[..q - p] == was[p..q];
  }

  /** One line of it: *q is 0 for the match and a newline again for the output. */
  method PrintLine(re: string, buf: array<char>, p: nat, q: nat, m: nat) returns (out: string)
    requires p <= q < m < buf.Length && LineEnd(buf[p..m]) == q - p
    modifies buf
    ensures var s := old(buf[p..m]); out == if Matches(re, s[..q - p]) then s[..q - p + 1] else ""
    ensures buf[q + 1..m] == old(buf[p..m])[q - p + 1..] && buf[m] == old(buf[m])
  {
    hide Matches, FirstStop, LineEnd, CString;
    out := "";
    ghost var was := buf[..];
    assert was[p..m] == buf[p..m];
    LineString(was, p, q, m);
    buf[q] := NUL;
    assert buf[..] == was[q := NUL] && buf[p..] == buf[..][p..];
    var hit := Match(re, CString(buf[p..]));
    if hit {
      buf[q] := NL;
      assert buf[..] == was;
      out := buf[p..q + 1];
      assert out == buf[..][p..q + 1];
    }
    assert buf[q + 1..m] == buf[..][q + 1..m] == was[q + 1..m];
  }

  /** One pass of the inner loop: the lines that end in the buffer are printed; p is where what is left of it starts. */
  method PrintLines(re: string, buf: array<char>, m: nat, ghost rest: string) returns (out: string, p: nat)
    requires m < buf.Length && buf[m] == NUL
    modifies buf
    ensures p <= m && LineEnd(buf[p..m]) == m - p
    ensures out + Output(re, buf.Length - 1, buf[p..m] + rest) == Output(re, buf.Length - 1, old(buf[..m]) + rest)
  {
    hide Matches, LineEnd, Output;
    p, out := 0, "";
    ghost var max := buf.Length - 1;
    assert buf[0..m] == buf[..m];
    while true
      invariant p <= m && buf[m] == NUL
      invariant out + Output(re, max, buf[p..m] + rest) == Output(re, max, old(buf[..m]) + rest)
      decreases m - p
    {
      var q, found := FindLine(buf, p, m);
      if !found { break; }
      LinePrinted(re, max, buf[p..m], rest);
      var line := PrintLine(re, buf, p, q, m);
      out := out + line;
      p := q + 1;
    }
  }

  /**
   grep(), reading an input through the buffer: however the reads cut the input up, what is
   printed is the same.
   */
  method GrepInput(re: string, buf: array<char>, input: string) returns (out: string)
    requires 0 < buf.Length
    modifies buf
    ensures out == Output(re, buf.Length - 1, input)
  {
    hide Matches, LineEnd, Output;
    var rest, m: nat := input, 0;
    out := "";
    ghost var max := buf.Length - 1;
    assert buf[..0] + input == input;
    while true
      invariant m < buf.Length && LineEnd(buf[..m]) == m
      invariant out + Output(re, max, buf[..m] + rest) == Output(re, max, input)
      decreases |rest|
    {
      ghost var was := buf[..m];
      var n := Read(buf, m, rest);
      if n == 0 {
        NoMore(re, max, was, rest);
        break;
      }
      Taken(was, rest, n);
      assert buf[..m + n] == buf[..m] + buf[m..m + n];
      rest, m := rest[n..], m + n;
      buf[m] := NUL;
      var more, p := PrintLines(re, buf, m, rest);
      out := out + more;
      m := m - p;
      MoveDown(buf, p, m);
    }
  }
}
