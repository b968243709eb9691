/**
 The tokens of a command line (gettoken() and peek() in sh.c).  A line is the sequence
 of its characters before the NUL, and a place in it is an index.
 */
module ShellLexer {
  const NUL: char := '\0'
  const VT: char := 11 as char

  /** The kind of a word token, and of >> */
  const WORD: char := 'a'
  const MORE: char := '+'

  predicate White(x: char) { x == ' ' || x == '\t' || x == '\r' || x == '\n' || x == VT }

  predicate Symbol(x: char) { x == '<' || x == '|' || x == '>' || x == '&' || x == ';' || x == '(' || x == ')' }

  predicate Plain(x: char) { !White(x) && !Symbol(x) && x != NUL }

  /** A stretch of the line, from q up to eq. */
  datatype Slice = Slice(q: nat, eq: nat)

  datatype Token = Token(kind: char, at: Slice)

  predicate NoNul(s: string) { forall i :: 0 <= i < |s| ==> s[i] != NUL }

  /** The first place from i on that is not white. */
  function Skip(s: string, i: nat): (j: nat)
    requires i <= |s|
    ensures i <= j <= |s| && (forall k :: i <= k < j ==> White(s[k])) && (j < |s| ==> !White(s[j]))
    decreases |s| - i
  {
    if i < |s| && White(s[i]) then Skip(s, i + 1) else i
  }

  /** The first place from i on that is not in a word. */
  function WordEnd(s: string, i: nat): (j: nat)
    requires i <= |s|
    ensures i <= j <= |s| && (forall k :: i <= k < j ==> !White(s[k]) && !Symbol(s[k]))
        && (j < |s| ==> White(s[j]) || Symbol(s[j]))
    decreases |s| - i
  {
    if i < |s| && !White(s[i]) && !Symbol(s[i]) then WordEnd(s, i + 1) else i
  }

  /** The token that starts at i, which is not white. */
  function TokenAt(s: string, i: nat): (t: Token)
    requires i < |s| && !White(s[i])
    ensures t.at.q == i < t.at.eq <= |s|
  {
    if s[i] == '>' && i + 1 < |s| && s[i + 1] == '>' then Token(MORE, Slice(i, i + 2))
    else if Symbol(s[i]) then Token(s[i], Slice(i, i + 1))
    else Token(WORD, Slice(i, WordEnd(s, i)))
  }

  /** The tokens from i on. */
  function Lex(s: string, i: nat): (t: seq<Token>)
    requires i <= |s| && NoNul(s)
    decreases |s| - i
  {
    var j := Skip(s, i);
    if j == |s| then [] else [TokenAt(s, j)] + Lex(s, TokenAt(s, j).at.eq)
  }

  lemma LexStep(s: string, i: nat)
    requires i <= |s| && NoNul(s)
    ensures var j := Skip(s, i);
            if j == |s| then Lex(s, i) == []
            else Lex(s, i) != [] && Lex(s, i)[0] == TokenAt(s, j) && Lex(s, i)[1..] == Lex(s, TokenAt(s, j).at.eq)
  {
  }

  lemma WordStep(s: string, i: nat)
    requires i <= |s|
    ensures WordEnd(s, i) == if i < |s| && !White(s[i]) && !Symbol(s[i]) then WordEnd(s, i + 1) else i
  {
  }

  lemma SkipLex(s: string, i: nat)
    requires i <= |s| && NoNul(s)
    ensures Lex(s, Skip(s, i)) == Lex(s, i)
  {
    assert Skip(s, Skip(s, i)) == Skip(s, i);
  }

  /** A word: a maximal stretch of plain characters. */
  ghost predicate IsWord(s: string, w: Slice) {
    && w.q < w.eq <= |s|
    && (forall k :: w.q <= k < w.eq ==> Plain(s[k]))
    && (w.eq < |s| ==> !Plain(s[w.eq]))
    && (w.q > 0 ==> !Plain(s[w.q - 1]))
  }

  /** No word has begun before i that goes on at i. */
  ghost predicate Between(s: string, i: nat) {
    i <= |s| && (0 < i < |s| && Plain(s[i]) ==> !Plain(s[i - 1]))
  }

  /** A word's token is the word; and a word that starts at the token or after is the token's, or after it. */
  lemma TokenIsWord(s: string, i: nat)
    requires NoNul(s) && Between(s, i) && Skip(s, i) < |s|
    ensures var x := TokenAt(s, Skip(s, i));
            && Between(s, x.at.eq) && (x.kind == WORD ==> IsWord(s, x.at))
            && forall w {:trigger IsWord(s, w)} :: IsWord(s, w) && i <= w.q ==>
                (x.kind == WORD && w == x.at) || x.at.eq <= w.q
  {
    var j := Skip(s, i);
    var x := TokenAt(s, j);
    assert s[j] != NUL;
    if x.kind == WORD {
      assert Plain(s[j]) && (j > 0 ==> !Plain(s[j - 1]));
      forall k | x.at.q <= k < x.at.eq ensures Plain(s[k]) { assert s[k] != NUL; }
      forall w | IsWord(s, w) && i <= w.q ensures w == x.at || x.at.eq <= w.q { WordHere(s, i, w); }
    } else {
      assert forall k :: j <= k < x.at.eq ==> !Plain(s[k]);
      forall w | IsWord(s, w) && i <= w.q ensures x.at.eq <= w.q { WordPast(s, i, w); }
    }
  }

  lemma WordPast(s: string, i: nat, w: Slice)
    requires i <= |s| && IsWord(s, w) && i <= w.q
    ensures Skip(s, i) <= w.q
  {
    assert Plain(s[w.q]);
  }

  lemma WordHere(s: string, i: nat, w: Slice)
    requires NoNul(s) && Between(s, i) && Skip(s, i) < |s| && TokenAt(s, Skip(s, i)).kind == WORD
    requires IsWord(s, w) && i <= w.q
    ensures w == TokenAt(s, Skip(s, i)).at || TokenAt(s, Skip(s, i)).at.eq <= w.q
  {
    var x := TokenAt(s, Skip(s, i)).at;
    WordPast(s, i, w);
  }

  /** Tokens in order, from place i to place n. */
  ghost predicate Ordered(t: seq<Token>, i: nat, n: nat) {
    && (forall k {:trigger t[k]} :: 0 <= k < |t| ==> i <= t[k].at.q < t[k].at.eq <= n)
    && (forall k, l {:trigger t[k], t[l]} :: 0 <= k < l < |t| ==> t[k].at.eq <= t[l].at.q)
  }

  lemma {:induction false} LexOrder(s: string, i: nat)
    requires i <= |s| && NoNul(s)
    ensures Ordered(Lex(s, i), i, |s|)
    decreases |s| - i
  {
    var j := Skip(s, i);
    if j < |s| {
      LexOrder(s, TokenAt(s, j).at.eq);
    }
  }

  /** The word tokens of a line are its words: each is one, and each word is there. */
  lemma {:induction false} LexWords(s: string, i: nat, w: Slice)
    requires NoNul(s) && Between(s, i)
    ensures Token(WORD, w) in Lex(s, i) <==> IsWord(s, w) && i <= w.q
    decreases |s| - i
  {
    hide TokenAt, IsWord, Plain;
    var j := Skip(s, i);
    if j < |s| {
      var x := TokenAt(s, j);
      TokenIsWord(s, i);
      LexWords(s, x.at.eq, w);
      assert Token(WORD, w) in Lex(s, i) <==> x == Token(WORD, w) || Token(WORD, w) in Lex(s, x.at.eq);
    } else if IsWord(s, w) && i <= w.q {
      WordInside(s, w);
      WordPast(s, i, w);
    }
  }

  lemma WordInside(s: string, w: Slice)
    requires IsWord(s, w)
    ensures w.q < |s|
  {
  }
}
