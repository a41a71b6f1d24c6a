/** What it means that a quote stands in a paragraph: words, not characters. */
module Quotes {
  import opened Texts

  // ---- Standing in a paragraph

  predicate IsDigit(c: char) {
    '0' <= c <= '9'
  }

  predicate IsWord(c: char) {
    IsDigit(c) || 'a' <= c <= 'z' || 'A' <= c <= 'Z' || c == '_'
  }

  function Lower(c: char): char {
    if 'A' <= c <= 'Z' then c - 'A' + 'a' else c
  }

  /** Lower case, one space for every run of white space, none at either end. */
  function Norm(s: string): string {
    if s == [] then []
    else
      var front, last := Norm(s[..|s| - 1]), s[|s| - 1];
      if !IsSpace(last) then (if front != [] && |s| > 1 && IsSpace(s[|s| - 2]) then front + [' '] else front) +
      [Lower(last)]
      else front
  }

  predicate StandsAt(quote: string, text: string, i: nat) {
    && i + |quote| <= |text| && text[i..i + |quote|] == quote
    && (i > 0 ==> !IsWord(text[i - 1]))
    && (i + |quote| < |text| ==> !IsWord(text[i + |quote|]))
  }

  /** The quote occurs as whole words, spacing and case aside. */
  predicate Quoted(quote: string, paragraph: string) {
    && Norm(quote) != []
    && exists i :: 0 <= i <= |Norm(paragraph)| && StandsAt(Norm(quote), Norm(paragraph), i)
  }

  // ---- Characters

  const DIGITS := "0123456789"
  const SMALL := "abcdefghijklmnopqrstuvwxyz"
  const CAPITAL := "ABCDEFGHIJKLMNOPQRSTUVWXYZ"

  lemma Digits(c: char)
    ensures IsDigit(c) <==> c in DIGITS
  {
    if IsDigit(c) { assert DIGITS[c as int - '0' as int] == c; }
  }

  lemma SmallLetters(c: char)
    ensures 'a' <= c <= 'z' <==> c in SMALL
  {
    if 'a' <= c <= 'z' { assert SMALL[c as int - 'a' as int] == c; }
  }

  lemma Capitals(c: char)
    ensures 'A' <= c <= 'Z' <==> c in CAPITAL
  {
    if 'A' <= c <= 'Z' { assert CAPITAL[c as int - 'A' as int] == c; }
  }

  /** The word characters are the digits, the letters and the underscore; no blank is one. */
  lemma WordCharacters(c: char)
    ensures IsWord(c) <==> c in DIGITS || c in SMALL || c in CAPITAL || c == '_'
    ensures IsWord(c) ==> !IsSpace(c)
    ensures IsWord(Lower(c)) == IsWord(c) && IsSpace(Lower(c)) == IsSpace(c)
  {
    hide DIGITS, SMALL, CAPITAL;
    Digits(c);
    SmallLetters(c);
    Capitals(c);
  }

  /** Lowering takes the k-th capital to the k-th small letter and leaves the rest. */
  lemma Lowering(c: char, k: nat)
    requires k < 26
    ensures Lower(CAPITAL[k]) == SMALL[k]
    ensures c !in CAPITAL ==> Lower(c) == c
  {
    Capitals(c);
  }

  // ---- Normalizing

  function NoSpace(): char -> bool {
    c => !IsSpace(c)
  }

  function Small(): char -> char {
    c => Lower(c)
  }

  lemma SpacedMore(pieces: seq<string>, p: string)
    ensures Spaced(pieces + [p]) == if pieces == [] then p else Spaced(pieces) + " " + p
  {
    assert (pieces + [p])[..|pieces|] == pieces;
  }

  lemma SpacedLonger(pieces: seq<string>, c: char)
    requires pieces != []
    ensures Spaced(pieces[|pieces| - 1 := pieces[|pieces| - 1] + [c]]) == Spaced(pieces) + [c]
  {
    var n := |pieces| - 1;
    var more := pieces[n := pieces[n] + [c]];
    assert more[..n] == pieces[..n];
    if n > 0 {
      assert Spaced(pieces[..n]) + " " + (pieces[n] + [c]) == Spaced(pieces[..n]) + " " + pieces[n] + [c];
    }
  }

  lemma EachMore(pieces: seq<string>, c: char, change: char -> char)
    ensures Each(pieces + [[c]], change) == Each(pieces, change) + [[change(c)]]
    ensures pieces != [] ==>
              var n := |pieces| - 1;
              Each(pieces[n := pieces[n] + [c]], change) ==
              Each(pieces, change)[n := Each(pieces, change)[n] + [change(c)]]
  {
    assert Changed([c], change) == [change(c)];
    if pieces != [] {
      var n := |pieces| - 1;
      assert Changed(pieces[n] + [c], change) == Changed(pieces[n], change) + [change(c)];
    }
  }

  /** Normalizing is splitting at white space, lowering each piece, and joining with single spaces. */
  lemma {:induction false} NormIsSpaced(s: string)
    ensures Norm(s) == Spaced(Each(Runs(s, NoSpace()), Small()))
    ensures Norm(s) == [] <==> Runs(s, NoSpace()) == []
  {
    if s != [] {
      var n := |s| - 1;
      var front := Runs(s[..n], NoSpace());
      NormIsSpaced(s[..n]);
      EachMore(front, s[n], Small());
      var each := Each(front, Small());
      SpacedMore(each, [Lower(s[n])]);
      if front != [] { SpacedLonger(each, Lower(s[n])); }
      hide Spaced, Each, IsSpace;
    }
  }

  /** Exactly the blank texts normalize to nothing. */
  lemma {:induction false} BlankIsNothing(s: string)
    ensures Norm(s) == [] <==> forall k | 0 <= k < |s| :: IsSpace(s[k])
  {
    if s != [] {
      BlankIsNothing(s[..|s| - 1]);
    }
  }

  /** Every blank is a single space between two characters that are none. */
  predicate SingleSpaced(r: string) {
    && (r != [] ==> !IsSpace(r[0]) && !IsSpace(r[|r| - 1]))
    && forall i | 0 <= i < |r| && IsSpace(r[i]) ::
         r[i] == ' ' && 0 < i < |r| - 1 && !IsSpace(r[i - 1]) && !IsSpace(r[i + 1])
  }

  lemma SpacedOneMore(front: string, c: char)
    requires SingleSpaced(front) && !IsSpace(c)
    ensures SingleSpaced(front + [c])
    ensures front != [] ==> SingleSpaced(front + [' '] + [c])
  {
    BlankIsSpace();
    hide IsSpace;
  }

  lemma {:induction false} NormBlanks(s: string)
    ensures SingleSpaced(Norm(s))
    ensures s != [] && !IsSpace(s[|s| - 1]) ==> Norm(s) != [] && Norm(s)[|Norm(s)| - 1] == Lower(s[|s| - 1])
  {
    if s != [] {
      var n := |s| - 1;
      NormBlanks(s[..n]);
      WordCharacters(s[n]);
      hide IsSpace, Lower, SingleSpaced;
      if !IsSpace(s[n]) {
        SpacedOneMore(Norm(s[..n]), Lower(s[n]));
      }
    }
  }

  lemma BlankIsSpace()
    ensures IsSpace(' ') && !IsWord(' ')
  {}

  /** The words of a normalized text are the words of the text, in small letters. */
  lemma RunsOfNorm(s: string)
    ensures Runs(Norm(s), NoSpace()) == Each(Runs(s, NoSpace()), Small())
  {
    var pieces := Each(Runs(s, NoSpace()), Small());
    NormIsSpaced(s);
    RunsAreSolid(s, NoSpace());
    forall i, k | 0 <= i < |pieces| && 0 <= k < |pieces[i]| ensures !IsSpace(pieces[i][k]) {
      WordCharacters(Runs(s, NoSpace())[i][k]);
    }
    hide IsSpace, Norm;
    RunsOfSpaced(pieces);
  }

  /** Normalizing twice is normalizing once. */
  lemma NormTwice(s: string)
    ensures Norm(Norm(s)) == Norm(s)
    ensures Runs(Norm(s), NoSpace()) == Each(Runs(s, NoSpace()), Small())
  {
    RunsOfNorm(s);
    NormIsSpaced(s);
    NormIsSpaced(Norm(s));
    EachTwice(Runs(s, NoSpace()));
    hide *;
  }

  lemma EachTwice(pieces: seq<string>)
    ensures Each(Each(pieces, Small()), Small()) == Each(pieces, Small())
  {
    forall i | 0 <= i < |pieces| ensures Each(Each(pieces, Small()), Small())[i] == Each(pieces, Small())[i] {
      assert Changed(Changed(pieces[i], Small()), Small()) == Changed(pieces[i], Small());
    }
  }

  lemma {:induction false} RunsAreSolid(s: string, solid: char -> bool)
    ensures forall i | 0 <= i < |Runs(s, solid)| ::
              Runs(s, solid)[i] != [] && forall k | 0 <= k < |Runs(s, solid)[i]| :: solid(Runs(s, solid)[i][k])
  {
    if s != [] {
      RunsAreSolid(s[..|s| - 1], solid);
    }
  }

  lemma {:induction false} RunsOfSpaced(pieces: seq<string>)
    requires forall i | 0 <= i < |pieces| ::
               pieces[i] != [] && forall k | 0 <= k < |pieces[i]| :: !IsSpace(pieces[i][k])
    ensures Runs(Spaced(pieces), NoSpace()) == pieces
  {
    if pieces != [] {
      var n := |pieces| - 1;
      var front, last := pieces[..n], pieces[n];
      RunsOfSpaced(front);
      OneRun(last, NoSpace());
      BlankIsSpace();
      assert pieces == front + [last];
      if n > 0 {
        RunsApart(Spaced(front), " ", NoSpace());
        assert " "[..0] == [];
        assert Runs(" ", NoSpace()) == [];
        RunsApart(Spaced(front) + " ", last, NoSpace());
      }
    }
  }

  // ---- Words

  function Wordy(): char -> bool {
    c => IsWord(c)
  }

  /** The words of a text. */
  function Words(s: string): (r: seq<string>)
    ensures s != [] && IsWord(s[|s| - 1]) ==> r != []
  {
    Runs(s, Wordy())
  }

  lemma WordsMore(s: string, c: char)
    ensures Words(s + [c]) ==
            if !IsWord(c) then Words(s)
            else if s != [] && IsWord(s[|s| - 1])
            then Words(s)[|Words(s)| - 1 := Words(s)[|Words(s)| - 1] + [c]] else Words(s) + [[c]]
  {
    assert (s + [c])[..|s|] == s;
  }

  lemma NormMore(s: string, c: char)
    ensures Norm(s + [c]) ==
            if IsSpace(c) then Norm(s)
            else if Norm(s) != [] && s != [] && IsSpace(s[|s| - 1]) then Norm(s) + [' '] + [Lower(c)]
            else Norm(s) + [Lower(c)]
  {
    assert (s + [c])[..|s|] == s;
    hide IsSpace, Lower;
  }

  lemma NoWords()
    ensures Norm([]) == [] && Words([]) == [] && Each([], Small()) == []
  {}

  /** Normalizing lowers the words and keeps them apart. */
  lemma {:induction false} WordsOfNorm(s: string)
    ensures Words(Norm(s)) == Each(Words(s), Small())
  {
    hide Norm, IsSpace, IsWord, Lower, Words, Each;
    NoWords();
    if s != [] {
      var n := |s| - 1;
      var front, c := s[..n], s[n];
      WordsOfNorm(front);
      WordCharacters(c);
      if n > 0 { WordCharacters(s[n - 1]); }
      NormBlanks(front);
      BlankIsSpace();
      assert s == front + [c] && (n > 0 ==> front[|front| - 1] == s[n - 1]);
      NormMore(front, c);
      WordsMore(front, c);
      EachMore(Words(front), c, Small());
      var r, l := Norm(front), Lower(c);
      WordsMore(r, ' ');
      WordsMore(r, l);
      WordsMore(r + [' '], l);
      assert n > 0 && r != [] && !IsSpace(s[n - 1]) ==> r[|r| - 1] == Lower(s[n - 1]);
      assert r == [] ==> Words(front) == [];
    }
  }

  /** The words of the quote are consecutive words of the paragraph, case aside. */
  ghost predicate WholeWords(quote: string, paragraph: string) {
    exists before, after :: Each(Words(paragraph), Small()) == before + Each(Words(quote), Small()) + after
  }

  /** The words of a quote that stands in a paragraph are consecutive words of the paragraph, case aside. */
  lemma QuoteIsWholeWords(quote: string, paragraph: string) returns (before: seq<string>, after: seq<string>)
    requires Quoted(quote, paragraph)
    ensures Each(Words(paragraph), Small()) == before + Each(Words(quote), Small()) + after
    ensures WholeWords(quote, paragraph)
  {
    var q, p := Norm(quote), Norm(paragraph);
    var i :| 0 <= i <= |p| && StandsAt(q, p, i);
    var u, v := p[..i], p[i + |q|..];
    assert p == u + q + v;
    WordsOfNorm(quote);
    WordsOfNorm(paragraph);
    hide Norm;
    RunsApart(u, q, Wordy());
    RunsApart(u + q, v, Wordy());
    before, after := Words(u), Words(v);
  }

  /** A quote that is one word stands in a paragraph if and only if the paragraph has that
      word: never if it is cut out of a longer one. */
  lemma OneWordIff(quote: string, paragraph: string)
    requires Norm(quote) != [] && forall k | 0 <= k < |Norm(quote)| :: IsWord(Norm(quote)[k])
    ensures Quoted(quote, paragraph) <==> Norm(quote) in Each(Words(paragraph), Small())
  {
    var q, p := Norm(quote), Norm(paragraph);
    WordsOfNorm(quote);
    WordsOfNorm(paragraph);
    OneRun(q, Wordy());
    if Quoted(quote, paragraph) {
      var before, after := QuoteIsWholeWords(quote, paragraph);
      assert (before + [q] + after)[|before|] == q;
    }
    hide Norm;
    if q in Words(p) {
      var k :| 0 <= k < |Words(p)| && Words(p)[k] == q;
      var i := WordStands(p, k);
    }
  }

  /** Each word of a paragraph may be quoted from it, in any case. */
  lemma WordIsQuoted(word: string, paragraph: string)
    requires word in Words(paragraph)
    ensures Quoted(word, paragraph)
  {
    RunsAreSolid(paragraph, Wordy());
    var k :| 0 <= k < |Words(paragraph)| && Words(paragraph)[k] == word;
    assert word != [] && forall i | 0 <= i < |word| :: IsWord(word[i]);
    NormOfWord(word);
    forall i | 0 <= i < |word| ensures IsWord(Lower(word[i])) { WordCharacters(word[i]); }
    assert Each(Words(paragraph), Small())[k] == Changed(word, Small());
    hide Norm, IsWord, Lower, Words;
    OneWordIff(word, paragraph);
  }

  lemma NormOfWord(word: string)
    requires word != [] && forall i | 0 <= i < |word| :: IsWord(word[i])
    ensures Norm(word) == Changed(word, Small())
  {
    forall i | 0 <= i < |word| ensures !IsSpace(word[i]) { WordCharacters(word[i]); }
    NormIsSpaced(word);
    hide IsSpace, IsWord, Lower;
    OneRun(word, NoSpace());
    assert Each([word], Small()) == [Changed(word, Small())];
  }

  lemma StandsLonger(w: string, front: string, c: char, i: nat)
    requires StandsAt(w, front, i)
    ensures i + |w| < |front| || !IsWord(c) ==> StandsAt(w, front + [c], i)
    ensures i + |w| == |front| ==> StandsAt(w + [c], front + [c], i)
  {
    hide IsWord;
    assert (front + [c])[i..i + |w|] == w;
    if i + |w| == |front| { assert (front + [c])[i..] == w + [c]; }
  }

  /** Every word of a text stands in it. */
  lemma {:induction false} WordStands(s: string, k: nat) returns (i: nat)
    requires k < |Words(s)|
    ensures StandsAt(Words(s)[k], s, i)
    ensures k == |Words(s)| - 1 && IsWord(s[|s| - 1]) <==> i + |Words(s)[k]| == |s|
    decreases |s|
  {
    var n := |s| - 1;
    var front, c := s[..n], s[n];
    assert s == front + [c];
    WordsMore(front, c);
    RunsAreSolid(s, Wordy());
    if k < |Words(front)| {
      i := WordStands(front, k);
      StandsLonger(Words(front)[k], front, c, i);
    } else {
      i := n;
      assert s[n..n + 1] == [c];
    }
    hide Runs, IsWord;
  }
}
