/** Characters and pieces of texts. */
module Texts {
  /** What Python takes for white space in a text. */
  predicate IsSpace(c: char) {
    || '\t' <= c <= '\r' || '\U{1c}' <= c <= ' ' || c == '\U{85}' || c == '\U{a0}' || c == '\U{1680}'
    || '\U{2000}' <= c <= '\U{200a}' || c == '\U{2028}' || c == '\U{2029}' || c == '\U{202f}' || c == '\U{205f}'
    || c == '\U{3000}'
  }

  /** The maximal runs of characters that `solid` holds of, in order. */
  function Runs(s: string, solid: char -> bool): (r: seq<string>)
    ensures s != [] && solid(s[|s| - 1]) ==> r != []
  {
    if s == [] then []
    else
      var n := |s| - 1;
      var front := Runs(s[..n], solid);
      if !solid(s[n]) then front
      else if n > 0 && solid(s[n - 1]) then front[|front| - 1 := front[|front| - 1] + [s[n]]]
      else front + [[s[n]]]
  }

  lemma RunsMore(s: string, c: char, solid: char -> bool)
    ensures Runs(s + [c], solid) ==
            if !solid(c) then Runs(s, solid)
            else if s != [] && solid(s[|s| - 1])
            then Runs(s, solid)[|Runs(s, solid)| - 1 := Runs(s, solid)[|Runs(s, solid)| - 1] + [c]]
            else Runs(s, solid) + [[c]]
  {
    assert (s + [c])[..|s|] == s;
  }

  lemma NoRuns(solid: char -> bool)
    ensures Runs([], solid) == []
  {}

  lemma ChangeLast(a: seq<string>, b: seq<string>, x: string)
    requires b != []
    ensures (a + b)[|a + b| - 1 := x] == a + b[|b| - 1 := x] && (a + b)[|a + b| - 1] == b[|b| - 1]
  {}

  /** Texts side by side where no run crosses the border. */
  lemma {:induction false} RunsApart(a: string, b: string, solid: char -> bool)
    requires a == [] || b == [] || !solid(a[|a| - 1]) || !solid(b[0])
    ensures Runs(a + b, solid) == Runs(a, solid) + Runs(b, solid)
    decreases |b|
  {
    hide Runs;
    NoRuns(solid);
    if b == [] {
      assert a + b == a;
    } else {
      var n := |b| - 1;
      var front, c := b[..n], b[n];
      RunsApart(a, front, solid);
      assert a + b == (a + front) + [c] && b == front + [c];
      RunsMore(a + front, c, solid);
      RunsMore(front, c, solid);
      var r := Runs(front, solid);
      if n == 0 {
        assert front == [] && a + front == a;
        assert Runs(front, solid) == [];
      } else {
        assert (a + front)[|a + front| - 1] == front[n - 1];
        if r != [] {
          ChangeLast(Runs(a, solid), r, r[|r| - 1] + [c]);
        }
      }
    }
  }

  /** A text of one run. */
  lemma {:induction false} OneRun(s: string, solid: char -> bool)
    requires s != [] && forall i | 0 <= i < |s| :: solid(s[i])
    ensures Runs(s, solid) == [s]
  {
    var n := |s| - 1;
    if n > 0 {
      OneRun(s[..n], solid);
      assert s == s[..n] + [s[n]];
    } else {
      assert s[..0] == [] && s == [s[0]];
    }
  }

  /** The pieces with one space between. */
  function Spaced(pieces: seq<string>): string {
    if pieces == [] then []
    else if |pieces| == 1 then pieces[0]
    else Spaced(pieces[..|pieces| - 1]) + " " + pieces[|pieces| - 1]
  }

  function Each(pieces: seq<string>, change: char -> char): (r: seq<string>)
    ensures |r| == |pieces|
  {
    seq(|pieces|, i requires 0 <= i < |pieces| => Changed(pieces[i], change))
  }

  function Changed(s: string, change: char -> char): (r: string)
    ensures |r| == |s|
  {
    seq(|s|, i requires 0 <= i < |s| => change(s[i]))
  }
}
