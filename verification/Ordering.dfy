/** Lexicographic order, as Python compares lists of integers and strings. */
module Ordering {
  predicate Less(a: seq<int>, b: seq<int>) {
    if b == [] then false
    else if a == [] then true
    else a[0] < b[0] || (a[0] == b[0] && Less(a[1..], b[1..]))
  }

  lemma {:induction false} LessTransitive(a: seq<int>, b: seq<int>, c: seq<int>)
    requires Less(a, b) && Less(b, c)
    ensures Less(a, c)
  {
    if a != [] && a[0] == b[0] && b[0] == c[0] {
      LessTransitive(a[1..], b[1..], c[1..]);
    }
  }

  /** Exactly one of less, equal and greater. */
  lemma {:induction false} LessTotal(a: seq<int>, b: seq<int>)
    ensures Less(a, b) <==> a != b && !Less(b, a)
  {
    if a != [] && b != [] && a[0] == b[0] {
      LessTotal(a[1..], b[1..]);
      assert a == [a[0]] + a[1..] && b == [b[0]] + b[1..];
    }
  }

  /** A string as its code points. */
  function Codes(s: string): (c: seq<int>)
    ensures |c| == |s|
  {
    seq(|s|, i requires 0 <= i < |s| => s[i] as int)
  }

  lemma CodesInjective(s: string, t: string)
    requires Codes(s) == Codes(t)
    ensures s == t
  {
    forall i | 0 <= i < |s| ensures s[i] == t[i] { assert Codes(s)[i] == Codes(t)[i]; }
  }

  /** String comparison. */
  predicate Before(s: string, t: string) {
    Less(Codes(s), Codes(t))
  }

  lemma BeforeTotal(s: string, t: string)
    ensures Before(s, t) <==> s != t && !Before(t, s)
  {
    LessTotal(Codes(s), Codes(t));
    if Codes(s) == Codes(t) { CodesInjective(s, t); }
  }

  lemma BeforeTransitive(s: string, t: string, u: string)
    requires !Before(t, s) && !Before(u, t)
    ensures !Before(u, s)
  {
    BeforeTotal(s, t);
    BeforeTotal(t, u);
    if s != t && t != u {
      LessTransitive(Codes(s), Codes(t), Codes(u));
      BeforeTotal(s, u);
    }
  }
}
