/** The deterministic checks: every claim's quote stands in its anchored
    paragraph, every sentence cites, and cites only anchored paragraphs. */
module Verifier {
  import opened Texts
  import opened Quotes

  // ---- Numbers in citations

  /** The number a string of digits stands for. */
  function Value(digits: string): nat {
    if digits == [] then 0
    else
      var last := digits[|digits| - 1];
      10 * Value(digits[..|digits| - 1]) + if IsDigit(last) then last as int - '0' as int else 0
  }

  function Decimal(n: nat): (s: string)
    ensures s != []
  {
    var digit := ['0' + (n % 10) as char];
    if n < 10 then digit else Decimal(n / 10) + digit
  }

  lemma {:induction false} ValueOfDecimal(n: nat)
    ensures Value(Decimal(n)) == n
  {
    if n >= 10 {
      ValueOfDecimal(n / 10);
      var s := Decimal(n / 10);
      var digit := ['0' + (n % 10) as char];
      assert (s + digit)[..|s + digit| - 1] == s;
    } else {
      assert Decimal(n)[..0] == [];
    }
  }

  // ---- Claims

  datatype Anchor = At(source: string, digits: string) | Malformed
  datatype Claim = Claim(anchor: Anchor, quote: string)

  predicate Matches(paragraphs: seq<string>, source: string, c: Claim) {
    && c.anchor.At? && c.anchor.source == source
    && 1 <= Value(c.anchor.digits) <= |paragraphs|
    && Quoted(c.quote, paragraphs[Value(c.anchor.digits) - 1])
  }

  datatype Report = Report(checked: nat, matched: nat, failures: seq<nat>)

  method Verify(paragraphs: seq<string>, source: string, claims: seq<Claim>) returns (rep: Report)
    ensures rep.checked == |claims| && rep.matched + |rep.failures| == |claims|
    ensures forall i :: i in rep.failures <==> 0 <= i < |claims| && !Matches(paragraphs, source, claims[i])
    ensures rep.matched == rep.checked <==> forall i | 0 <= i < |claims| :: Matches(paragraphs, source, claims[i])
    ensures forall i | 0 <= i < |claims| && i !in rep.failures :: StandsInPlace(paragraphs, source, claims[i])
  {
    rep := Report(|claims|, 0, []);
    for i := 0 to |claims|
      invariant rep.checked == |claims| && rep.matched + |rep.failures| == i
      invariant forall k :: k in rep.failures <==> 0 <= k < i && !Matches(paragraphs, source, claims[k])
    {
      var c := claims[i];
      if c.anchor.Malformed? || c.anchor.source != source || !(1 <= Value(c.anchor.digits) <= |paragraphs|) {
        rep := rep.(failures := rep.failures + [i]);
      } else if Norm(c.quote) == [] || !Quoted(c.quote, paragraphs[Value(c.anchor.digits) - 1]) {
        rep := rep.(failures := rep.failures + [i]);
      } else {
        rep := rep.(matched := rep.matched + 1);
      }
    }
    assert rep.failures != [] ==> rep.failures[0] in rep.failures;
    forall i | 0 <= i < |claims| && i !in rep.failures ensures StandsInPlace(paragraphs, source, claims[i]) {
      MatchStands(paragraphs, source, claims[i]);
    }
  }

  /** The anchor names a paragraph of the source; the quote is not blank, and its words
      are consecutive words of the paragraph. */
  ghost predicate StandsInPlace(paragraphs: seq<string>, source: string, c: Claim) {
    && c.anchor.At? && c.anchor.source == source && 1 <= Value(c.anchor.digits) <= |paragraphs|
    && (exists k :: 0 <= k < |c.quote| && !IsSpace(c.quote[k]))
    && WholeWords(c.quote, paragraphs[Value(c.anchor.digits) - 1])
  }

  lemma MatchStands(paragraphs: seq<string>, source: string, c: Claim)
    requires Matches(paragraphs, source, c)
    ensures StandsInPlace(paragraphs, source, c)
  {
    BlankIsNothing(c.quote);
    var _, _ := QuoteIsWholeWords(c.quote, paragraphs[Value(c.anchor.digits) - 1]);
  }

  /** Whatever word of whatever paragraph is quoted under that paragraph's number matches. */
  lemma OwnWordMatches(paragraphs: seq<string>, source: string, n: nat, word: string)
    requires 1 <= n <= |paragraphs| && word in Words(paragraphs[n - 1])
    ensures Matches(paragraphs, source, Claim(At(source, Decimal(n)), word))
  {
    ValueOfDecimal(n);
    hide Value, Decimal;
    WordIsQuoted(word, paragraphs[n - 1]);
  }

  /** At least one claim, and every claim matches. */
  predicate Passed(paragraphs: seq<string>, source: string, claims: seq<Claim>) {
    claims != [] && forall i | 0 <= i < |claims| :: Matches(paragraphs, source, claims[i])
  }

  // ---- Drafts

  /** A sentence with the digits of its citations `(p<digits>)`. */
  datatype Sentence = Sentence(text: string, cites: seq<string>, unresolved: bool)

  /** The paragraph numbers of the claims' anchors, in their shortest form. */
  function Anchored(claims: seq<Claim>): set<string> {
    set i | 0 <= i < |claims| && claims[i].anchor.At? :: Decimal(Value(claims[i].anchor.digits))
  }

  predicate CitesOnly(sentence: Sentence, anchored: set<string>) {
    forall cite | cite in sentence.cites :: cite in anchored
  }

  predicate NoBadCitation(draft: seq<Sentence>, anchored: set<string>) {
    forall sentence | sentence in draft :: CitesOnly(sentence, anchored)
  }

  predicate AllCite(draft: seq<Sentence>) {
    forall sentence | sentence in draft :: sentence.cites != []
  }

  method CheckDraft(draft: seq<Sentence>, anchored: set<string>)
    returns (uncited: seq<Sentence>, bad: set<string>, cited: nat)
    ensures uncited == [] <==> AllCite(draft)
    ensures forall s :: s in uncited <==> s in draft && s.cites == []
    ensures bad == {} <==> NoBadCitation(draft, anchored)
    ensures forall cite :: cite in bad <==>
              cite !in anchored && exists sentence :: sentence in draft && cite in sentence.cites
    ensures cited + |uncited| == |draft|
  {
    uncited, bad, cited := [], {}, 0;
    for i := 0 to |draft|
      invariant uncited == [] <==> AllCite(draft[..i])
      invariant forall s :: s in uncited <==> s in draft[..i] && s.cites == []
      invariant forall cite :: cite in bad <==> cite !in anchored && exists s :: s in draft[..i] && cite in s.cites
      invariant cited + |uncited| == i
    {
      assert draft[..i + 1] == draft[..i] + [draft[i]];
      assert draft[i] in draft[..i + 1];
      assert forall s :: s in draft[..i + 1] <==> s in draft[..i] || s == draft[i];
      if draft[i].cites == [] {
        uncited := uncited + [draft[i]];
      } else {
        cited := cited + 1;
        bad := bad + set cite | cite in draft[i].cites && cite !in anchored;
      }
    }
    assert draft[..|draft|] == draft;
    if bad == {} {
      forall s | s in draft ensures CitesOnly(s, anchored) {
        forall cite | cite in s.cites ensures cite in anchored { assert cite !in bad; }
      }
    } else {
      var cite :| cite in bad;
      var s :| s in draft && cite in s.cites;
      assert !CitesOnly(s, anchored);
    }
  }

  /** A citation is anchored exactly when it is written in its shortest form and
      some claim is anchored at its paragraph: (p03) is bad where (p3) is good. */
  lemma CiteIsAnchored(claims: seq<Claim>, cite: string)
    ensures cite in Anchored(claims) <==>
            cite == Decimal(Value(cite)) &&
            exists i :: 0 <= i < |claims| && claims[i].anchor.At? && Value(claims[i].anchor.digits) == Value(cite)
  {
    forall i | 0 <= i < |claims| && claims[i].anchor.At?
      ensures Value(Decimal(Value(claims[i].anchor.digits))) == Value(claims[i].anchor.digits)
    {
      ValueOfDecimal(Value(claims[i].anchor.digits));
    }
  }
}
