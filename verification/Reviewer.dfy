/** The verdicts of a review: another provider's, one per claim. */
module Reviewer {
  datatype Json = Bool(b: bool) | Int(i: int) | Other
  datatype Verdict = Verdict(ok: Json, claim: Json)

  datatype Status = Ok | Issues | Invalid | SameVendor | NoOtherVendor | Blocked | Paused | Failed | Unparsed

  /** What the chosen review model sent back. */
  datatype Reply = Refused | Stopped(paused: bool) | NoParse | Verdicts(verdicts: seq<Verdict>, omissions: seq<string>)

  /** No route, or a route with its provider and its reply. */
  datatype Review = NoRoute | By(provider: string, reply: Reply)

  datatype Result = Result(status: Status, verdicts: seq<Verdict>, omissions: seq<string>)

  /** A claim number; true and false count as 1 and 0. */
  predicate IsInt(v: Json) {
    v.Int? || v.Bool?
  }

  function AsInt(v: Json): int {
    match v case Int(i) => i case Bool(b) => (if b then 1 else 0) case Other => 0
  }

  function Ids(verdicts: seq<Verdict>): seq<int> {
    seq(|verdicts|, i requires 0 <= i < |verdicts| => AsInt(verdicts[i].claim))
  }

  function Range(n: nat): seq<int> {
    seq(n, i => i)
  }

  /** Boolean answers for exactly the claims 0..n-1, each once, in any order. */
  predicate WellFormed(n: nat, verdicts: seq<Verdict>) {
    && (forall v | v in verdicts :: v.ok.Bool? && IsInt(v.claim))
    && multiset(Ids(verdicts)) == multiset(Range(n))
  }

  predicate Approves(n: nat, r: Reply) {
    r.Verdicts? && WellFormed(n, r.verdicts) && (forall v | v in r.verdicts :: v.ok == Bool(true)) && r.omissions == []
  }

  predicate Objects(n: nat, r: Reply) {
    r.Verdicts? && WellFormed(n, r.verdicts) &&
    ((exists v :: v in r.verdicts && v.ok == Bool(false)) || r.omissions != [])
  }

  /** A sequence without repeats over the numbers below n holds each of them once. */
  lemma {:induction false} RangeInSomeOrder(ids: seq<int>, n: nat)
    requires forall i, j | 0 <= i < j < |ids| :: ids[i] != ids[j]
    requires forall x :: x in ids <==> x in Range(n)
    ensures multiset(ids) == multiset(Range(n))
  {
    forall x ensures multiset(ids)[x] == multiset(Range(n))[x] {
      OnceEach(ids, x);
      OnceEach(Range(n), x);
    }
  }

  lemma {:induction false} OnceEach(ids: seq<int>, x: int)
    requires forall i, j | 0 <= i < j < |ids| :: ids[i] != ids[j]
    ensures multiset(ids)[x] == if x in ids then 1 else 0
  {
    if ids != [] {
      var n := |ids| - 1;
      OnceEach(ids[..n], x);
      assert ids == ids[..n] + [ids[n]];
    }
  }

  lemma RepeatIsNoRange(ids: seq<int>, n: nat, i: nat, j: nat)
    requires i < j < |ids| && ids[i] == ids[j]
    ensures multiset(ids) != multiset(Range(n))
  {
    var x := ids[i];
    assert ids == ids[..j] + [ids[j]] + ids[j + 1..];
    assert ids[..j][i] == x;
    assert multiset(ids)[x] >= 2;
    OnceEach(Range(n), x);
  }

  lemma OtherSetIsNoRange(ids: seq<int>, n: nat)
    requires multiset(ids) == multiset(Range(n))
    ensures forall x :: x in ids <==> x in Range(n)
  {
    forall x ensures x in ids <==> x in Range(n) {
      assert x in multiset(ids) <==> x in ids;
      assert x in multiset(Range(n)) <==> x in Range(n);
    }
  }

  /** The verdict is on claim k, numbered by itself or, for 0 and 1, by false and true. */
  predicate IsOn(v: Verdict, k: nat) {
    v.claim == Int(k) || (k == 0 && v.claim == Bool(false)) || (k == 1 && v.claim == Bool(true))
  }

  predicate HasVerdict(verdicts: seq<Verdict>, k: nat) {
    exists v :: v in verdicts && IsOn(v, k)
  }

  /** n verdicts are well formed if and only if their answers are booleans, their claims
      numbers, and each of the n claims has one. */
  lemma WellFormedIff(n: nat, verdicts: seq<Verdict>)
    ensures WellFormed(n, verdicts) <==>
            && |verdicts| == n && (forall v | v in verdicts :: v.ok.Bool? && (v.claim.Int? || v.claim.Bool?))
            && forall k: nat | k < n :: HasVerdict(verdicts, k)
  {
    var ids := Ids(verdicts);
    if WellFormed(n, verdicts) {
      OtherSetIsNoRange(ids, n);
      assert |multiset(ids)| == |multiset(Range(n))|;
      forall k: nat | k < n ensures HasVerdict(verdicts, k) {
        assert Range(n)[k] == k && k in Range(n) && k in ids;
        var j :| 0 <= j < |ids| && ids[j] == k;
        assert IsOn(verdicts[j], k);
      }
    }
    if |verdicts| == n && forall k: nat | k < n :: HasVerdict(verdicts, k) {
      forall k: nat | k < n ensures k in ids {
        assert HasVerdict(verdicts, k);
        var v :| v in verdicts && IsOn(v, k);
        var j :| 0 <= j < |verdicts| && verdicts[j] == v;
        assert ids[j] == k;
      }
      AllOfRange(ids, n);
    }
  }

  /** n numbers among which are all below n are just those. */
  lemma AllOfRange(ids: seq<int>, n: nat)
    requires |ids| == n && forall k: nat | k < n :: k in ids
    ensures multiset(ids) == multiset(Range(n))
  {
    var all, range := multiset(ids), multiset(Range(n));
    forall x ensures range[x] <= all[x] {
      OnceEach(Range(n), x);
      if x in Range(n) { assert x in ids; }
    }
    assert range <= all;
    assert |all - range| == |all| - |range| == 0;
    assert all == range + (all - range);
  }

  /** The claim numbers of the verdicts, if all are numbers. */
  method ClaimIds(verdicts: seq<Verdict>) returns (ok: bool, ids: seq<int>)
    ensures ok <==> forall v | v in verdicts :: IsInt(v.claim)
    ensures ok ==> ids == Ids(verdicts)
  {
    ids := [];
    for i := 0 to |verdicts|
      invariant forall v | v in verdicts[..i] :: IsInt(v.claim)
      invariant |ids| == i && forall k | 0 <= k < i :: ids[k] == AsInt(verdicts[k].claim)
    {
      assert verdicts[..i + 1] == verdicts[..i] + [verdicts[i]];
      if !IsInt(verdicts[i].claim) {
        return false, ids;
      }
      ids := ids + [AsInt(verdicts[i].claim)];
    }
    assert verdicts[..|verdicts|] == verdicts;
    ok := true;
  }

  /** Each of 0..n-1 once and nothing else. */
  method CoverRange(ids: seq<int>, n: nat) returns (ok: bool)
    ensures ok <==> multiset(ids) == multiset(Range(n))
  {
    var distinct: set<int> := {};
    for i := 0 to |ids|
      invariant distinct == set id | id in ids[..i]
      invariant forall j, k | 0 <= j < k < i :: ids[j] != ids[k]
    {
      assert ids[..i + 1] == ids[..i] + [ids[i]];
      if ids[i] in distinct {
        var j :| 0 <= j < i && ids[j] == ids[i];
        RepeatIsNoRange(ids, n, j, i);
        return false;
      }
      distinct := distinct + {ids[i]};
    }
    assert ids[..|ids|] == ids;
    var wanted := set id | id in Range(n);
    assert forall x :: (x in distinct <==> x in ids) && (x in wanted <==> x in Range(n));
    if distinct != wanted {
      if multiset(ids) == multiset(Range(n)) {
        OtherSetIsNoRange(ids, n);
      }
      return false;
    }
    RangeInSomeOrder(ids, n);
    ok := true;
  }

  /** The checks of a review's verdicts, in the order they are made. */
  method Judge(n: nat, verdicts: seq<Verdict>, omissions: seq<string>) returns (status: Status)
    ensures status == Ok <==> Approves(n, Verdicts(verdicts, omissions))
    ensures status == Issues <==> Objects(n, Verdicts(verdicts, omissions))
    ensures status == Invalid <==> !WellFormed(n, verdicts)
    ensures status in {Ok, Issues, Invalid}
    ensures status != Invalid ==>
              (status == Ok <==> omissions == [] && forall v | v in verdicts :: v.ok == Bool(true))
  {
    hide Ids, Range;
    var allOk := true;
    for i := 0 to |verdicts|
      invariant forall v | v in verdicts[..i] :: v.ok.Bool?
      invariant allOk <==> forall v | v in verdicts[..i] :: v.ok == Bool(true)
    {
      assert verdicts[..i + 1] == verdicts[..i] + [verdicts[i]];
      if !verdicts[i].ok.Bool? {
        return Invalid;
      }
      allOk := allOk && verdicts[i].ok.b;
    }
    assert verdicts[..|verdicts|] == verdicts;
    var numbered, ids := ClaimIds(verdicts);
    if !numbered {
      return Invalid;
    }
    var covered := CoverRange(ids, n);
    if !covered {
      return Invalid;
    }
    status := if allOk && omissions == [] then Ok else Issues;
  }

  /** The vendor rule first, then how the run ended, then the verdicts. */
  method ReviewClaims(n: nat, workerProvider: string, review: Review) returns (r: Result)
    ensures r.status == Ok <==> review.By? && review.provider != workerProvider && Approves(n, review.reply)
    ensures r.status == Issues <==> review.By? && review.provider != workerProvider && Objects(n, review.reply)
    ensures r.status == Issues ==> r.verdicts == review.reply.verdicts && r.omissions == review.reply.omissions
  {
    if review.NoRoute? {
      return Result(NoOtherVendor, [], []);
    }
    if review.provider == workerProvider {
      return Result(SameVendor, [], []);
    }
    match review.reply {
      case Refused => return Result(Blocked, [], []);
      case Stopped(paused) => return Result(if paused then Paused else Failed, [], []);
      case NoParse => return Result(Unparsed, [], []);
      case Verdicts(verdicts, omissions) =>
        var status := Judge(n, verdicts, omissions);
        return if status == Invalid then Result(Invalid, [], []) else Result(status, verdicts, omissions);
    }
  }
}
