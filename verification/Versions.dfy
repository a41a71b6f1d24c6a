/** Two orders on version numbers: trailing zeros stripped, and padded to eight parts. */
module Versions {
  import opened Options
  import opened Ordering

  type Version = v: seq<nat> | v != [] witness [0]

  // ---- The two orders

  /** Without trailing zeros, but never without any part. */
  function Strip(v: seq<nat>): (r: seq<nat>)
    ensures |r| <= |v| && (v != [] ==> r != [])
  {
    if |v| > 1 && v[|v| - 1] == 0 then Strip(v[..|v| - 1]) else v
  }

  function Zeros(n: nat): (z: seq<nat>)
    ensures |z| == n
  {
    seq(n, i => 0)
  }

  /** Zeros up to eight parts; longer versions stay as they are. */
  function Pad(v: seq<nat>): (r: seq<nat>)
    ensures |r| == if |v| < 8 then 8 else |v|
  {
    v + Zeros(if |v| < 8 then 8 - |v| else 0)
  }

  predicate StrippedNewer(a: Version, b: Version) {
    Less(Strip(b), Strip(a))
  }

  predicate PaddedNewer(a: Version, b: Version) {
    Less(Pad(b), Pad(a))
  }

  method ParseVersion(parts: Version) returns (v: Version)
    ensures v == Strip(parts)
  {
    v := parts;
    while |v| > 1 && v[|v| - 1] == 0
      invariant v != [] && Strip(v) == Strip(parts)
      decreases |v|
    {
      v := v[..|v| - 1];
    }
  }

  // ---- They agree

  /** Without any trailing zero, not even a lone one. */
  function Trim(v: seq<nat>): (r: seq<nat>)
    ensures |r| <= |v| && (r != [] ==> r[|r| - 1] != 0)
    ensures v == r + Zeros(|v| - |r|)
  {
    if v != [] && v[|v| - 1] == 0 then
      var r := Trim(v[..|v| - 1]);
      assert v == v[..|v| - 1] + [0];
      assert Zeros(|v| - 1 - |r|) + [0] == Zeros(|v| - |r|);
      r
    else v
  }

  lemma {:induction false} StripIsTrim(v: Version)
    ensures Strip(v) == if Trim(v) == [] then [0] else Trim(v)
  {
    if |v| > 1 && v[|v| - 1] == 0 {
      StripIsTrim(v[..|v| - 1]);
    } else if v[|v| - 1] == 0 {
      assert v == [0] && Trim(v[..0]) == [];
    }
  }

  predicate Trimmed(v: seq<nat>) {
    v != [] ==> v[|v| - 1] != 0
  }

  /** Zeros at the end only decide between equals. */
  lemma {:induction false} ZerosDecideTies(x: seq<nat>, m: nat, y: seq<nat>, n: nat)
    requires Trimmed(x) && Trimmed(y)
    ensures Less(x + Zeros(m), y + Zeros(n)) <==> Less(x, y) || (x == y && m < n)
    decreases |x| + m, |y| + n
  {
    if |x| + m > 0 && |y| + n > 0 {
      var a, b := x + Zeros(m), y + Zeros(n);
      var x', m' := if x == [] then [] else x[1..], if x == [] then m - 1 else m;
      var y', n' := if y == [] then [] else y[1..], if y == [] then n - 1 else n;
      assert a[1..] == x' + Zeros(m') && b[1..] == y' + Zeros(n');
      ZerosDecideTies(x', m', y', n');
      if x != [] && y != [] {
        assert x == [x[0]] + x[1..] && y == [y[0]] + y[1..];
      }
    }
  }

  /** The stripped comparison is the comparison of the trimmed versions. */
  lemma StrippedIsTrimmed(a: Version, b: Version)
    ensures StrippedNewer(a, b) <==> Less(Trim(b), Trim(a))
  {
    StripIsTrim(a);
    StripIsTrim(b);
    ZeroIsLeast(Trim(a));
    ZeroIsLeast(Trim(b));
    hide Strip, Trim, Less;
  }

  /** A lone zero compares to every trimmed version as nothing does. */
  lemma ZeroIsLeast(v: seq<nat>)
    requires Trimmed(v)
    ensures Less([0], v) <==> v != []
    ensures !Less(v, [0]) || v == []
    ensures !Less([0], [0]) && !Less([], []) && !Less(v, []) && (Less([], v) <==> v != [])
  {
    var zero: seq<int> := [0];
    assert zero[1..] == [];
    if v != [] && v[0] == 0 {
      assert v[1..] != [];
    }
  }

  lemma TrimmedTrim(v: seq<nat>)
    ensures Trimmed(Trim(v))
  {}

  /** A padded version is its trimmed one and zeros. */
  lemma PadIsTrim(v: seq<nat>)
    ensures |Trim(v)| <= |Pad(v)| && Pad(v) == Trim(v) + Zeros(|Pad(v)| - |Trim(v)|)
  {
    var t, n := Trim(v), |Pad(v)| - |v|;
    assert Zeros(|v| - |t|) + Zeros(n) == Zeros(|v| - |t| + n);
    assert Pad(v) == t + Zeros(|v| - |t|) + Zeros(n);
    assert (t + Zeros(|v| - |t|)) + Zeros(n) == t + (Zeros(|v| - |t|) + Zeros(n));
    hide Trim;
  }

  lemma PaddedIsTrimmed(a: Version, b: Version)
    ensures PaddedNewer(a, b) <==> Less(Trim(b), Trim(a)) || (Trim(a) == Trim(b) && |Pad(b)| < |Pad(a)|)
  {
    var s, t := Trim(a), Trim(b);
    PadIsTrim(a);
    PadIsTrim(b);
    TrimmedTrim(a);
    TrimmedTrim(b);
    ZerosDecideTies(t, |Pad(b)| - |t|, s, |Pad(a)| - |s|);
    hide Trim, Less, Zeros, Pad;
  }

  /** The two orders agree on a pair of versions exactly when they differ beyond
      trailing zeros or are padded to the same length. */
  lemma OrdersAgreeIff(a: Version, b: Version)
    ensures (StrippedNewer(a, b) <==> PaddedNewer(a, b)) && (StrippedNewer(b, a) <==> PaddedNewer(b, a)) <==>
            Strip(a) != Strip(b) || |Pad(a)| == |Pad(b)|
  {
    StrippedIsTrimmed(a, b);
    StrippedIsTrimmed(b, a);
    PaddedIsTrimmed(a, b);
    PaddedIsTrimmed(b, a);
    StripIsTrim(a);
    StripIsTrim(b);
    LessTotal(Trim(a), Trim(b));
    assert Strip(a) == Strip(b) <==> Trim(a) == Trim(b);
  }

  /** So they agree on all versions of at most eight parts. */
  lemma ShortOrdersAgree(a: Version, b: Version)
    requires |a| <= 8 && |b| <= 8
    ensures StrippedNewer(a, b) <==> PaddedNewer(a, b)
  {
    OrdersAgreeIff(a, b);
  }

  /** And not beyond: 6 and 6 followed by eight zeros are one version, yet one pads longer. */
  lemma LongZerosDisagree()
    ensures var a, b: Version := [6] + Zeros(8), [6]; PaddedNewer(a, b) && !StrippedNewer(a, b) && Strip(a) == Strip(b)
  {
    var a, b: Version := [6] + Zeros(8), [6];
    assert a[..8] == [6] + Zeros(7);
    PaddedIsTrimmed(a, b);
    StrippedIsTrimmed(a, b);
    StripIsTrim(a);
    StripIsTrim(b);
    assert Trim(b) == [6];
    ZerosTrim([6], 8);
    LessTotal([6], [6]);
  }

  lemma {:induction false} ZerosTrim(x: seq<nat>, n: nat)
    requires Trimmed(x)
    ensures Trim(x + Zeros(n)) == x
  {
    if n > 0 {
      ZerosTrim(x, n - 1);
      assert (x + Zeros(n))[..|x| + n - 1] == x + Zeros(n - 1);
    } else {
      assert x + Zeros(0) == x;
    }
  }

  /** Not newer is transitive. */
  lemma NotNewerTransitive(a: Version, b: Version, c: Version)
    requires !PaddedNewer(b, a) && !PaddedNewer(c, b)
    ensures !PaddedNewer(c, a)
  {
    LessTotal(Pad(a), Pad(b));
    LessTotal(Pad(b), Pad(c));
    LessTotal(Pad(a), Pad(c));
    if Pad(a) != Pad(b) && Pad(b) != Pad(c) {
      LessTransitive(Pad(c), Pad(b), Pad(a));
    }
  }

  // ---- The newest listed model

  datatype Listed = Listed(slug: string, version: Option<Version>, family: string, visible: bool, supported: bool)

  predicate Offers(m: Listed, family: string) {
    m.version.Some? && m.family == family && m.visible && m.supported
  }

  /** No offered model of the family is newer. */
  predicate IsNewest(models: seq<Listed>, family: string, top: Listed) {
    && top in models && Offers(top, family)
    && forall m | m in models && Offers(m, family) :: !PaddedNewer(m.version.value, top.version.value)
  }

  method Newest(family: string, models: seq<Listed>) returns (best: Option<Listed>)
    ensures best.None? <==> forall m | m in models :: !Offers(m, family)
    ensures best.Some? ==> IsNewest(models, family, best.value)
    ensures best.None? ==>
              forall m | m in models && m.visible && m.supported && m.family == family :: m.version.None?
    ensures best.Some? ==>
              && best.value.visible && best.value.supported && best.value.family == family && best.value.version.Some?
              && forall m | m in models && m.visible && m.supported && m.family == family && m.version.Some? ::
                   !PaddedNewer(m.version.value, best.value.version.value)
  {
    best := None;
    for i := 0 to |models|
      invariant best.None? <==> forall m | m in models[..i] :: !Offers(m, family)
      invariant best.Some? ==> IsNewest(models[..i], family, best.value)
    {
      var m := models[i];
      assert models[..i + 1] == models[..i] + [m];
      if Offers(m, family) && (best.None? || PaddedNewer(m.version.value, best.value.version.value)) {
        forall o | o in models[..i] && Offers(o, family) ensures !PaddedNewer(o.version.value, m.version.value) {
          var top := best.value.version.value;
          NewerIsNotOlder(m.version.value, top);
          NotNewerTransitive(m.version.value, top, o.version.value);
        }
        NewerIsNotOlder(m.version.value, m.version.value);
        best := Some(m);
      }
    }
    assert models[..|models|] == models;
  }

  lemma NewerIsNotOlder(a: Version, b: Version)
    ensures !(PaddedNewer(a, b) && PaddedNewer(b, a))
    ensures !PaddedNewer(a, a)
  {
    LessTotal(Pad(a), Pad(b));
    LessTotal(Pad(a), Pad(a));
  }

  /** Something newer than the pin is offered, and then the newest of it. */
  method Drift(pin: Option<Version>, family: string, models: seq<Listed>) returns (newer: Option<Listed>)
    ensures newer.Some? <==>
            pin.Some? && exists m :: m in models && Offers(m, family) && PaddedNewer(m.version.value, pin.value)
    ensures newer.Some? ==> IsNewest(models, family, newer.value)
    ensures newer.Some? ==>
              && newer.value.visible && newer.value.supported && newer.value.family == family
              && newer.value.version.Some? && PaddedNewer(newer.value.version.value, pin.value)
  {
    var top := Newest(family, models);
    if pin.None? || top.None? {
      return None;
    }
    if PaddedNewer(top.value.version.value, pin.value) {
      return top;
    }
    forall m | m in models && Offers(m, family) ensures !PaddedNewer(m.version.value, pin.value) {
      NotNewerTransitive(pin.value, top.value.version.value, m.version.value);
    }
    newer := None;
  }
}
