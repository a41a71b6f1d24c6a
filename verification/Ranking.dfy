/** Ranking candidates: criteria in tie-break order, then the model id. */
module Ranking {
  import opened Options
  import opened Ordering

  datatype Route = Route(provider: string, model: string, tier: string, cmdKind: string)
  datatype Profile = Profile(costClass: string, ctxHint: Option<int>)

  type Catalog = map<string, Profile>

  function CostOf(costClass: string): int {
    if costClass == "free" then 0 else if costClass == "cheap" then 1
    else if costClass == "mid" then 2 else if costClass == "premium" then 3 else 999
  }

  function Criterion(c: Catalog, model: string, name: string): int {
    var p := if model in c then c[model] else Profile("", None);
    if name == "cost" then CostOf(p.costClass)
    else if name == "latency" then -(if p.ctxHint.Some? then p.ctxHint.value else 999999)
    else 0
  }

  function Criteria(c: Catalog, model: string, order: seq<string>): (k: seq<int>)
    ensures |k| == |order|
  {
    seq(|order|, i requires 0 <= i < |order| => Criterion(c, model, order[i]))
  }

  /** The criteria's values, then the model id.  All keys have as many criteria,
      so comparing the joined lists compares the tuples. */
  function Key(c: Catalog, order: seq<string>, r: Route): seq<int> {
    Criteria(c, r.model, order) + Codes(r.model)
  }

  /** Two routes have the same key exactly when they name the same model. */
  lemma KeyIsModel(c: Catalog, order: seq<string>, a: Route, b: Route)
    ensures Key(c, order, a) == Key(c, order, b) <==> a.model == b.model
  {
    if Key(c, order, a) == Key(c, order, b) {
      assert Key(c, order, a)[|order|..] == Codes(a.model);
      assert Key(c, order, b)[|order|..] == Codes(b.model);
      CodesInjective(a.model, b.model);
    }
  }

  predicate AtMost(c: Catalog, order: seq<string>, a: Route, b: Route) {
    !Less(Key(c, order, b), Key(c, order, a))
  }

  /** A total order, in which only routes of one model tie. */
  lemma AtMostIsTotal(c: Catalog, order: seq<string>)
    ensures forall x, y :: AtMost(c, order, x, y) || AtMost(c, order, y, x)
    ensures forall x, y :: AtMost(c, order, x, y) && AtMost(c, order, y, x) <==> x.model == y.model
    ensures forall x, y, z :: AtMost(c, order, x, y) && AtMost(c, order, y, z) ==> AtMost(c, order, x, z)
  {
    forall x, y
      ensures AtMost(c, order, x, y) || AtMost(c, order, y, x)
      ensures AtMost(c, order, x, y) && AtMost(c, order, y, x) <==> x.model == y.model
    {
      LessTotal(Key(c, order, x), Key(c, order, y));
      LessTotal(Key(c, order, y), Key(c, order, x));
      KeyIsModel(c, order, x, y);
    }
    forall x, y, z | AtMost(c, order, x, y) && AtMost(c, order, y, z) ensures AtMost(c, order, x, z) {
      AtMostTransitive(Key(c, order, x), Key(c, order, y), Key(c, order, z));
    }
  }

  lemma AtMostTransitive(a: seq<int>, b: seq<int>, c: seq<int>)
    requires !Less(b, a) && !Less(c, b)
    ensures !Less(c, a)
  {
    LessTotal(a, b);
    LessTotal(b, c);
    LessTotal(a, c);
    if a != b && b != c {
      LessTransitive(a, b, c);
    }
  }

  // ---- Sorting

  /** After every entry that does not have a greater key, so ties keep their order. */
  function Insert(c: Catalog, order: seq<string>, r: Route, s: seq<Route>): seq<Route> {
    if s == [] then [r]
    else if AtMost(c, order, s[|s| - 1], r) then s + [r]
    else Insert(c, order, r, s[..|s| - 1]) + [s[|s| - 1]]
  }

  function Rank(c: Catalog, order: seq<string>, pool: seq<Route>): seq<Route> {
    if pool == [] then [] else Insert(c, order, pool[|pool| - 1], Rank(c, order, pool[..|pool| - 1]))
  }

  predicate Sorted(c: Catalog, order: seq<string>, s: seq<Route>) {
    forall i, j | 0 <= i < j < |s| :: AtMost(c, order, s[i], s[j])
  }

  lemma {:induction false} InsertKeeps(c: Catalog, order: seq<string>, r: Route, s: seq<Route>)
    ensures multiset(Insert(c, order, r, s)) == multiset(s) + multiset{r}
  {
    if s != [] {
      hide AtMost;
      InsertKeeps(c, order, r, s[..|s| - 1]);
      assert s == s[..|s| - 1] + [s[|s| - 1]];
    }
  }

  lemma {:induction false} InsertSorts(c: Catalog, order: seq<string>, r: Route, s: seq<Route>)
    requires Sorted(c, order, s)
    ensures Sorted(c, order, Insert(c, order, r, s))
  {
    AtMostIsTotal(c, order);
    hide AtMost;
    if s != [] {
      var front, last := s[..|s| - 1], s[|s| - 1];
      if !AtMost(c, order, last, r) {
        InsertSorts(c, order, r, front);
        InsertKeeps(c, order, r, front);
        var t := Insert(c, order, r, front);
        forall i | 0 <= i < |t| ensures AtMost(c, order, t[i], last) {
          assert t[i] in multiset(t);
          assert t[i] == r || t[i] in front;
        }
      }
    }
  }

  /** Ranking gives back the pool's routes, every repetition included, in key order. */
  lemma {:induction false} RankSorts(c: Catalog, order: seq<string>, pool: seq<Route>)
    ensures multiset(Rank(c, order, pool)) == multiset(pool)
    ensures Sorted(c, order, Rank(c, order, pool))
  {
    hide AtMost, Sorted, Insert;
    if pool != [] {
      var front, last := pool[..|pool| - 1], pool[|pool| - 1];
      RankSorts(c, order, front);
      InsertSorts(c, order, last, Rank(c, order, front));
      InsertKeeps(c, order, last, Rank(c, order, front));
      assert pool == front + [last];
    } else {
      SortedNothing(c, order);
    }
  }

  lemma SortedNothing(c: Catalog, order: seq<string>)
    ensures Sorted(c, order, [])
  {}

  // ---- What comes first

  /** The criteria of two routes agree up to the k-th. */
  predicate TieUpTo(c: Catalog, order: seq<string>, a: Route, b: Route, k: nat)
    requires k <= |order|
  {
    forall m | 0 <= m < k :: Criterion(c, a.model, order[m]) == Criterion(c, b.model, order[m])
  }

  lemma {:induction false} LessDecides(x: seq<int>, y: seq<int>, k: nat)
    requires !Less(y, x) && k < |x| && k < |y| && x[..k] == y[..k]
    ensures x[k] <= y[k]
    decreases k
  {
    if k > 0 {
      assert x[0] == x[..k][0] == y[..k][0] == y[0];
      assert x[1..][..k - 1] == x[..k][1..] == y[..k][1..] == y[1..][..k - 1];
      LessDecides(x[1..], y[1..], k - 1);
    }
  }

  lemma {:induction false} LessAfterTie(x: seq<int>, u: seq<int>, v: seq<int>)
    ensures Less(x + u, x + v) == Less(u, v)
    decreases |x|
  {
    if x == [] {
      assert x + u == u && x + v == v;
    } else {
      assert (x + u)[1..] == x[1..] + u && (x + v)[1..] == x[1..] + v;
      LessAfterTie(x[1..], u, v);
    }
  }

  /** Of two routes the earlier ranked has at most the other's value of the first
      criterion on which they differ, and, where all agree, no later model id. */
  lemma EarlierIsAtMost(c: Catalog, order: seq<string>, pool: seq<Route>, i: nat, j: nat)
    requires i < j < |Rank(c, order, pool)|
    ensures var a, b := Rank(c, order, pool)[i], Rank(c, order, pool)[j];
            && (forall k | 0 <= k < |order| && TieUpTo(c, order, a, b, k) ::
                  Criterion(c, a.model, order[k]) <= Criterion(c, b.model, order[k]))
            && (TieUpTo(c, order, a, b, |order|) ==> !Before(b.model, a.model))
  {
    RankSorts(c, order, pool);
    var a, b := Rank(c, order, pool)[i], Rank(c, order, pool)[j];
    assert AtMost(c, order, a, b);
    var x, y := Criteria(c, a.model, order), Criteria(c, b.model, order);
    forall k | 0 <= k < |order| && TieUpTo(c, order, a, b, k)
      ensures Criterion(c, a.model, order[k]) <= Criterion(c, b.model, order[k])
    {
      assert Key(c, order, a)[..k] == x[..k] == y[..k] == Key(c, order, b)[..k];
      hide Criterion, Less;
      LessDecides(Key(c, order, a), Key(c, order, b), k);
    }
    if TieUpTo(c, order, a, b, |order|) {
      assert x == y;
      LessAfterTie(x, Codes(b.model), Codes(a.model));
    }
  }

  const CLASSES := ["free", "cheap", "mid", "premium"]

  function ClassOf(c: Catalog, model: string): string {
    if model in c then c[model].costClass else ""
  }

  /** The context size, which stands for the latency; a model without one is taken for a very large. */
  function HintOf(c: Catalog, model: string): int {
    if model in c && c[model].ctxHint.Some? then c[model].ctxHint.value else 999999
  }

  lemma ClassCosts(name: string)
    ensures forall m | 0 <= m < 4 && name == CLASSES[m] :: CostOf(name) == m
    ensures name !in CLASSES ==> CostOf(name) > 3
  {
    assert CLASSES[0] == "free" && CLASSES[1] == "cheap" && CLASSES[2] == "mid" && CLASSES[3] == "premium";
    assert CLASSES[0][0] == 'f' && CLASSES[1][0] == 'c' && CLASSES[2][0] == 'm' && CLASSES[3][0] == 'p';
  }

  /** Where cost comes first, free ranks before cheap, cheap before mid, mid before
      premium, and a model of no known class after all of them; where latency does, the larger context first. */
  lemma CheapestFirst(c: Catalog, order: seq<string>, pool: seq<Route>, i: nat, j: nat)
    requires order != [] && i < j < |Rank(c, order, pool)|
    ensures var a, b := Rank(c, order, pool)[i].model, Rank(c, order, pool)[j].model;
            && (order[0] == "cost" ==>
                  && (forall m, n | 0 <= m < 4 && 0 <= n < 4 ::
                        ClassOf(c, a) == CLASSES[m] && ClassOf(c, b) == CLASSES[n] ==> m <= n)
                  && (ClassOf(c, b) in CLASSES ==> ClassOf(c, a) in CLASSES))
            && (order[0] == "latency" ==> HintOf(c, a) >= HintOf(c, b))
  {
    var a, b := Rank(c, order, pool)[i], Rank(c, order, pool)[j];
    EarlierIsAtMost(c, order, pool, i, j);
    assert TieUpTo(c, order, a, b, 0);
    hide CLASSES, CostOf, Rank;
    ClassCosts(ClassOf(c, a.model));
    ClassCosts(ClassOf(c, b.model));
    FourClasses();
  }

  lemma FourClasses()
    ensures |CLASSES| == 4
  {}

  predicate DistinctModels(pool: seq<Route>) {
    forall i, j | 0 <= i < j < |pool| :: pool[i].model != pool[j].model
  }

  /** With distinct model ids the same routes rank the same, in whatever order they come. */
  lemma PoolOrderIsNothing(c: Catalog, order: seq<string>, pool: seq<Route>, other: seq<Route>)
    requires multiset(pool) == multiset(other) && DistinctModels(pool)
    ensures Rank(c, order, pool) == Rank(c, order, other)
  {
    RankSorts(c, order, pool);
    RankSorts(c, order, other);
    OneModelOneRoute(pool);
    var a, b := Rank(c, order, pool), Rank(c, order, other);
    assert forall x :: x in a <==> x in multiset(pool) && x in pool;
    SortedIsUnique(c, order, a, b);
  }

  ghost predicate Alone(s: seq<Route>) {
    forall x, y | x in multiset(s) && y in multiset(s) && x.model == y.model :: x == y
  }

  lemma OneModelOneRoute(s: seq<Route>)
    requires DistinctModels(s)
    ensures Alone(s)
  {
    forall x, y | x in multiset(s) && y in multiset(s) && x.model == y.model ensures x == y {
      assert x in s && y in s;
    }
  }

  /** The last of a sorted sequence is at least every route in it. */
  lemma LastIsGreatest(c: Catalog, order: seq<string>, s: seq<Route>, x: Route)
    requires Sorted(c, order, s) && x in multiset(s)
    ensures s != [] && AtMost(c, order, x, s[|s| - 1])
  {
    AtMostIsTotal(c, order);
    hide AtMost;
    assert x in s;
  }

  lemma WithoutLast(c: Catalog, order: seq<string>, s: seq<Route>)
    requires s != [] && Sorted(c, order, s)
    ensures var front := s[..|s| - 1];
            Sorted(c, order, front) && multiset(front) == multiset(s) - multiset{s[|s| - 1]}
              && s == front + [s[|s| - 1]]
    ensures s[|s| - 1] in multiset(s) && (Alone(s) ==> Alone(s[..|s| - 1]))
  {
    hide AtMost;
    assert s == s[..|s| - 1] + [s[|s| - 1]];
  }

  lemma LastsAgree(c: Catalog, order: seq<string>, a: seq<Route>, b: seq<Route>)
    requires a != [] && b != [] && Sorted(c, order, a) && Sorted(c, order, b) && multiset(a) == multiset(b) && Alone(a)
    ensures a[|a| - 1] == b[|b| - 1]
  {
    var x, y := a[|a| - 1], b[|b| - 1];
    WithoutLast(c, order, a);
    WithoutLast(c, order, b);
    LastIsGreatest(c, order, b, x);
    LastIsGreatest(c, order, a, y);
    AtMostIsTotal(c, order);
    hide AtMost, Sorted;
  }

  lemma {:induction false} SortedIsUnique(c: Catalog, order: seq<string>, a: seq<Route>, b: seq<Route>)
    requires Sorted(c, order, a) && Sorted(c, order, b) && multiset(a) == multiset(b) && Alone(a)
    ensures a == b
    decreases |a|
  {
    hide *;
    assert |a| == |multiset(a)| == |multiset(b)| == |b|;
    if a != [] {
      LastsAgree(c, order, a, b);
      WithoutLast(c, order, a);
      WithoutLast(c, order, b);
      SortedIsUnique(c, order, a[..|a| - 1], b[..|b| - 1]);
    }
  }
}
