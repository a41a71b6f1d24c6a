/** The routing decision matrix: one run record, changed by events, whose pick can
    be replayed from its history. */
module Lineup {
  import opened Options
  import opened Ranking

  datatype Considered = Considered(route: Route, kept: bool)
  datatype Retry = Retry(attempt: nat, route: Route)
  datatype Change = Change(from: Route, to: Route)

  datatype Record = Record(
    id: string,
    holder: Route,
    order: seq<string>,
    maxRetries: int,
    considered: seq<Considered>,
    picked: Option<Route>,
    retries: seq<Retry>,
    changes: seq<Change>,
    largerPool: seq<Route>,
    backups: seq<Route>)

  datatype Event = Begin | Failure | InsufficientCapability | HolderCannotContinue | Unknown

  // ---- Steps

  function Entries(ranked: seq<Route>): (s: seq<Considered>)
    ensures |s| == |ranked|
  {
    seq(|ranked|, i requires 0 <= i < |ranked| => Considered(ranked[i], ranked[i] == ranked[0]))
  }

  /** The top of the ranking is picked, and the whole ranking joins the history. */
  function WithPick(run: Record, ranked: seq<Route>): Record {
    run.(considered := run.considered + Entries(ranked), picked := if ranked == [] then None else Some(ranked[0]))
  }

  function WithRetry(run: Record): Record {
    if run.picked.None? then run else run.(retries := run.retries + [Retry(|run.retries| + 1, run.picked.value)])
  }

  predicate Tried(run: Record, model: string) {
    (run.picked.Some? && run.picked.value.model == model) || exists r :: r in run.retries && r.route.model == model
  }

  function Untried(run: Record, pool: seq<Route>): seq<Route> {
    if pool == [] then []
    else Untried(run, pool[..|pool| - 1]) + if Tried(run, pool[|pool| - 1].model) then [] else [pool[|pool| - 1]]
  }

  function RouteStep(c: Catalog, run: Record, e: Event, pool: seq<Route>): Record {
    match e
    case Begin => WithPick(run, Rank(c, run.order, pool))
    case Failure =>
      if |run.retries| < run.maxRetries then WithRetry(run)
      else WithPick(run, Rank(c, run.order, Untried(run, pool)))
    case InsufficientCapability =>
      var ranked := Rank(c, run.order, run.largerPool);
      if ranked == [] then run else WithPick(run, ranked)
    case HolderCannotContinue =>
      if run.backups == [] then run
      else run.(holder := run.backups[0], changes := run.changes + [Change(run.holder, run.backups[0])])
    case Unknown => run
  }

  function Steps(c: Catalog, run: Record, events: seq<(Event, seq<Route>)>): Record {
    if events == [] then run
    else
      var (e, pool) := events[|events| - 1];
      RouteStep(c, Steps(c, run, events[..|events| - 1]), e, pool)
  }

  predicate Fresh(run: Record) {
    run.considered == [] && run.picked.None? && run.retries == [] && run.changes == []
  }

  // ---- The loops

  method BuildPick(run: Record, ranked: seq<Route>) returns (r: Record)
    ensures r == WithPick(run, ranked)
  {
    var picked := if ranked == [] then None else Some(ranked[0]);
    var history := run.considered;
    for i := 0 to |ranked|
      invariant history == run.considered + Entries(ranked)[..i]
    {
      history := history + [Considered(ranked[i], Some(ranked[i]) == picked)];
      assert Entries(ranked)[..i + 1] == Entries(ranked)[..i] + [Entries(ranked)[i]];
    }
    assert Entries(ranked)[..|ranked|] == Entries(ranked);
    r := run.(considered := history, picked := picked);
  }

  method RemoveFailed(pool: seq<Route>, run: Record) returns (rest: seq<Route>)
    ensures rest == Untried(run, pool)
  {
    var failed: set<string> := {};
    for i := 0 to |run.retries|
      invariant forall m :: m in failed <==> exists r :: r in run.retries[..i] && r.route.model == m
    {
      assert run.retries[..i + 1] == run.retries[..i] + [run.retries[i]];
      failed := failed + {run.retries[i].route.model};
    }
    assert run.retries[..|run.retries|] == run.retries;
    if run.picked.Some? {
      failed := failed + {run.picked.value.model};
    }
    rest := [];
    for i := 0 to |pool|
      invariant rest == Untried(run, pool[..i])
    {
      assert pool[..i + 1][..i] == pool[..i];
      if pool[i].model !in failed {
        rest := rest + [pool[i]];
      }
    }
    assert pool[..|pool|] == pool;
  }

  // ---- Replay

  /** The last entry of the history that was kept. */
  function LastKept(history: seq<Considered>): Option<Route> {
    if history == [] then None
    else if history[|history| - 1].kept then Some(history[|history| - 1].route)
    else LastKept(history[..|history| - 1])
  }

  method ReplayPick(run: Record) returns (picked: Option<Route>)
    ensures picked == LastKept(run.considered)
  {
    picked := None;
    for i := 0 to |run.considered|
      invariant picked == LastKept(run.considered[..i])
    {
      assert run.considered[..i + 1][..i] == run.considered[..i];
      if run.considered[i].kept {
        picked := Some(run.considered[i].route);
      }
    }
    assert run.considered[..|run.considered|] == run.considered;
  }

  lemma {:induction false} LastKeptOn(history: seq<Considered>, more: seq<Considered>)
    ensures LastKept(history + more) == if LastKept(more).Some? then LastKept(more) else LastKept(history)
    decreases |more|
  {
    if more == [] {
      assert history + more == history;
    } else {
      LastKeptOn(history, more[..|more| - 1]);
      assert (history + more)[..|history + more| - 1] == history + more[..|more| - 1];
    }
  }

  lemma {:induction false} KeptIsTop(entries: seq<Considered>, top: Route)
    requires entries != [] && entries[0] == Considered(top, true)
    requires forall i | 0 <= i < |entries| :: entries[i].kept <==> entries[i].route == top
    ensures LastKept(entries) == Some(top)
    decreases |entries|
  {
    if |entries| > 1 {
      KeptIsTop(entries[..|entries| - 1], top);
    }
  }

  lemma PickIsKept(run: Record, ranked: seq<Route>)
    ensures ranked != [] ==> LastKept(WithPick(run, ranked).considered) == Some(ranked[0])
    ensures ranked == [] ==> WithPick(run, ranked).considered == run.considered
  {
    if ranked != [] {
      KeptIsTop(Entries(ranked), ranked[0]);
      LastKeptOn(run.considered, Entries(ranked));
    }
  }

  /** From a fresh record the history replays to the pick whenever there is one;
      without one, exactly when nothing was ever picked. */
  lemma {:induction false} ReplayIsPick(c: Catalog, run: Record, events: seq<(Event, seq<Route>)>)
    requires Fresh(run)
    ensures var r := Steps(c, run, events);
            && (r.picked.Some? ==> LastKept(r.considered) == r.picked)
            && (LastKept(r.considered) == r.picked <==> r.picked.Some? || forall x | x in r.considered :: !x.kept)
    decreases |events|
  {
    if events != [] {
      var (e, pool) := events[|events| - 1];
      var before := Steps(c, run, events[..|events| - 1]);
      ReplayIsPick(c, run, events[..|events| - 1]);
      match e {
        case Begin => PickIsKept(before, Rank(c, before.order, pool));
        case Failure => PickIsKept(before, Rank(c, before.order, Untried(before, pool)));
        case InsufficientCapability => PickIsKept(before, Rank(c, before.order, before.largerPool));
        case _ =>
      }
    }
    NoneKept(Steps(c, run, events).considered);
  }

  lemma {:induction false} NoneKept(history: seq<Considered>)
    ensures LastKept(history).None? <==> forall x | x in history :: !x.kept
  {
    if history != [] {
      var front, last := history[..|history| - 1], history[|history| - 1];
      NoneKept(front);
      assert history == front + [last];
    }
  }

  /** A later run out of candidates forgets the pick but not the history. */
  lemma EmptyPoolForgetsPick(c: Catalog, run: Record, route: Route)
    requires Fresh(run)
    ensures var r := Steps(c, run, [(Begin, [route]), (Begin, [])]);
            r.picked.None? && LastKept(r.considered) == Some(route)
  {
    var events := [(Begin, [route]), (Begin, [])];
    assert events[..1] == [(Begin, [route])] && events[..1][..0] == [];
    assert [route][..0] == [] && Rank(c, run.order, [route]) == [route];
    var once := Steps(c, run, events[..1]);
    assert Steps(c, run, events[..1][..0]) == run && events[..1][0] == (Begin, [route]);
    assert once == RouteStep(c, run, Begin, [route]) == WithPick(run, [route]);
    assert events[..2] == events && Steps(c, run, events) == WithPick(once, []);
    PickIsKept(run, [route]);
    PickIsKept(once, []);
  }

  // ---- What events may change

  /** The history, the retries and the authority changes only grow, retries stay
      within the rule, and only a holder that cannot continue gives way. */
  lemma StepGrows(c: Catalog, run: Record, e: Event, pool: seq<Route>)
    ensures var r := RouteStep(c, run, e, pool);
            && run.considered <= r.considered && run.retries <= r.retries && run.changes <= r.changes
            && |r.retries| <= |run.retries| + 1
            && (|r.retries| > |run.retries| ==> |r.retries| <= r.maxRetries && r.considered == run.considered)
            && (r.holder != run.holder ==> e == HolderCannotContinue)
            && (r.changes != run.changes ==>
                  e == HolderCannotContinue && r.changes == run.changes + [Change(run.holder, r.holder)])
            && r.id == run.id && r.order == run.order && r.maxRetries == run.maxRetries
            && r.largerPool == run.largerPool && r.backups == run.backups
  {}

  function HolderAfter(first: Route, changes: seq<Change>): Route {
    if changes == [] then first else changes[|changes| - 1].to
  }

  predicate Chained(first: Route, changes: seq<Change>) {
    forall i | 0 <= i < |changes| :: changes[i].from == HolderAfter(first, changes[..i])
  }

  /** At most `maxRetries` retries, numbered from 1, and changes of authority
      that form a chain from the first holder to the present one. */
  predicate Bounded(first: Record, r: Record) {
    && |r.retries| <= (if first.maxRetries < 0 then 0 else first.maxRetries)
    && (forall i | 0 <= i < |r.retries| :: r.retries[i].attempt == i + 1)
    && r.holder == HolderAfter(first.holder, r.changes) && Chained(first.holder, r.changes)
    && r.maxRetries == first.maxRetries && r.backups == first.backups
    && (r.changes != [] ==> first.backups != [] && r.holder == first.backups[0])
  }

  lemma StepKeepsBounds(c: Catalog, first: Record, r: Record, e: Event, pool: seq<Route>)
    requires Bounded(first, r)
    ensures Bounded(first, RouteStep(c, r, e, pool))
  {
    hide Rank, Untried, HolderAfter, Chained;
    if e == HolderCannotContinue && r.backups != [] {
      ChainGrows(first.holder, r.changes, Change(r.holder, r.backups[0]));
    }
  }

  lemma ChainGrows(first: Route, changes: seq<Change>, next: Change)
    requires Chained(first, changes) && next.from == HolderAfter(first, changes)
    ensures Chained(first, changes + [next]) && HolderAfter(first, changes + [next]) == next.to
  {
    assert forall i | 0 <= i <= |changes| :: (changes + [next])[..i] == changes[..i];
    hide HolderAfter;
    assert HolderAfter(first, changes + [next]) == next.to by { LastHolder(first, changes + [next]); }
  }

  lemma LastHolder(first: Route, changes: seq<Change>)
    requires changes != []
    ensures HolderAfter(first, changes) == changes[|changes| - 1].to
  {}

  lemma {:induction false} RunBounds(c: Catalog, run: Record, events: seq<(Event, seq<Route>)>)
    requires Fresh(run)
    ensures Bounded(run, Steps(c, run, events))
    decreases |events|
  {
    hide RouteStep, Bounded;
    if events != [] {
      var (e, pool) := events[|events| - 1];
      RunBounds(c, run, events[..|events| - 1]);
      StepKeepsBounds(c, run, Steps(c, run, events[..|events| - 1]), e, pool);
    } else {
      FreshIsBounded(run);
    }
  }

  lemma FreshIsBounded(run: Record)
    requires Fresh(run)
    ensures Bounded(run, run)
  {}

  lemma {:induction false} UntriedAreNew(run: Record, pool: seq<Route>)
    ensures forall r :: r in Untried(run, pool) <==> r in pool && !Tried(run, r.model)
  {
    if pool != [] {
      UntriedAreNew(run, pool[..|pool| - 1]);
      assert pool == pool[..|pool| - 1] + [pool[|pool| - 1]];
    }
  }

  /** The route's model is neither the last picked nor one that was retried. */
  predicate IsNew(run: Record, x: Route) {
    && (run.picked.Some? ==> run.picked.value.model != x.model)
    && forall i | 0 <= i < |run.retries| :: run.retries[i].route.model != x.model
  }

  /** None of the routes ranks before this one. */
  predicate IsFirst(c: Catalog, run: Record, pool: seq<Route>, x: Route) {
    x in pool && forall y | y in pool :: AtMost(c, run.order, x, y)
  }

  lemma PickIsFirst(c: Catalog, run: Record, pool: seq<Route>)
    ensures var r := WithPick(run, Rank(c, run.order, pool));
            && (r.picked.None? <==> pool == []) && (r.picked.Some? ==> IsFirst(c, run, pool, r.picked.value))
    ensures Rank(c, run.order, pool) == [] <==> pool == []
  {
    SameMembers(c, run.order, pool);
    var ranked := Rank(c, run.order, pool);
    hide AtMost, Rank;
    if ranked != [] {
      assert ranked[0] in ranked;
      TopIsLeast(c, run.order, ranked);
    }
    if pool != [] { assert pool[0] in ranked; }
  }

  /** What each event does.  A start picks the first of the pool; a failure retries the
      pick while retries are left; a missing capability picks the first of the larger
      pool, if there is one; a holder that cannot continue yields to the first backup. */
  lemma EventsDecide(c: Catalog, run: Record, pool: seq<Route>)
    ensures var r := RouteStep(c, run, Begin, pool);
            && (r.picked.None? <==> pool == []) && (r.picked.Some? ==> IsFirst(c, run, pool, r.picked.value))
            && r.holder == run.holder && r.retries == run.retries
    ensures |run.retries| < run.maxRetries ==>
              var r := RouteStep(c, run, Failure, pool);
              && r.picked == run.picked && r.holder == run.holder && r.considered == run.considered
              && (run.picked.Some? ==> r.retries == run.retries + [Retry(|run.retries| + 1, run.picked.value)])
    ensures var r := RouteStep(c, run, InsufficientCapability, pool);
            && r.holder == run.holder && r.retries == run.retries
            && (run.largerPool == [] ==> r == run)
            && (run.largerPool != [] ==> r.picked.Some? && IsFirst(c, run, run.largerPool, r.picked.value))
    ensures var r := RouteStep(c, run, HolderCannotContinue, pool);
            && r.picked == run.picked && r.retries == run.retries && r.considered == run.considered
            && (run.backups == [] ==> r == run)
            && (run.backups != [] ==> r.holder == run.backups[0] &&
                                      r.changes == run.changes + [Change(run.holder, run.backups[0])])
    ensures RouteStep(c, run, Unknown, pool) == run
  {
    PickIsFirst(c, run, pool);
    PickIsFirst(c, run, run.largerPool);
    hide Rank, IsFirst, Untried;
  }

  /** Once the retries are used up, a failure picks a route of the pool that was
      neither picked last nor retried, and one that no other such route beats. */
  lemma NewPickIsUntried(c: Catalog, run: Record, pool: seq<Route>)
    requires |run.retries| >= run.maxRetries
    ensures var r := RouteStep(c, run, Failure, pool);
            && (r.picked.None? <==> forall x | x in pool :: !IsNew(run, x))
            && (r.picked.Some? ==>
                  && r.picked.value in pool && IsNew(run, r.picked.value)
                  && forall x | x in pool && IsNew(run, x) :: AtMost(c, run.order, r.picked.value, x))
  {
    assert forall x: Route :: IsNew(run, x) <==> !Tried(run, x.model);
    var left := Untried(run, pool);
    UntriedAreNew(run, pool);
    SameMembers(c, run.order, left);
    var ranked := Rank(c, run.order, left);
    hide Tried, IsNew, AtMost, Untried, Rank;
    if ranked != [] {
      assert ranked[0] in ranked;
      TopIsLeast(c, run.order, ranked);
    } else {
      assert forall x | x in pool :: x !in left;
    }
  }

  lemma SameMembers(c: Catalog, order: seq<string>, pool: seq<Route>)
    ensures forall x :: x in Rank(c, order, pool) <==> x in pool
    ensures Sorted(c, order, Rank(c, order, pool))
  {
    RankSorts(c, order, pool);
    hide Rank, Sorted;
    assert forall x :: x in pool <==> x in multiset(pool);
    assert forall x :: x in Rank(c, order, pool) <==> x in multiset(Rank(c, order, pool));
  }

  lemma TopIsLeast(c: Catalog, order: seq<string>, s: seq<Route>)
    requires Sorted(c, order, s) && s != []
    ensures forall x | x in s :: AtMost(c, order, s[0], x)
  {
    AtMostIsTotal(c, order);
    hide AtMost;
  }

  /** The same event on the same record decides the same, however the pool's routes are listed. */
  lemma StepIgnoresPoolOrder(c: Catalog, run: Record, e: Event, pool: seq<Route>, other: seq<Route>)
    requires multiset(pool) == multiset(other) && DistinctModels(pool)
    ensures RouteStep(c, run, e, pool) == RouteStep(c, run, e, other)
  {
    PoolOrderIsNothing(c, run.order, pool, other);
    SameUntried(run, pool, other);
    UntriedDistinct(run, pool);
    PoolOrderIsNothing(c, run.order, Untried(run, pool), Untried(run, other));
    hide Rank, Untried, WithPick;
  }

  lemma SameUntried(run: Record, pool: seq<Route>, other: seq<Route>)
    requires multiset(pool) == multiset(other)
    ensures multiset(Untried(run, pool)) == multiset(Untried(run, other))
  {
    UntriedKeepsMultiset(run, pool);
    UntriedKeepsMultiset(run, other);
    hide Untried, Tried;
    assert forall x :: Kept(run, multiset(pool), x) == Kept(run, multiset(other), x);
  }

  ghost function Kept(run: Record, m: multiset<Route>, x: Route): nat {
    if Tried(run, x.model) then 0 else m[x]
  }

  lemma {:induction false} UntriedKeepsMultiset(run: Record, pool: seq<Route>)
    ensures forall x :: multiset(Untried(run, pool))[x] == Kept(run, multiset(pool), x)
  {
    if pool != [] {
      UntriedKeepsMultiset(run, pool[..|pool| - 1]);
      assert pool == pool[..|pool| - 1] + [pool[|pool| - 1]];
    }
  }

  lemma {:induction false} UntriedDistinct(run: Record, pool: seq<Route>)
    requires DistinctModels(pool)
    ensures DistinctModels(Untried(run, pool))
  {
    if pool != [] {
      var front, last := pool[..|pool| - 1], pool[|pool| - 1];
      UntriedDistinct(run, front);
      UntriedAreNew(run, front);
      forall r | r in Untried(run, front) ensures r.model != last.model {
        assert r in front;
      }
      assert forall i | 0 <= i < |Untried(run, front)| :: Untried(run, front)[i] in Untried(run, front);
    }
  }

  // ---- Stored records

  /** A line of the store.  A record lacks a key, or cannot be rebuilt for another
      reason, is `Broken`; its run id may be missing too. */
  datatype StoreLine = Blank | NotJson | Undecodable | NotObject | Whole(record: Record) | Broken(id: Option<string>)

  datatype LoadedRun = Found(record: Record) | Missing | Raised

  predicate Names(line: StoreLine, id: string) {
    (line.Whole? && line.record.id == id) || (line.Broken? && line.id == Some(id))
  }

  predicate Unreadable(line: StoreLine) {
    line.Undecodable? || line.NotObject?
  }

  /** Line i is the last of the run. */
  predicate IsLast(lines: seq<StoreLine>, id: string, i: int) {
    0 <= i < |lines| && Names(lines[i], id) && forall k | i < k < |lines| :: !Names(lines[k], id)
  }

  /** Read the whole store, None if there is none.  It raises exactly on a line that
      is no text or no object, wherever it stands, and on a last record of the run that cannot be rebuilt. */
  method LoadRunRecord(store: Option<seq<StoreLine>>, id: string) returns (r: LoadedRun)
    ensures store.None? ==> r.Missing?
    ensures store.Some? ==>
              (r.Raised? <==>
               || (exists line :: line in store.value && (line.Undecodable? || line.NotObject?))
               || (exists i :: IsLast(store.value, id, i) && store.value[i].Broken?))
    ensures r.Found? ==> exists i :: IsLast(store.value, id, i) && store.value[i] == Whole(r.record)
    ensures r.Missing? && store.Some? ==> forall line | line in store.value :: !Names(line, id)
    ensures r.Found? ==> r.record.id == id
    ensures forall i | store.Some? && 0 <= i < |store.value| ::
              store.value[i].Whole? && store.value[i].record.id == id ==>
              !r.Missing? &&
              (r.Found? && (forall k | i < k < |store.value| ::
                              && (store.value[k].Whole? ==> store.value[k].record.id != id)
                              && (store.value[k].Broken? ==> store.value[k].id != Some(id))) ==>
                 r.record == store.value[i].record)
  {
    if store.None? {
      return Missing;
    }
    var lines, last := store.value, None;
    for i := 0 to |lines|
      invariant forall line | line in lines[..i] :: !Unreadable(line)
      invariant last.None? ==> forall line | line in lines[..i] :: !Names(line, id)
      invariant last.Some? ==> exists k :: IsLast(lines[..i], id, k) && lines[k] == last.value
    {
      assert lines[..i + 1] == lines[..i] + [lines[i]] && lines[i] in lines;
      hide Names;
      match lines[i] {
        case Undecodable => return Raised;
        case NotObject => return Raised;
        case _ =>
      }
      if Names(lines[i], id) {
        last := Some(lines[i]);
        assert IsLast(lines[..i + 1], id, i);
      } else if last.Some? {
        ghost var k :| IsLast(lines[..i], id, k) && lines[k] == last.value;
        assert IsLast(lines[..i + 1], id, k);
      }
    }
    assert lines[..|lines|] == lines;
    if last.None? {
      return Missing;
    }
    ghost var k :| IsLast(lines, id, k) && lines[k] == last.value;
    OneLast(lines, id, k);
    return if last.value.Whole? then Found(last.value.record) else Raised;
  }

  lemma OneLast(lines: seq<StoreLine>, id: string, k: int)
    requires IsLast(lines, id, k)
    ensures forall i | IsLast(lines, id, i) :: i == k
  {
    hide Names;
  }
}
