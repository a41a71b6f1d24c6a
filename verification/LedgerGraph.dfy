/** Parent pointers of the ledger: depth, and cost rolled up per root.  Parents
    may be missing from the ledger, and chains of parents may run in circles. */
module LedgerGraph {
  import opened Options

  type Id = string

  datatype Node = Node(parent: Option<Id>, calls: Option<int>, seconds: Option<real>)

  type Nodes = map<Id, Node>

  // ---- Depth

  /** The next node id up; a chain also stops at an empty id. */
  function Hop(nodes: Nodes, id: Id): Option<Id> {
    if id != "" && id in nodes then nodes[id].parent else None
  }

  /** The id k hops up, if the chain is that long. */
  function Up(nodes: Nodes, id: Id, k: nat): Option<Id> {
    if k == 0 then Some(id)
    else
      var below := Up(nodes, id, k - 1);
      if below.None? then None else Hop(nodes, below.value)
  }

  /** A chain that meets an id twice never ends. */
  lemma {:induction false} Circles(nodes: Nodes, id: Id, i: nat, j: nat, k: nat)
    requires i < j && Up(nodes, id, j).Some? && Up(nodes, id, i) == Up(nodes, id, j)
    ensures Up(nodes, id, k).Some?
    decreases k
  {
    if k > j {
      Circles(nodes, id, i, j, k - (j - i));
      Shifts(nodes, id, i, j, k - j);
    } else {
      Shorter(nodes, id, k, j);
    }
  }

  lemma {:induction false} Shifts(nodes: Nodes, id: Id, i: nat, j: nat, n: nat)
    requires Up(nodes, id, i) == Up(nodes, id, j)
    ensures Up(nodes, id, i + n) == Up(nodes, id, j + n)
  {
    if n > 0 {
      Shifts(nodes, id, i, j, n - 1);
    }
  }

  lemma {:induction false} Shorter(nodes: Nodes, id: Id, k: nat, j: nat)
    requires k <= j && Up(nodes, id, j).Some?
    ensures Up(nodes, id, k).Some?
    decreases j
  {
    if k < j {
      Shorter(nodes, id, k, j - 1);
    }
  }

  /** The number of hops to the end of the chain, or 2 when it never ends; it
      exceeds 1 exactly when the parent has a parent of its own. */
  method ComputeDepth(nodes: Nodes, id: Id) returns (depth: nat)
    ensures (Up(nodes, id, depth).Some? && Up(nodes, id, depth + 1).None?) ||
            (depth == 2 && forall k: nat :: Up(nodes, id, k).Some?)
    ensures depth > 1 <==> Up(nodes, id, 2).Some?
    ensures id == "" || id !in nodes || nodes[id].parent.None? ==> depth == 0
    ensures id != "" && id in nodes && nodes[id].parent == Some("") ==> depth == 1
  {
    assert Hop(nodes, "").None? && Up(nodes, id, 0) == Some(id) && Up(nodes, id, 1) == Hop(nodes, id);
    depth := 0;
    var current := id;
    var seen: set<Id> := {};
    while current != "" && current in nodes
      invariant Up(nodes, id, depth) == Some(current)
      invariant seen <= nodes.Keys
      invariant forall x | x in seen :: exists i: nat :: i < depth && Up(nodes, id, i) == Some(x)
      decreases nodes.Keys - seen
    {
      if current in seen {
        var i: nat :| i < depth && Up(nodes, id, i) == Some(current);
        hide Up;
        forall k: nat ensures Up(nodes, id, k).Some? {
          Circles(nodes, id, i, depth, k);
        }
        return 2;
      }
      assert current in nodes.Keys - seen;
      seen := seen + {current};
      if nodes[current].parent.None? {
        DepthSettles(nodes, id, depth);
        return;
      }
      depth, current := depth + 1, nodes[current].parent.value;
    }
    DepthSettles(nodes, id, depth);
  }

  lemma DepthSettles(nodes: Nodes, id: Id, depth: nat)
    requires Up(nodes, id, depth).Some? && Up(nodes, id, depth + 1).None?
    ensures depth > 1 <==> Up(nodes, id, 2).Some?
  {
    if depth > 1 {
      Shorter(nodes, id, 2, depth);
    } else if Up(nodes, id, 2).Some? {
      Shorter(nodes, id, depth + 1, 2);
    }
  }

  // ---- Roll-up

  datatype Cost = Cost(calls: int, seconds: real)

  const NOTHING := Cost(0, 0.0)

  function Plus(a: Cost, b: Cost): Cost {
    Cost(a.calls + b.calls, a.seconds + b.seconds)
  }

  function Own(n: Node): Cost {
    Cost(if n.calls.Some? then n.calls.value else 0, if n.seconds.Some? then n.seconds.value else 0.0)
  }

  /** The summed cost of a set of nodes. */
  ghost function Sum(nodes: Nodes, ids: set<Id>): Cost
    requires ids <= nodes.Keys
  {
    if ids == {} then NOTHING else
      var id :| id in ids;
      Plus(Own(nodes[id]), Sum(nodes, ids - {id}))
  }

  lemma PlusLaws(a: Cost, b: Cost, c: Cost)
    ensures Plus(a, Plus(b, c)) == Plus(b, Plus(a, c)) == Plus(Plus(a, b), c)
    ensures Plus(NOTHING, a) == a
  {}

  /** A node may be taken out first, whichever it is. */
  lemma {:induction false} SumSplits(nodes: Nodes, ids: set<Id>, id: Id)
    requires ids <= nodes.Keys && id in ids
    ensures Sum(nodes, ids) == Plus(Own(nodes[id]), Sum(nodes, ids - {id}))
    decreases |ids|
  {
    hide Plus, Own;
    var picked :| picked in ids && Sum(nodes, ids) == Plus(Own(nodes[picked]), Sum(nodes, ids - {picked}));
    if picked != id {
      var rest := ids - {picked} - {id};
      SumSplits(nodes, ids - {picked}, id);
      SumSplits(nodes, ids - {id}, picked);
      assert ids - {id} - {picked} == rest;
      PlusLaws(Own(nodes[picked]), Own(nodes[id]), Sum(nodes, rest));
    }
  }

  /** Each further node adds its calls and its seconds, where it has them. */
  lemma SumAdds(nodes: Nodes, ids: set<Id>, id: Id)
    requires ids <= nodes.Keys && id in nodes && id !in ids
    ensures var n := nodes[id];
            && Sum(nodes, ids + {id}).calls == Sum(nodes, ids).calls + (if n.calls.Some? then n.calls.value else 0)
            && Sum(nodes, ids + {id}).seconds ==
               Sum(nodes, ids).seconds + (if n.seconds.Some? then n.seconds.value else 0.0)
            && Sum(nodes, {}) == Cost(0, 0.0)
  {
    SumSplits(nodes, ids + {id}, id);
    assert ids + {id} - {id} == ids;
  }

  lemma {:induction false} SumOfBoth(nodes: Nodes, a: set<Id>, b: set<Id>)
    requires a <= nodes.Keys && b <= nodes.Keys && a !! b
    ensures Sum(nodes, a + b) == Plus(Sum(nodes, a), Sum(nodes, b))
    decreases |a|
  {
    hide Plus, Own;
    if a == {} {
      assert a + b == b;
      PlusLaws(Sum(nodes, b), NOTHING, NOTHING);
    } else {
      var id :| id in a;
      SumSplits(nodes, a, id);
      SumSplits(nodes, a + b, id);
      SumOfBoth(nodes, a - {id}, b);
      assert a + b - {id} == (a - {id}) + b;
      PlusLaws(Own(nodes[id]), Sum(nodes, a - {id}), Sum(nodes, b));
    }
  }

  /** The chain of parents from `id` ends, after k hops inside the ledger, at the root. */
  predicate EndsAt(nodes: Nodes, id: Id, root: Id, k: nat)
    decreases k
  {
    id in nodes &&
    if k == 0 then id == root && nodes[id].parent.None?
    else nodes[id].parent.Some? && EndsAt(nodes, nodes[id].parent.value, root, k - 1)
  }

  ghost predicate Under(nodes: Nodes, id: Id, root: Id) {
    exists k: nat :: EndsAt(nodes, id, root, k)
  }

  ghost function Tree(nodes: Nodes, root: Id): set<Id> {
    set id | id in nodes && Under(nodes, id, root)
  }

  function Roots(nodes: Nodes): set<Id> {
    set id | id in nodes && nodes[id].parent.None?
  }

  lemma ChildIsUnder(nodes: Nodes, child: Id, id: Id, root: Id)
    requires child in nodes && nodes[child].parent == Some(id) && Under(nodes, id, root)
    ensures Under(nodes, child, root)
  {
    var k: nat :| EndsAt(nodes, id, root, k);
    assert EndsAt(nodes, child, root, k + 1);
  }

  /** Everything under the root is in a set that holds the root and the children of its members. */
  lemma {:induction false} ClosedHoldsTree(nodes: Nodes, root: Id, ids: set<Id>, id: Id, k: nat)
    requires root in ids && EndsAt(nodes, id, root, k)
    requires forall child | child in nodes && nodes[child].parent.Some? && nodes[child].parent.value in ids ::
               child in ids
    ensures id in ids
    decreases k
  {
    if k > 0 {
      ClosedHoldsTree(nodes, root, ids, nodes[id].parent.value, k - 1);
    }
  }

  predicate IsChild(nodes: Nodes, child: Id, id: Id) {
    child in nodes && nodes[child].parent == Some(id)
  }

  /** Push every child of the node that was not visited. */
  method PushChildren(nodes: Nodes, id: Id, visited: set<Id>, stack: seq<Id>) returns (r: seq<Id>)
    ensures |r| >= |stack| && r[..|stack|] == stack
    ensures forall x :: x in r[|stack|..] <==> IsChild(nodes, x, id) && x !in visited
  {
    r := stack;
    var todo := nodes.Keys;
    while todo != {}
      invariant todo <= nodes.Keys && |r| >= |stack| && r[..|stack|] == stack
      invariant forall x :: x in r[|stack|..] <==> IsChild(nodes, x, id) && x !in visited && x !in todo
      decreases |todo|
    {
      var other :| other in todo;
      todo := todo - {other};
      if nodes[other].parent == Some(id) && other !in visited {
        assert (r + [other])[|stack|..] == r[|stack|..] + [other];
        r := r + [other];
      }
    }
  }

  /** Between two visits: what is visited is under the root, what is still to
      visit is on the stack. */
  ghost predicate Walking(nodes: Nodes, root: Id, visited: set<Id>, stack: seq<Id>) {
    && visited <= Tree(nodes, root)
    && (forall x | x in stack :: Under(nodes, x, root))
    && (root in visited || root in stack)
    && (forall child, id | id in visited && IsChild(nodes, child, id) :: child in visited || child in stack)
  }

  lemma VisitKeepsWalking(nodes: Nodes, root: Id, visited: set<Id>, stack: seq<Id>, id: Id, stack': seq<Id>)
    requires Walking(nodes, root, visited, stack + [id]) && id in nodes
    requires |stack'| >= |stack| && stack'[..|stack|] == stack
    requires forall x :: x in stack'[|stack|..] <==> IsChild(nodes, x, id) && x !in visited + {id}
    ensures Walking(nodes, root, visited + {id}, stack')
  {
    var pushed := stack'[|stack|..];
    assert stack' == stack + pushed;
    assert id in stack + [id];
    assert forall x :: x in stack + [id] <==> x in stack || x == id;
    assert forall x :: x in stack' <==> x in stack || x in pushed;
    forall x | x in pushed ensures Under(nodes, x, root) {
      ChildIsUnder(nodes, x, id, root);
    }
  }

  lemma SkipKeepsWalking(nodes: Nodes, root: Id, visited: set<Id>, stack: seq<Id>, id: Id)
    requires Walking(nodes, root, visited, stack + [id]) && (id in visited || id !in nodes)
    ensures Walking(nodes, root, visited, stack)
  {
    StackIsInside(nodes, root, visited, stack, id);
    assert forall x :: x in stack + [id] <==> x in stack || x == id;
  }

  lemma WalkedAll(nodes: Nodes, root: Id, visited: set<Id>)
    requires Walking(nodes, root, visited, [])
    ensures visited == Tree(nodes, root)
  {
    forall id | id in Tree(nodes, root) ensures id in visited {
      var k: nat :| EndsAt(nodes, id, root, k);
      assert forall child | child in nodes && nodes[child].parent.Some? && nodes[child].parent.value in visited ::
          IsChild(nodes, child, nodes[child].parent.value);
      ClosedHoldsTree(nodes, root, visited, id, k);
    }
  }

  /** The depth-first walk of one root adds up exactly the nodes whose chain ends there. */
  method RollupRoot(nodes: Nodes, root: Id) returns (total: Cost)
    requires root in Roots(nodes)
    ensures total == Sum(nodes, Tree(nodes, root))
  {
    hide *;
    total := NOTHING;
    var visited: set<Id> := {};
    var stack := [root];
    WalkStarts(nodes, root);
    while stack != []
      invariant visited <= nodes.Keys && total == Sum(nodes, visited)
      invariant Walking(nodes, root, visited, stack)
      decreases nodes.Keys - visited, |stack|
    {
      var id := stack[|stack| - 1];
      assert stack == stack[..|stack| - 1] + [id];
      stack := stack[..|stack| - 1];
      if id in visited || id !in nodes {
        SkipKeepsWalking(nodes, root, visited, stack, id);
        continue;
      }
      var more := visited + {id};
      assert id in nodes.Keys - visited;
      SumSplits(nodes, more, id);
      assert more - {id} == visited;
      ghost var popped := stack;
      stack := PushChildren(nodes, id, more, stack);
      VisitKeepsWalking(nodes, root, visited, popped, id, stack);
      visited, total := more, Plus(Own(nodes[id]), total);
    }
    WalkedAll(nodes, root, visited);
  }

  lemma WalkStarts(nodes: Nodes, root: Id)
    requires root in Roots(nodes)
    ensures Walking(nodes, root, {}, [root]) && Sum(nodes, {}) == NOTHING
  {
    assert EndsAt(nodes, root, root, 0);
  }

  lemma StackIsInside(nodes: Nodes, root: Id, visited: set<Id>, stack: seq<Id>, id: Id)
    requires Walking(nodes, root, visited, stack + [id])
    ensures id in nodes
  {
    assert id in stack + [id];
    var k: nat :| EndsAt(nodes, id, root, k);
  }

  method Rollup(nodes: Nodes) returns (result: map<Id, Cost>)
    ensures result.Keys == Roots(nodes)
    ensures forall root | root in result :: result[root] == Sum(nodes, Tree(nodes, root))
  {
    result := map[];
    var todo := Roots(nodes);
    while todo != {}
      invariant todo <= Roots(nodes) && result.Keys == Roots(nodes) - todo
      invariant forall root | root in result :: result[root] == Sum(nodes, Tree(nodes, root))
      decreases |todo|
    {
      var root :| root in todo;
      var total := RollupRoot(nodes, root);
      result := result[root := total];
      todo := todo - {root};
    }
  }

  // ---- The totals add up

  /** A chain of parents ends at one root at most. */
  lemma {:induction false} OneRoot(nodes: Nodes, id: Id, a: Id, i: nat, b: Id, j: nat)
    requires EndsAt(nodes, id, a, i) && EndsAt(nodes, id, b, j)
    ensures a == b && i == j && a in Roots(nodes)
    decreases i
  {
    if i > 0 && j > 0 {
      OneRoot(nodes, nodes[id].parent.value, a, i - 1, b, j - 1);
    }
  }

  ghost function Trees(nodes: Nodes, roots: set<Id>): set<Id> {
    set id | id in nodes && exists root | root in roots :: Under(nodes, id, root)
  }

  ghost function TotalOf(result: map<Id, Cost>, roots: set<Id>): Cost
    requires roots <= result.Keys
  {
    if roots == {} then NOTHING else
      var root :| root in roots;
      Plus(result[root], TotalOf(result, roots - {root}))
  }

  /** The roots' totals add up to the cost of all nodes whose chain ends at a
      root: none is counted twice, and none on a circle or under a missing parent is counted. */
  lemma {:induction false} TotalsAddUp(nodes: Nodes, result: map<Id, Cost>, roots: set<Id>)
    requires roots <= result.Keys
    requires forall root | root in roots :: result[root] == Sum(nodes, Tree(nodes, root))
    ensures TotalOf(result, roots) == Sum(nodes, Trees(nodes, roots))
    decreases |roots|
  {
    if roots == {} {
      assert Trees(nodes, roots) == {};
    } else {
      var root :| root in roots && TotalOf(result, roots) == Plus(result[root], TotalOf(result, roots - {root}));
      var rest := roots - {root};
      TotalsAddUp(nodes, result, rest);
      TreesApart(nodes, root, rest);
      assert roots == {root} + rest;
      hide Tree, Trees, Sum, Plus;
      SumOfBoth(nodes, Tree(nodes, root), Trees(nodes, rest));
    }
  }

  lemma TreesApart(nodes: Nodes, root: Id, rest: set<Id>)
    requires root !in rest
    ensures Tree(nodes, root) <= nodes.Keys && Trees(nodes, rest) <= nodes.Keys
    ensures Tree(nodes, root) !! Trees(nodes, rest)
    ensures Tree(nodes, root) + Trees(nodes, rest) == Trees(nodes, {root} + rest)
  {
    forall id | id in Tree(nodes, root) ensures id !in Trees(nodes, rest) {
      var i: nat :| EndsAt(nodes, id, root, i);
      if id in Trees(nodes, rest) {
        var other :| other in rest && Under(nodes, id, other);
        var j: nat :| EndsAt(nodes, id, other, j);
        OneRoot(nodes, id, root, i, other, j);
      }
    }
    hide Under;
  }
}
