// Dependency graph over generated agents: Kahn's algorithm, transitive
// dependents and the strict construction the runner relies on.
module Graph {
  import opened Models
  import opened Ordering

  type Edges = map<Id, set<Id>>

  datatype DependencyGraph = DependencyGraph(nodes: seq<Id>, edges: Edges, reverse: Edges)

  datatype GraphError = DuplicateIds | UnresolvedDependencies | SelfDependency | DependencyCycle

  function Deps(e: Edges, n: Id): set<Id> {
    if n in e then e[n] else {}
  }

  // ---------------------------------------------------------------- reachability

  // b is reached from a by exactly k dependency edges.
  ghost predicate ReachesIn(e: Edges, a: Id, b: Id, k: nat)
    decreases k
  {
    if k == 0 then a == b
    else exists c :: c in Deps(e, a) && ReachesIn(e, c, b, k - 1)
  }

  // b is a transitive dependency of a.
  ghost predicate Reaches(e: Edges, a: Id, b: Id) {
    exists k: nat :: k > 0 && ReachesIn(e, a, b, k)
  }

  ghost predicate ReachesOrIs(e: Edges, a: Id, b: Id) {
    a == b || Reaches(e, a, b)
  }

  ghost predicate Acyclic(e: Edges) {
    forall n :: !Reaches(e, n, n)
  }

  lemma EdgeReaches(e: Edges, a: Id, b: Id)
    requires b in Deps(e, a)
    ensures Reaches(e, a, b)
  {
    assert ReachesIn(e, b, b, 0);
    assert ReachesIn(e, a, b, 1);
  }

  lemma {:induction false} ReachesInJoin(e: Edges, a: Id, b: Id, c: Id, j: nat, k: nat)
    requires ReachesIn(e, a, b, j) && ReachesIn(e, b, c, k)
    ensures ReachesIn(e, a, c, j + k)
    decreases j
  {
    if j > 0 {
      var d :| d in Deps(e, a) && ReachesIn(e, d, b, j - 1);
      ReachesInJoin(e, d, b, c, j - 1, k);
    }
  }

  lemma ReachesTransitive(e: Edges, a: Id, b: Id, c: Id)
    requires Reaches(e, a, b) && Reaches(e, b, c)
    ensures Reaches(e, a, c)
  {
    var j: nat :| j > 0 && ReachesIn(e, a, b, j);
    var k: nat :| k > 0 && ReachesIn(e, b, c, k);
    ReachesInJoin(e, a, b, c, j, k);
  }

  // Prepending an edge to a (possibly empty) dependency chain.
  lemma EdgeThenReaches(e: Edges, a: Id, b: Id, c: Id)
    requires b in Deps(e, a) && ReachesOrIs(e, b, c)
    ensures Reaches(e, a, c)
  {
    EdgeReaches(e, a, b);
    if b != c {
      ReachesTransitive(e, a, b, c);
    }
  }

  lemma FirstEdge(e: Edges, a: Id, c: Id) returns (b: Id)
    requires Reaches(e, a, c)
    ensures b in Deps(e, a) && ReachesOrIs(e, b, c)
  {
    var k: nat :| k > 0 && ReachesIn(e, a, c, k);
    b :| b in Deps(e, a) && ReachesIn(e, b, c, k - 1);
    if k > 1 {
      assert Reaches(e, b, c);
    }
  }

  // A set closed under dependencies keeps everything reached from inside it.
  lemma {:induction false} ClosedSetKeepsReach(e: Edges, s: set<Id>, a: Id, b: Id, k: nat)
    requires a in s && forall n :: n in s ==> Deps(e, n) <= s
    requires ReachesIn(e, a, b, k)
    ensures b in s
    decreases k
  {
    if k > 0 {
      var c :| c in Deps(e, a) && ReachesIn(e, c, b, k - 1);
      ClosedSetKeepsReach(e, s, c, b, k - 1);
    }
  }

  // ---------------------------------------------------------------- cycles

  // A node that no completion order can release: outside the node set, or on a cycle.
  ghost predicate Obstacle(nodes: set<Id>, e: Edges, m: Id) {
    m !in nodes || Reaches(e, m, m)
  }

  ghost function ReachSet(e: Edges, s: set<Id>, x: Id): set<Id> {
    set y | y in s && Reaches(e, x, y)
  }

  // Pigeonhole on a finite graph: where every node of s has a dependency that is
  // in s or outside the node set, every node of s leads to an obstacle.
  lemma {:induction false} ObstacleBelow(nodes: set<Id>, e: Edges, s: set<Id>, x: Id) returns (m: Id)
    requires x in s
    requires forall y :: y in s ==> exists d :: d in Deps(e, y) && (d in s || d !in nodes)
    ensures ReachesOrIs(e, x, m) && Obstacle(nodes, e, m)
    ensures m in s || m !in nodes
    decreases |ReachSet(e, s, x)|
  {
    if Reaches(e, x, x) {
      return x;
    }
    var d :| d in Deps(e, x) && (d in s || d !in nodes);
    EdgeReaches(e, x, d);
    if d !in nodes || Reaches(e, d, d) {
      return d;
    }
    forall y | y in ReachSet(e, s, d)
      ensures y in ReachSet(e, s, x)
    {
      ReachesTransitive(e, x, d, y);
    }
    assert ReachSet(e, s, d) <= ReachSet(e, s, x) - {d};
    SubsetCount(ReachSet(e, s, d), ReachSet(e, s, x) - {d});
    m := ObstacleBelow(nodes, e, s, d);
    EdgeThenReaches(e, x, d, m);
  }

  // ---------------------------------------------------------------- Kahn's algorithm

  function Free(nodes: set<Id>, e: Edges, done: set<Id>): set<Id> {
    set n | n in nodes && n !in done && Deps(e, n) <= done
  }

  // The order as a function: batches of free nodes, each batch sorted.
  function KahnOrder(nodes: set<Id>, e: Edges, done: set<Id>): (order: seq<Id>)
    decreases |nodes - done|
  {
    var free := Free(nodes, e, done);
    if free == {} then [] else
      SmallerRest(nodes, done, free);
      Sorted(free) + KahnOrder(nodes, e, done + free)
  }

  lemma SmallerRest(nodes: set<Id>, done: set<Id>, free: set<Id>)
    requires free != {} && free <= nodes - done
    ensures |nodes - (done + free)| < |nodes - done|
  {
    var x :| x in free;
    SubsetCount(nodes - (done + free), nodes - done - {x});
  }

  method Kahn(nodes: seq<Id>, e: Edges) returns (order: seq<Id>, cyclic: set<Id>)
    ensures order == KahnOrder(Elements(nodes), e, {})
    ensures cyclic == Elements(nodes) - Elements(order)
  {
    var remaining: Edges := map n | n in nodes :: Deps(e, n);
    order := [];
    ghost var all := Elements(nodes);
    assert remaining == map n | n in all :: Deps(e, n);
    ghost var done: set<Id> := {};
    PendingAtStart(all, e);
    while true
      invariant done <= all && done == Elements(order)
      invariant remaining == Pending(all, e, done)
      invariant order + KahnOrder(all, e, done) == KahnOrder(all, e, {})
      decreases |all - done|
    {
      var ready := Sorted(Unblocked(remaining));
      FreeIsPending(all, e, done);
      KahnBatch(all, e, done, order);
      if |ready| == 0 {
        break;
      }
      ElementsJoin(order, ready);
      order, remaining := EmitBatch(order, remaining, ready);
      remaining := Relieved(remaining, Elements(ready));
      PendingAfter(all, e, done, Elements(ready));
      done := done + Elements(ready);
    }
    PendingKeys(all, e, done);
    cyclic := remaining.Keys;
  }

  lemma KahnBatch(all: set<Id>, e: Edges, done: set<Id>, before: seq<Id>)
    ensures var free := Free(all, e, done); var ready := Sorted(free);
      && free <= all
      && (|ready| == 0 ==> before + KahnOrder(all, e, done) == before)
      && (|ready| > 0 ==> |all - (done + free)| < |all - done|)
      && (|ready| > 0 ==> before + KahnOrder(all, e, done) == before + ready + KahnOrder(all, e, done + free))
  {
    var free := Free(all, e, done);
    if free != {} {
      SmallerRest(all, done, free);
      AppendAssociates(before, Sorted(free), KahnOrder(all, e, done + free));
    }
  }

  lemma AppendAssociates<T>(a: seq<T>, b: seq<T>, c: seq<T>)
    ensures a + (b + c) == a + b + c
  {
  }

  lemma PendingKeys(all: set<Id>, e: Edges, done: set<Id>)
    ensures Pending(all, e, done).Keys == all - done
  {
  }

  // One batch leaves `remaining` and joins the order.
  method EmitBatch(before: seq<Id>, pending: Edges, ready: seq<Id>) returns (order: seq<Id>, remaining: Edges)
    ensures order == before + ready
    ensures remaining == pending - Elements(ready)
  {
    order, remaining := before, pending;
    for i := 0 to |ready|
      invariant order == before + ready[..i]
      invariant remaining == pending - Elements(ready[..i])
    {
      order := order + [ready[i]];
      ElementsJoin(ready[..i], [ready[i]]);
      assert ready[..i + 1] == ready[..i] + [ready[i]];
      remaining := remaining - {ready[i]};
    }
    assert ready[..|ready|] == ready;
  }

  function Unblocked(remaining: Edges): set<Id> {
    set n | n in remaining && remaining[n] == {}
  }

  function Relieved(remaining: Edges, batch: set<Id>): Edges {
    map n | n in remaining :: remaining[n] - batch
  }

  // What the algorithm's bookkeeping holds once `done` has been emitted.
  ghost function Pending(all: set<Id>, e: Edges, done: set<Id>): Edges {
    map n | n in all && n !in done :: Deps(e, n) - done
  }

  lemma PendingAtStart(all: set<Id>, e: Edges)
    ensures Pending(all, e, {}) == map n | n in all :: Deps(e, n)
  {
    forall n | n in all
      ensures Deps(e, n) - {} == Deps(e, n)
    {
    }
  }

  lemma FreeIsPending(all: set<Id>, e: Edges, done: set<Id>)
    ensures Unblocked(Pending(all, e, done)) == Free(all, e, done)
    ensures Elements(Sorted(Free(all, e, done))) == Free(all, e, done)
  {
    forall n | n in all && n !in done
      ensures Deps(e, n) - done == {} <==> Deps(e, n) <= done
    {
      assert Deps(e, n) <= done ==> Deps(e, n) - done == {};
      assert forall d :: d in Deps(e, n) && d !in done ==> d in Deps(e, n) - done;
    }
  }

  lemma PendingAfter(all: set<Id>, e: Edges, done: set<Id>, free: set<Id>)
    ensures Relieved(Pending(all, e, done) - free, free) == Pending(all, e, done + free)
  {
    forall n | n in all && n !in done && n !in free
      ensures Deps(e, n) - done - free == Deps(e, n) - (done + free)
    {
    }
  }

  lemma ElementsJoin<T>(a: seq<T>, b: seq<T>)
    ensures Elements(a + b) == Elements(a) + Elements(b)
    ensures |b| == 1 ==> Elements(b) == {b[0]}
  {
    forall x
      ensures x in Elements(a + b) <==> x in Elements(a) || x in Elements(b)
    {
      assert x in a + b <==> x in a || x in b;
    }
  }

  // Every element's dependencies appear before it.
  ghost predicate DependenciesFirst(order: seq<Id>, e: Edges, done: set<Id>) {
    forall i :: 0 <= i < |order| ==> Preceded(order, e, done, i)
  }

  ghost predicate Preceded(order: seq<Id>, e: Edges, done: set<Id>, i: nat)
    requires i < |order|
  {
    forall d :: d in Deps(e, order[i]) ==> d in done || Earlier(order, i, d)
  }

  ghost predicate Earlier(order: seq<Id>, i: nat, d: Id)
    requires i <= |order|
  {
    exists j :: 0 <= j < i && order[j] == d
  }

  lemma {:induction false} KahnOrderSound(nodes: set<Id>, e: Edges, done: set<Id>)
    ensures Distinct(KahnOrder(nodes, e, done))
    ensures Elements(KahnOrder(nodes, e, done)) <= nodes - done
    ensures DependenciesFirst(KahnOrder(nodes, e, done), e, done)
    ensures Free(nodes, e, done + Elements(KahnOrder(nodes, e, done))) == {}
    decreases |nodes - done|
  {
    var free := Free(nodes, e, done);
    var order := KahnOrder(nodes, e, done);
    if free == {} {
      assert done + Elements(order) == done;
    } else {
      SmallerRest(nodes, done, free);
      KahnOrderSound(nodes, e, done + free);
      JoinBatch(nodes, e, done, Sorted(free), KahnOrder(nodes, e, done + free));
    }
  }

  lemma JoinBatch(nodes: set<Id>, e: Edges, done: set<Id>, batch: seq<Id>, rest: seq<Id>)
    requires Ascending(batch) && Elements(batch) == Free(nodes, e, done)
    requires Distinct(rest) && Elements(rest) <= nodes - (done + Elements(batch))
    requires DependenciesFirst(rest, e, done + Elements(batch))
    ensures Distinct(batch + rest) && DependenciesFirst(batch + rest, e, done)
    ensures Elements(batch + rest) <= nodes - done
    ensures done + Elements(batch) + Elements(rest) == done + Elements(batch + rest)
  {
    var order := batch + rest;
    ElementsJoin(batch, rest);
    forall i, j | 0 <= i < j < |order|
      ensures order[i] != order[j]
    {
      if i < |batch| <= j {
        assert order[i] in Elements(batch) && order[j] in Elements(rest);
      }
    }
    forall i | 0 <= i < |order|
      ensures Preceded(order, e, done, i)
    {
      if i < |batch| {
        assert order[i] in Elements(batch);
      } else {
        assert Preceded(rest, e, done + Elements(batch), i - |batch|);
        forall d | d in Deps(e, order[i]) && d !in done
          ensures Earlier(order, i, d)
        {
          if d in Elements(batch) {
            var j :| 0 <= j < |batch| && batch[j] == d;
            assert order[j] == d;
          } else {
            var j :| 0 <= j < i - |batch| && rest[j] == d;
            assert order[|batch| + j] == d;
          }
        }
      }
    }
  }

  // Whatever an ordered node reaches is ordered strictly before it.
  lemma {:induction false} OrderedReach(order: seq<Id>, e: Edges, i: nat, m: Id, k: nat)
    requires DependenciesFirst(order, e, {}) && i < |order|
    requires k > 0 && ReachesIn(e, order[i], m, k)
    ensures Earlier(order, i, m)
    decreases k
  {
    var c :| c in Deps(e, order[i]) && ReachesIn(e, c, m, k - 1);
    assert Preceded(order, e, {}, i);
    var j :| 0 <= j < i && order[j] == c;
    if k > 1 {
      OrderedReach(order, e, j, m, k - 1);
    }
  }

  ghost predicate Stuck(nodes: set<Id>, e: Edges, n: Id) {
    exists m :: ReachesOrIs(e, n, m) && Obstacle(nodes, e, m)
  }

  // The order is duplicate free and topological, and the leftover nodes are
  // exactly those on a cycle, or leading to one, or to a name outside the graph.
  lemma KahnCorrect(nodes: set<Id>, e: Edges)
    ensures var order := KahnOrder(nodes, e, {});
      && Distinct(order)
      && DependenciesFirst(order, e, {})
      && (forall n :: n in order ==> n in nodes)
      && (forall n :: n in nodes ==> (n !in order <==> Stuck(nodes, e, n)))
  {
    var order := KahnOrder(nodes, e, {});
    KahnOrderSound(nodes, e, {});
    assert forall n :: n in order ==> n in Elements(order);
    var left := nodes - Elements(order);
    forall n | n in nodes
      ensures n !in order <==> Stuck(nodes, e, n)
    {
      if n in left {
        forall y | y in left
          ensures exists d :: d in Deps(e, y) && (d in left || d !in nodes)
        {
          assert y !in Free(nodes, e, {} + Elements(order));
          var d :| d in Deps(e, y) && d !in Elements(order);
        }
        var m := ObstacleBelow(nodes, e, left, n);
      } else {
        OrderedIsNotStuck(nodes, e, order, n);
      }
    }
  }

  lemma OrderedIsNotStuck(nodes: set<Id>, e: Edges, order: seq<Id>, n: Id)
    requires DependenciesFirst(order, e, {}) && Distinct(order) && (forall x :: x in order ==> x in nodes)
    requires n in order
    ensures !Stuck(nodes, e, n)
  {
    var i :| 0 <= i < |order| && order[i] == n;
    forall m | ReachesOrIs(e, n, m)
      ensures !Obstacle(nodes, e, m)
    {
      if m != n {
        var k: nat :| k > 0 && ReachesIn(e, n, m, k);
        OrderedReach(order, e, i, m, k);
      }
      assert m in order;
      var j :| 0 <= j < |order| && order[j] == m;
      if Reaches(e, m, m) {
        var k: nat :| k > 0 && ReachesIn(e, m, m, k);
        OrderedReach(order, e, j, m, k);
      }
    }
  }

  // ---------------------------------------------------------------- downstream

  // All transitive dependents of a node, as `downstream` collects them with a worklist.
  method Downstream(g: DependencyGraph, node: Id) returns (seen: set<Id>)
    ensures forall x :: x in seen <==> Reaches(g.reverse, node, x)
  {
    seen := {};
    var stack := [node];
    ghost var all := set n, d | n in g.reverse && d in g.reverse[n] :: d;
    while |stack| > 0
      invariant forall x :: x in seen ==> Reaches(g.reverse, node, x)
      invariant forall x :: x in stack ==> ReachesOrIs(g.reverse, node, x)
      invariant node in stack || Deps(g.reverse, node) <= seen
      invariant forall x :: x in seen ==> x in stack || Deps(g.reverse, x) <= seen
      invariant seen <= all
      decreases |all - seen|, |stack|
    {
      ghost var seen0, stack0 := seen, stack;
      var current := stack[|stack| - 1];
      stack := stack[..|stack| - 1];
      assert forall x :: x in stack0 ==> x == current || x in stack;
      assert current in stack0;
      assert forall d :: d in Deps(g.reverse, current) ==> d in all;
      seen, stack := PushUnseen(g.reverse, node, current, seen, stack);
      SeenGrows(all, seen0, seen);
    }
    ClosedSetHoldsReached(g.reverse, seen, node);
  }

  // What is left to be seen shrinks whenever something new is seen.
  lemma SeenGrows(all: set<Id>, before: set<Id>, after: set<Id>)
    requires before <= after <= all
    ensures before == after || |all - after| < |all - before|
  {
    if before != after {
      var newcomer :| newcomer in after && newcomer !in before;
      SubsetCount(all - after, all - before - {newcomer});
    }
  }

  lemma ClosedSetHoldsReached(e: Edges, s: set<Id>, node: Id)
    requires Deps(e, node) <= s && forall n :: n in s ==> Deps(e, n) <= s
    ensures forall x :: Reaches(e, node, x) ==> x in s
  {
    forall x | Reaches(e, node, x)
      ensures x in s
    {
      var b := FirstEdge(e, node, x);
      if b != x {
        var k: nat :| k > 0 && ReachesIn(e, b, x, k);
        ClosedSetKeepsReach(e, s, b, x, k);
      }
    }
  }

  // One turn of the worklist: the unseen dependents of `current` are seen and pushed.
  method PushUnseen(reverse: Edges, ghost node: Id, current: Id, seen0: set<Id>, stack0: seq<Id>)
      returns (seen: set<Id>, stack: seq<Id>)
    requires ReachesOrIs(reverse, node, current)
    ensures seen == seen0 + Deps(reverse, current)
    ensures seen == seen0 ==> stack == stack0
    ensures forall x :: x in stack <==> x in stack0 || (x in seen && x !in seen0)
    ensures forall x :: x in seen && x !in seen0 ==> Reaches(reverse, node, x)
  {
    seen, stack := seen0, stack0;
    var todo := Deps(reverse, current);
    while todo != {}
      invariant todo <= Deps(reverse, current)
      invariant seen == seen0 + (Deps(reverse, current) - todo)
      invariant seen == seen0 ==> stack == stack0
      invariant forall x :: x in stack <==> x in stack0 || (x in seen && x !in seen0)
      invariant forall x :: x in seen && x !in seen0 ==> Reaches(reverse, node, x)
      decreases todo
    {
      var dependent :| dependent in todo;
      todo := todo - {dependent};
      if dependent !in seen {
        ReachesOrIsThenEdge(reverse, node, current, dependent);
        seen := seen + {dependent};
        stack := stack + [dependent];
      }
    }
  }

  lemma ReachesOrIsThenEdge(e: Edges, a: Id, b: Id, c: Id)
    requires ReachesOrIs(e, a, b) && c in Deps(e, b)
    ensures Reaches(e, a, c)
  {
    EdgeReaches(e, b, c);
    if a != b {
      ReachesTransitive(e, a, b, c);
    }
  }

  // ---------------------------------------------------------------- converse edges

  ghost predicate Converse(e: Edges, r: Edges) {
    forall a, b :: b in Deps(e, a) <==> a in Deps(r, b)
  }

  lemma {:induction false} ConverseReachesIn(e: Edges, r: Edges, a: Id, b: Id, k: nat)
    requires Converse(e, r) && ReachesIn(e, a, b, k)
    ensures ReachesIn(r, b, a, k)
    decreases k
  {
    if k > 0 {
      var c :| c in Deps(e, a) && ReachesIn(e, c, b, k - 1);
      ConverseReachesIn(e, r, c, b, k - 1);
      assert a in Deps(r, c) && ReachesIn(r, a, a, 0);
      assert ReachesIn(r, c, a, 1);
      ReachesInJoin(r, b, c, a, k - 1, 1);
    }
  }

  // Dependents are exactly the nodes that transitively depend.
  lemma ConverseReaches(e: Edges, r: Edges, a: Id, b: Id)
    requires Converse(e, r)
    ensures Reaches(e, a, b) <==> Reaches(r, b, a)
  {
    if Reaches(e, a, b) {
      var k: nat :| k > 0 && ReachesIn(e, a, b, k);
      ConverseReachesIn(e, r, a, b, k);
    }
    if Reaches(r, b, a) {
      var k: nat :| k > 0 && ReachesIn(r, b, a, k);
      ConverseReachesIn(r, e, b, a, k);
    }
  }

  // ---------------------------------------------------------------- queries

  // Nodes whose every dependency is completed and that are not excluded.
  function Ready(g: DependencyGraph, completed: set<Id>, excluded: set<Id>): seq<Id> {
    Filter(g.nodes, n => n !in excluded && n !in completed && Deps(g.edges, n) <= completed)
  }

  // Nodes nothing depends on.
  function Leaves(g: DependencyGraph): seq<Id> {
    Filter(g.nodes, n => Deps(g.reverse, n) == {})
  }

  // A non-empty finite DAG has a node without dependents.
  lemma LeafExists(g: DependencyGraph)
    requires |g.nodes| > 0 && Acyclic(g.edges) && Converse(g.edges, g.reverse)
    requires forall n, d :: n in g.nodes && d in Deps(g.reverse, n) ==> d in g.nodes
    ensures Leaves(g) != []
  {
    var nodes := Elements(g.nodes);
    if Leaves(g) == [] {
      forall y | y in nodes
        ensures exists d :: d in Deps(g.reverse, y) && (d in nodes || d !in nodes)
      {
        assert y !in Leaves(g);
      }
      var m := ObstacleBelow(nodes, g.reverse, nodes, g.nodes[0]);
      if m !in nodes {
        var k: nat :| k > 0 && ReachesIn(g.reverse, g.nodes[0], m, k);
        ClosedSetKeepsReach(g.reverse, nodes, g.nodes[0], m, k);
      }
      ConverseReaches(g.edges, g.reverse, m, m);
    }
  }

  // ---------------------------------------------------------------- construction

  function IdSet(specs: seq<AgentSpec>): set<Id> {
    set i | 0 <= i < |specs| :: specs[i].id
  }

  function Ids(specs: seq<AgentSpec>): seq<Id> {
    seq(|specs|, i requires 0 <= i < |specs| => specs[i].id)
  }

  ghost predicate UniqueIds(specs: seq<AgentSpec>) {
    forall i, j :: 0 <= i < j < |specs| ==> specs[i].id != specs[j].id
  }

  ghost predicate Resolved(specs: seq<AgentSpec>) {
    forall i, d :: 0 <= i < |specs| && d in specs[i].dependencies ==> d in IdSet(specs)
  }

  ghost predicate NoSelfDependency(specs: seq<AgentSpec>) {
    forall i :: 0 <= i < |specs| ==> specs[i].id !in specs[i].dependencies
  }

  // The edges a list of specs stands for: references inside the list, without self loops.
  ghost function EdgeSet(specs: seq<AgentSpec>, n: Id): set<Id> {
    set d | d in IdSet(specs) && d != n &&
        exists i :: 0 <= i < |specs| && specs[i].id == n && d in specs[i].dependencies
  }

  ghost function EdgesOf(specs: seq<AgentSpec>): Edges {
    map n | n in IdSet(specs) :: EdgeSet(specs, n)
  }

  // What the runner needs of a team: the strict construction cannot raise on it.
  ghost predicate StrictOk(specs: seq<AgentSpec>) {
    UniqueIds(specs) && Resolved(specs) && NoSelfDependency(specs) && Acyclic(EdgesOf(specs))
  }

  function SpecEdges(spec: AgentSpec, ids: set<Id>): set<Id> {
    set d | d in spec.dependencies && d in ids && d != spec.id
  }

  lemma EdgesOfSpec(specs: seq<AgentSpec>, i: nat)
    requires UniqueIds(specs) && i < |specs|
    ensures specs[i].id in EdgesOf(specs)
    ensures EdgesOf(specs)[specs[i].id] == SpecEdges(specs[i], IdSet(specs))
  {
    var n := specs[i].id;
    assert n in IdSet(specs);
    forall d
      ensures d in EdgeSet(specs, n) <==> d in SpecEdges(specs[i], IdSet(specs))
    {
      if d in EdgeSet(specs, n) {
        var j :| 0 <= j < |specs| && specs[j].id == n && d in specs[j].dependencies;
        assert j == i;
      }
    }
  }

  method HasDuplicate(ids: seq<Id>) returns (r: bool)
    ensures r <==> !Distinct(ids)
  {
    var seen: set<Id> := {};
    for i := 0 to |ids|
      invariant Distinct(ids[..i])
      invariant seen == Elements(ids[..i])
    {
      if ids[i] in seen {
        var j :| 0 <= j < i && ids[j] == ids[i];
        return true;
      }
      assert ids[..i + 1] == ids[..i] + [ids[i]];
      ElementsJoin(ids[..i], [ids[i]]);
      seen := seen + {ids[i]};
    }
    assert ids[..|ids|] == ids;
    r := false;
  }

  method BuildEdges(specs: seq<AgentSpec>) returns (edges: Edges)
    requires UniqueIds(specs)
    ensures edges == EdgesOf(specs)
  {
    var ids := IdSet(specs);
    edges := map[];
    for i := 0 to |specs|
      invariant edges.Keys == IdSet(specs[..i])
      invariant forall k :: 0 <= k < i ==> specs[k].id in edges && edges[specs[k].id] == SpecEdges(specs[k], ids)
    {
      edges := edges[specs[i].id := SpecEdges(specs[i], ids)];
      IdSetSnoc(specs[..i], specs[i]);
      assert specs[..i + 1] == specs[..i] + [specs[i]];
    }
    assert specs[..|specs|] == specs;
    forall n | n in edges
      ensures n in EdgesOf(specs) && edges[n] == EdgesOf(specs)[n]
    {
      var k :| 0 <= k < |specs| && specs[k].id == n;
      EdgesOfSpec(specs, k);
    }
  }

  lemma IdSetSnoc(specs: seq<AgentSpec>, s: AgentSpec)
    ensures IdSet(specs + [s]) == IdSet(specs) + {s.id}
  {
    var t := specs + [s];
    forall n
      ensures n in IdSet(t) <==> n in IdSet(specs) || n == s.id
    {
      if n in IdSet(specs) {
        var k :| 0 <= k < |specs| && specs[k].id == n;
        assert t[k].id == n;
      }
      assert t[|specs|].id == s.id;
    }
  }

  // The loop that turns "depends on" into "is depended on by".
  method ReverseEdges(nodes: set<Id>, edges: Edges) returns (reverse: Edges)
    requires edges.Keys == nodes
    requires forall n :: n in edges ==> edges[n] <= nodes
    ensures reverse.Keys == nodes
    ensures Converse(edges, reverse)
  {
    reverse := map n | n in nodes :: {};
    var todo := edges.Keys;
    ghost var visited: set<Id> := {};
    while todo != {}
      invariant todo <= nodes && reverse.Keys == nodes && visited == nodes - todo
      invariant forall b :: b in nodes ==> reverse[b] == Sources(edges, visited, b)
    {
      var node :| node in todo;
      ghost var before := reverse;
      todo := todo - {node};
      reverse := AddDependent(reverse, node, edges[node]);
      forall b | b in nodes
        ensures reverse[b] == Sources(edges, visited + {node}, b)
      {
        SourcesGrow(edges, visited, node, b);
        assert before[b] == Sources(edges, visited, b);
      }
      visited := visited + {node};
    }
    ReverseConverse(nodes, edges, reverse);
  }

  lemma ReverseConverse(nodes: set<Id>, edges: Edges, reverse: Edges)
    requires edges.Keys == nodes && reverse.Keys == nodes
    requires forall n :: n in edges ==> edges[n] <= nodes
    requires forall b :: b in nodes ==> reverse[b] == Sources(edges, nodes, b)
    ensures Converse(edges, reverse)
  {
    forall a, b
      ensures b in Deps(edges, a) <==> a in Deps(reverse, b)
    {
      if a in nodes && b in Deps(edges, a) {
        assert b in nodes;
      }
    }
  }

  method AddDependent(before: Edges, node: Id, deps: set<Id>) returns (reverse: Edges)
    requires deps <= before.Keys
    ensures reverse.Keys == before.Keys
    ensures forall b :: b in before ==> reverse[b] == if b in deps then before[b] + {node} else before[b]
  {
    reverse := before;
    var todo := deps;
    while todo != {}
      invariant todo <= deps && reverse.Keys == before.Keys
      invariant forall b :: b in before ==> reverse[b] == if b in deps && b !in todo then before[b] + {node}
          else before[b]
    {
      var dep :| dep in todo;
      todo := todo - {dep};
      reverse := reverse[dep := reverse[dep] + {node}];
    }
  }

  // The visited nodes that depend on b.
  ghost function Sources(edges: Edges, visited: set<Id>, b: Id): set<Id> {
    set a | a in visited && b in Deps(edges, a)
  }

  lemma SourcesGrow(edges: Edges, visited: set<Id>, node: Id, b: Id)
    ensures Sources(edges, visited + {node}, b)
         == if b in Deps(edges, node) then Sources(edges, visited, b) + {node} else Sources(edges, visited, b)
  {
  }

  method BuildGraph(specs: seq<AgentSpec>, strict: bool) returns (r: Result<DependencyGraph, GraphError>)
    ensures r == Err(DuplicateIds) <==> !UniqueIds(specs)
    ensures r == Err(UnresolvedDependencies) <==> strict && UniqueIds(specs) && !Resolved(specs)
    ensures r == Err(SelfDependency) <==>
              strict && UniqueIds(specs) && Resolved(specs) && !NoSelfDependency(specs)
    ensures r.Ok? <==> UniqueIds(specs) && (strict ==> StrictOk(specs))
    ensures r.Ok? ==>
      && r.value.nodes == Ids(specs)
      && r.value.edges == EdgesOf(specs)
      && r.value.reverse.Keys == IdSet(specs)
      && Converse(r.value.edges, r.value.reverse)
  {
    var ids := Ids(specs);
    var duplicate := HasDuplicate(ids);
    if duplicate {
      return Err(DuplicateIds);
    }
    assert UniqueIds(specs) by {
      forall i, j | 0 <= i < j < |specs|
        ensures specs[i].id != specs[j].id
      {
        assert ids[i] != ids[j];
      }
    }
    if strict {
      if i, d :| 0 <= i < |specs| && d in specs[i].dependencies && d !in IdSet(specs) {
        return Err(UnresolvedDependencies);
      }
    }
    var edges := BuildEdges(specs);
    if strict {
      if i :| 0 <= i < |specs| && specs[i].id in specs[i].dependencies {
        return Err(SelfDependency);
      }
    }
    var reverse := ReverseEdges(IdSet(specs), edges);
    var graph := DependencyGraph(ids, edges, reverse);
    if strict {
      var order, cyclic := Kahn(graph.nodes, graph.edges);
      KahnDecidesAcyclic(specs);
      if cyclic != {} {
        return Err(DependencyCycle);
      }
    }
    r := Ok(graph);
  }

  lemma IdsListIdSet(specs: seq<AgentSpec>)
    ensures Elements(Ids(specs)) == IdSet(specs)
  {
    var ids := Ids(specs);
    forall n
      ensures n in ids <==> n in IdSet(specs)
    {
      if n in IdSet(specs) {
        var i :| 0 <= i < |specs| && specs[i].id == n;
        assert ids[i] == n;
      }
    }
  }

  // No leftover exactly when there is no cycle: inside a built graph every edge stays inside.
  lemma KahnDecidesAcyclic(specs: seq<AgentSpec>)
    ensures Elements(Ids(specs)) == IdSet(specs)
    ensures IdSet(specs) - Elements(KahnOrder(IdSet(specs), EdgesOf(specs), {})) == {} <==> Acyclic(EdgesOf(specs))
  {
    var nodes, e := IdSet(specs), EdgesOf(specs);
    IdsListIdSet(specs);
    KahnCorrect(nodes, e);
    var order := KahnOrder(nodes, e, {});
    if Acyclic(e) {
      forall n | n in nodes
        ensures n in order
      {
        AcyclicIsNotStuck(specs, n);
      }
    } else {
      var n :| Reaches(e, n, n);
      var d := FirstEdge(e, n, n);
      assert n in nodes && Obstacle(nodes, e, n) && ReachesOrIs(e, n, n);
    }
  }

  lemma AcyclicIsNotStuck(specs: seq<AgentSpec>, n: Id)
    requires Acyclic(EdgesOf(specs)) && n in IdSet(specs)
    ensures !Stuck(IdSet(specs), EdgesOf(specs), n)
  {
    var nodes, e := IdSet(specs), EdgesOf(specs);
    forall m | ReachesOrIs(e, n, m)
      ensures !Obstacle(nodes, e, m)
    {
      if n != m {
        var k: nat :| k > 0 && ReachesIn(e, n, m, k);
        ClosedSetKeepsReach(e, nodes, n, m, k);
      }
    }
  }

  // ---------------------------------------------------------------- parts of a team

  lemma {:induction false} FilterUnique(specs: seq<AgentSpec>, p: AgentSpec -> bool)
    requires UniqueIds(specs)
    ensures UniqueIds(Filter(specs, p))
  {
    if |specs| > 0 {
      var t := specs[..|specs| - 1];
      FilterUnique(t, p);
      forall x | x in Filter(t, p)
        ensures x.id != specs[|specs| - 1].id
      {
        var k :| 0 <= k < |t| && t[k] == x;
      }
    }
  }

  lemma InSpecs(specs: seq<AgentSpec>, n: Id)
    ensures n in IdSet(specs) <==> exists s :: s in specs && s.id == n
  {
    if n in IdSet(specs) {
      var i :| 0 <= i < |specs| && specs[i].id == n;
      assert specs[i] in specs;
    }
    if s :| s in specs && s.id == n {
      var i :| 0 <= i < |specs| && specs[i] == s;
    }
  }

  lemma {:induction false} SubgraphReach(e: Edges, f: Edges, a: Id, b: Id, k: nat)
    requires forall n :: Deps(e, n) <= Deps(f, n)
    requires ReachesIn(e, a, b, k)
    ensures ReachesIn(f, a, b, k)
    decreases k
  {
    if k > 0 {
      var c :| c in Deps(e, a) && ReachesIn(e, c, b, k - 1);
      SubgraphReach(e, f, c, b, k - 1);
    }
  }

  lemma SubgraphAcyclic(e: Edges, f: Edges)
    requires Acyclic(f) && forall n :: Deps(e, n) <= Deps(f, n)
    ensures Acyclic(e)
  {
    forall n
      ensures !Reaches(e, n, n)
    {
      if Reaches(e, n, n) {
        var k: nat :| k > 0 && ReachesIn(e, n, n, k);
        SubgraphReach(e, f, n, n, k);
        assert Reaches(f, n, n);
      }
    }
  }

  // A part of a team has no edges the team does not have.
  lemma PartEdges(specs: seq<AgentSpec>, part: seq<AgentSpec>)
    requires forall s :: s in part ==> s in specs
    ensures IdSet(part) <= IdSet(specs)
    ensures forall n :: Deps(EdgesOf(part), n) <= Deps(EdgesOf(specs), n)
  {
    forall n | n in IdSet(part)
      ensures n in IdSet(specs)
    {
      InSpecs(part, n);
      InSpecs(specs, n);
    }
    forall n
      ensures Deps(EdgesOf(part), n) <= Deps(EdgesOf(specs), n)
    {
      forall d | d in EdgeSet(part, n)
        ensures d in EdgeSet(specs, n)
      {
        var i :| 0 <= i < |part| && part[i].id == n && d in part[i].dependencies;
        assert part[i] in part;
        var k :| 0 <= k < |specs| && specs[k] == part[i];
        assert specs[k].id == n && d in specs[k].dependencies;
      }
    }
  }

  lemma PartCycle(specs: seq<AgentSpec>, part: seq<AgentSpec>, n: Id)
    requires forall s :: s in part ==> s in specs
    requires Reaches(EdgesOf(part), n, n)
    ensures n in IdSet(part) && Reaches(EdgesOf(specs), n, n)
  {
    PartEdges(specs, part);
    var d := FirstEdge(EdgesOf(part), n, n);
    var k: nat :| k > 0 && ReachesIn(EdgesOf(part), n, n, k);
    SubgraphReach(EdgesOf(part), EdgesOf(specs), n, n, k);
  }

  ghost predicate ClosedPart(part: seq<AgentSpec>) {
    forall s :: s in part ==> s.id !in s.dependencies && forall d :: d in s.dependencies ==> d in IdSet(part)
  }

  lemma ClosedPartResolved(part: seq<AgentSpec>)
    requires ClosedPart(part)
    ensures Resolved(part) && NoSelfDependency(part)
  {
    assert forall i :: 0 <= i < |part| ==> part[i] in part;
  }

  // A part of a team that keeps each member's dependencies is itself a closed DAG.
  lemma PartStrict(specs: seq<AgentSpec>, part: seq<AgentSpec>)
    requires StrictOk(specs) && UniqueIds(part)
    requires forall s :: s in part ==> s in specs
    requires forall s, d :: s in part && d in s.dependencies ==> d in IdSet(part)
    ensures StrictOk(part)
  {
    PartEdges(specs, part);
    SubgraphAcyclic(EdgesOf(part), EdgesOf(specs));
    forall s | s in part
      ensures s.id !in s.dependencies
    {
      var k :| 0 <= k < |specs| && specs[k] == s;
    }
    ClosedPartResolved(part);
  }
}
