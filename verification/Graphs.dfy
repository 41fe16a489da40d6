/**
 Directed graphs over node ids: cycles, topological orders, reachability, and the bookkeeping behind
 Kahn's algorithm. Parallel edges are allowed and counted.
 */
module Graphs {
  import opened Common

  datatype Edge = Edge(from: string, to: string)

  ghost predicate IsWalk(edges: seq<Edge>, p: seq<string>) {
    |p| >= 1 && forall i :: 0 < i < |p| ==> Edge(p[i - 1], p[i]) in edges
  }

  ghost predicate IsCycle(edges: seq<Edge>, p: seq<string>) {
    IsWalk(edges, p) && |p| >= 2 && p[0] == p[|p| - 1]
  }

  ghost predicate Acyclic(edges: seq<Edge>) {
    forall p :: !IsCycle(edges, p)
  }

  predicate NoDuplicates(s: seq<string>) {
    forall i, j :: 0 <= i < j < |s| ==> s[i] != s[j]
  }

  function Elements(s: seq<string>): set<string> { set x | x in s }

  ghost predicate Before(order: seq<string>, a: string, b: string) {
    exists i, j :: 0 <= i < j < |order| && order[i] == a && order[j] == b
  }

  /** Every node exactly once, and every edge pointing forward. */
  ghost predicate IsTopologicalOrder(nodes: set<string>, edges: seq<Edge>, order: seq<string>) {
    && NoDuplicates(order)
    && Elements(order) == nodes
    && forall e :: e in edges ==> Before(order, e.from, e.to)
  }

  lemma {:induction false} ElementCount(s: seq<string>)
    requires NoDuplicates(s)
    ensures |Elements(s)| == |s|
  {
    if s != [] {
      ElementCount(s[1..]);
      assert Elements(s) == {s[0]} + Elements(s[1..]);
    }
  }

  /** Along a walk, positions in a topological order strictly increase. */
  lemma {:induction false} WalksGoForward(nodes: set<string>, edges: seq<Edge>, order: seq<string>, p: seq<string>,
                                          k: nat)
    requires IsTopologicalOrder(nodes, edges, order) && IsWalk(edges, p) && 0 < k < |p|
    ensures Before(order, p[0], p[k])
  {
    assert Edge(p[k - 1], p[k]) in edges;
    assert Before(order, p[k - 1], p[k]);
    if k > 1 {
      WalksGoForward(nodes, edges, order, p, k - 1);
      var i, j :| 0 <= i < j < |order| && order[i] == p[0] && order[j] == p[k - 1];
      var a, b :| 0 <= a < b < |order| && order[a] == p[k - 1] && order[b] == p[k];
      assert a == j;
    }
  }

  lemma OrderExcludesCycles(nodes: set<string>, edges: seq<Edge>, order: seq<string>)
    requires IsTopologicalOrder(nodes, edges, order)
    ensures Acyclic(edges)
  {
    forall p ensures !IsCycle(edges, p) {
      if IsCycle(edges, p) { WalksGoForward(nodes, edges, order, p, |p| - 1); }
    }
  }

  ghost predicate HasPredecessorIn(edges: seq<Edge>, u: string, us: set<string>) {
    exists v :: v in us && Edge(v, u) in edges
  }

  lemma ExtendWalk(edges: seq<Edge>, us: set<string>, p: seq<string>, v: string)
    requires IsWalk(edges, p) && NoDuplicates(p) && Elements(p) <= us
    requires v in us && v !in p && Edge(v, p[0]) in edges
    ensures var q := [v] + p;
            IsWalk(edges, q) && NoDuplicates(q) && Elements(q) <= us && |q| <= |us|
  {
    var q := [v] + p;
    assert Elements(q) == {v} + Elements(p);
    ElementCount(q);
    SubsetSize(Elements(q), us);
  }

  lemma LoopBack(edges: seq<Edge>, p: seq<string>, k: nat)
    requires IsWalk(edges, p) && k < |p| && Edge(p[k], p[0]) in edges
    ensures IsCycle(edges, [p[k]] + p[..k + 1])
  {
    var q := [p[k]] + p[..k + 1];
    forall i | 0 < i < |q| ensures Edge(q[i - 1], q[i]) in edges {
      if i > 1 { assert q[i - 1] == p[i - 2] && q[i] == p[i - 1]; }
    }
  }

  /** Walking backwards inside a set that has no source must close a cycle. */
  lemma {:induction false} CloseCycle(edges: seq<Edge>, us: set<string>, p: seq<string>) returns (cycle: seq<string>)
    requires forall u :: u in us ==> HasPredecessorIn(edges, u, us)
    requires IsWalk(edges, p) && NoDuplicates(p) && Elements(p) <= us
    ensures IsCycle(edges, cycle)
    decreases |us| - |p|
  {
    assert p[0] in Elements(p);
    assert HasPredecessorIn(edges, p[0], us);
    var v :| v in us && Edge(v, p[0]) in edges;
    if v in p {
      var k :| 0 <= k < |p| && p[k] == v;
      LoopBack(edges, p, k);
      cycle := [v] + p[..k + 1];
    } else {
      ExtendWalk(edges, us, p, v);
      cycle := CloseCycle(edges, us, [v] + p);
    }
  }

  /** A non-empty set of nodes of an acyclic graph has a member with no predecessor in it. */
  lemma AcyclicHasSource(edges: seq<Edge>, us: set<string>) returns (u: string)
    requires Acyclic(edges) && us != {}
    ensures u in us && !HasPredecessorIn(edges, u, us)
  {
    if forall u :: u in us ==> HasPredecessorIn(edges, u, us) {
      u :| u in us;
      var cycle := CloseCycle(edges, us, [u]);
      assert false;
    } else {
      u :| u in us && !HasPredecessorIn(edges, u, us);
    }
  }

  // ---------------------------------------------------------------- Kahn's bookkeeping

  /** How many edges enter `n` from a node outside `done`. */
  function EdgesInto(edges: seq<Edge>, n: string, done: set<string>): nat {
    if edges == [] then 0
    else
      var e := edges[|edges| - 1];
      EdgesInto(edges[..|edges| - 1], n, done) + if e.to == n && e.from !in done then 1 else 0
  }

  /** The targets of the edges leaving `n`, in edge order. */
  function Targets(edges: seq<Edge>, n: string): seq<string> {
    if edges == [] then []
    else
      var e := edges[|edges| - 1];
      Targets(edges[..|edges| - 1], n) + if e.from == n then [e.to] else []
  }

  lemma {:induction false} FinishingANode(edges: seq<Edge>, n: string, done: set<string>, c: string)
    requires c !in done
    ensures EdgesInto(edges, n, done) == EdgesInto(edges, n, done + {c}) + multiset(Targets(edges, c))[n]
  {
    if edges != [] { FinishingANode(edges[..|edges| - 1], n, done, c); }
  }

  lemma {:induction false} NoEdgesInto(edges: seq<Edge>, n: string, done: set<string>)
    ensures EdgesInto(edges, n, done) == 0 <==> forall e :: e in edges && e.to == n ==> e.from in done
  {
    if edges != [] {
      NoEdgesInto(edges[..|edges| - 1], n, done);
      assert edges == edges[..|edges| - 1] + [edges[|edges| - 1]];
    }
  }

  lemma {:induction false} TargetsAreNodes(edges: seq<Edge>, n: string, nodes: set<string>)
    requires forall e :: e in edges ==> e.to in nodes
    ensures forall x :: x in Targets(edges, n) ==> x in nodes
  {
    if edges != [] { TargetsAreNodes(edges[..|edges| - 1], n, nodes); }
  }

  ghost predicate EdgesWithin(edges: seq<Edge>, nodes: set<string>) {
    forall e :: e in edges ==> e.from in nodes && e.to in nodes
  }

  /**
   The invariant of Kahn's loop while the targets in `left` of the node last moved to `order` are still
   to be visited: `remaining` counts unfinished in-edges, and exactly the nodes with none left have been
   queued or ordered.
   */
  ghost predicate Sorting(nodes: set<string>, edges: seq<Edge>, remaining: map<string, int>,
                          order: seq<string>, queue: seq<string>, left: seq<string>)
  {
    && remaining.Keys == nodes
    && NoDuplicates(order + queue)
    && Elements(order + queue) <= nodes
    && (forall x :: x in left ==> x in nodes)
    && CountsUnfinished(nodes, edges, remaining, Elements(order), left)
    && PlacedWhenFree(nodes, remaining, order + queue)
    && OrderedSoFar(edges, order)
  }

  ghost predicate PlacedWhenFree(nodes: set<string>, remaining: map<string, int>, placed: seq<string>)
    requires remaining.Keys == nodes
  {
    forall n :: n in nodes ==> (n in placed <==> remaining[n] == 0)
  }

  ghost predicate CountsUnfinished(nodes: set<string>, edges: seq<Edge>, remaining: map<string, int>,
                                   finished: set<string>, left: seq<string>)
    requires remaining.Keys == nodes
  {
    forall n :: n in nodes ==> remaining[n] == EdgesInto(edges, n, finished) + multiset(left)[n]
  }

  ghost predicate OrderedSoFar(edges: seq<Edge>, order: seq<string>) {
    forall e :: e in edges && e.to in order ==> Before(order, e.from, e.to)
  }

  lemma OrderOneMore(edges: seq<Edge>, order: seq<string>, c: string)
    requires OrderedSoFar(edges, order) && c !in order && EdgesInto(edges, c, Elements(order)) == 0
    ensures OrderedSoFar(edges, order + [c])
  {
    var next := order + [c];
    forall e | e in edges && e.to in next ensures Before(next, e.from, e.to) {
      if e.to in order {
        assert Before(order, e.from, e.to);
        var i, j :| 0 <= i < j < |order| && order[i] == e.from && order[j] == e.to;
        assert next[i] == e.from && next[j] == e.to;
      } else {
        NoEdgesInto(edges, c, Elements(order));
        assert e.from in Elements(order);
        var i :| 0 <= i < |order| && order[i] == e.from;
        assert next[i] == e.from && next[|order|] == e.to;
      }
    }
  }

  lemma SplitQueue(order: seq<string>, queue: seq<string>)
    requires queue != [] && NoDuplicates(order + queue)
    ensures (order + [queue[0]]) + queue[1..] == order + queue
    ensures queue[0] !in order && queue[0] in order + queue
    ensures Elements(order + [queue[0]]) == Elements(order) + {queue[0]}
  {
    assert (order + queue)[|order|] == queue[0];
    assert forall i :: 0 <= i < |order| ==> (order + queue)[i] == order[i];
  }

  lemma TakeNode(nodes: set<string>, edges: seq<Edge>, remaining: map<string, int>,
                 order: seq<string>, queue: seq<string>, left: seq<string>)
    requires EdgesWithin(edges, nodes)
    requires queue != [] && Sorting(nodes, edges, remaining, order, queue, [])
    requires multiset(left) == multiset(Targets(edges, queue[0]))
    ensures Sorting(nodes, edges, remaining, order + [queue[0]], queue[1..], left)
  {
    var c := queue[0];
    SplitQueue(order, queue);
    assert c in Elements(order + queue);
    OrderOneMore(edges, order, c);
    TargetsAreNodes(edges, c, nodes);
    forall x | x in left ensures x in nodes {
      assert x in multiset(left);
    }
    forall n | n in nodes
      ensures remaining[n] == EdgesInto(edges, n, Elements(order + [c])) + multiset(left)[n]
    {
      FinishingANode(edges, n, Elements(order), c);
    }
  }

  lemma CountOneLess(nodes: set<string>, edges: seq<Edge>, remaining: map<string, int>,
                     finished: set<string>, n: string, left: seq<string>)
    requires remaining.Keys == nodes && n in nodes
    requires CountsUnfinished(nodes, edges, remaining, finished, [n] + left)
    ensures remaining[n] > 0
    ensures CountsUnfinished(nodes, edges, remaining[n := remaining[n] - 1], finished, left)
  {
    assert multiset([n] + left) == multiset{n} + multiset(left);
  }

  lemma PlaceFreed(nodes: set<string>, remaining: map<string, int>, placed: seq<string>, n: string, next: seq<string>)
    requires remaining.Keys == nodes && n in nodes && remaining[n] > 0
    requires NoDuplicates(placed) && Elements(placed) <= nodes && PlacedWhenFree(nodes, remaining, placed)
    requires next == if remaining[n] == 1 then placed + [n] else placed
    ensures NoDuplicates(next) && Elements(next) <= nodes
    ensures PlacedWhenFree(nodes, remaining[n := remaining[n] - 1], next)
  {}

  lemma VisitTarget(nodes: set<string>, edges: seq<Edge>, remaining: map<string, int>,
                    order: seq<string>, queue: seq<string>, targets: seq<string>, i: nat)
    requires i < |targets| && Sorting(nodes, edges, remaining, order, queue, targets[i..])
    ensures var n := targets[i];
            && n in remaining
            && var less := remaining[n := remaining[n] - 1];
               Sorting(nodes, edges, less, order, if less[n] == 0 then queue + [n] else queue, targets[i + 1..])
  {
    var n, left := targets[i], targets[i + 1..];
    assert targets[i..] == [n] + left;
    VisitOne(nodes, edges, remaining, order, queue, n, left, remaining[n := remaining[n] - 1],
             if remaining[n] == 1 then queue + [n] else queue);
  }

  lemma VisitOne(nodes: set<string>, edges: seq<Edge>, remaining: map<string, int>,
                 order: seq<string>, queue: seq<string>, n: string, left: seq<string>,
                 less: map<string, int>, grown: seq<string>)
    requires Sorting(nodes, edges, remaining, order, queue, [n] + left) && n in nodes
    requires less == remaining[n := remaining[n] - 1]
    requires grown == if remaining[n] == 1 then queue + [n] else queue
    ensures Sorting(nodes, edges, less, order, grown, left)
  {
    CountOneLess(nodes, edges, remaining, Elements(order), n, left);
    assert order + (queue + [n]) == (order + queue) + [n];
    PlaceFreed(nodes, remaining, order + queue, n, order + grown);
    forall x | x in left ensures x in nodes { assert x in [n] + left; }
  }

  lemma UnorderedHaveNoSource(nodes: set<string>, edges: seq<Edge>, remaining: map<string, int>, order: seq<string>,
                              u: string)
    requires EdgesWithin(edges, nodes) && Sorting(nodes, edges, remaining, order, [], [])
    requires u in nodes && u !in order
    ensures HasPredecessorIn(edges, u, nodes - Elements(order))
  {
    assert order + [] == order;
    NoEdgesInto(edges, u, Elements(order));
    var e :| e in edges && e.to == u && e.from !in Elements(order);
    assert e == Edge(e.from, u);
  }

  lemma SourcelessSetHasCycle(edges: seq<Edge>, us: set<string>)
    requires us != {} && forall u :: u in us ==> HasPredecessorIn(edges, u, us)
    ensures exists p :: IsCycle(edges, p)
  {
    var u :| u in us;
    assert Elements([u]) == {u};
    var cycle := CloseCycle(edges, us, [u]);
  }

  lemma CompleteOrder(nodes: set<string>, edges: seq<Edge>, order: seq<string>)
    requires EdgesWithin(edges, nodes) && NoDuplicates(order) && Elements(order) == nodes
    requires OrderedSoFar(edges, order)
    ensures IsTopologicalOrder(nodes, edges, order) && Acyclic(edges)
  {
    forall e | e in edges ensures Before(order, e.from, e.to) {
      assert e.to in Elements(order);
    }
    OrderExcludesCycles(nodes, edges, order);
  }

  /** When the queue runs dry, either all nodes were ordered or the rest contain a cycle. */
  lemma QueueRanDry(nodes: set<string>, edges: seq<Edge>, remaining: map<string, int>, order: seq<string>)
    requires EdgesWithin(edges, nodes) && Sorting(nodes, edges, remaining, order, [], [])
    ensures |order| == |nodes| ==> IsTopologicalOrder(nodes, edges, order) && Acyclic(edges)
    ensures |order| != |nodes| ==> exists p :: IsCycle(edges, p)
  {
    assert order + [] == order;
    ElementCount(order);
    SubsetSize(Elements(order), nodes);
    var us := nodes - Elements(order);
    assert us + Elements(order) == nodes;
    if us == {} {
      CompleteOrder(nodes, edges, order);
    } else {
      forall x | x in us ensures HasPredecessorIn(edges, x, us) {
        UnorderedHaveNoSource(nodes, edges, remaining, order, x);
      }
      SourcelessSetHasCycle(edges, us);
    }
  }

  // ---------------------------------------------------------------- reachability

  ghost predicate Reachable(edges: seq<Edge>, a: string, b: string) {
    exists p :: IsWalk(edges, p) && p[0] == a && p[|p| - 1] == b
  }

  lemma ReachableStep(edges: seq<Edge>, a: string, b: string, c: string)
    requires Reachable(edges, a, b) && Edge(b, c) in edges
    ensures Reachable(edges, a, c)
  {
    var p :| IsWalk(edges, p) && p[0] == a && p[|p| - 1] == b;
    assert IsWalk(edges, p + [c]);
  }

  /** A set closed under edges keeps every walk that starts in it. */
  lemma {:induction false} ClosedSetKeepsWalks(edges: seq<Edge>, closed: set<string>, p: seq<string>)
    requires IsWalk(edges, p) && p[0] in closed
    requires forall e :: e in edges && e.from in closed ==> e.to in closed
    ensures p[|p| - 1] in closed
  {
    if |p| > 1 {
      assert Edge(p[0], p[1]) in edges;
      ClosedSetKeepsWalks(edges, closed, p[1..]);
    }
  }

  lemma {:induction false} TargetsAreEdges(edges: seq<Edge>, n: string)
    ensures forall x :: x in Targets(edges, n) <==> Edge(n, x) in edges
  {
    if edges != [] {
      TargetsAreEdges(edges[..|edges| - 1], n);
      assert edges == edges[..|edges| - 1] + [edges[|edges| - 1]];
    }
  }
}
