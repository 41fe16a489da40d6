/** The deterministic execution order of the portable orchestration profile. */
module StableTopology {
  import opened Common
  import opened Graphs
  import DagValidator
  import StableSorts

  // ---------------------------------------------------------------- ordering ids

  ghost predicate Ascending(s: seq<string>) {
    forall i, j :: 0 <= i < j < |s| ==> Leq(s[i], s[j])
  }

  /** `sorted`. */
  function Sorted(s: seq<string>): (r: seq<string>)
    ensures multiset(r) == multiset(s)
  {
    StableSorts.SortKeepsItems(s, Leq);
    StableSorts.Sort(s, Leq)
  }

  lemma SortedIsAscending(s: seq<string>)
    ensures Ascending(Sorted(s))
  {
    forall a, b ensures Leq(a, b) || Leq(b, a) { LeqTotal(a, b); }
    forall a, b, c | Leq(a, b) && Leq(b, c) ensures Leq(a, c) { LeqTransitive(a, b, c); }
    StableSorts.SortRefines(s, Leq, (_, _) => true);
  }

  // ---------------------------------------------------------------- the dependency graph

  datatype PlanNode = PlanNode(id: string, dependsOn: seq<string>)

  function EdgesTo(id: string, deps: seq<string>): seq<Edge> {
    if deps == [] then [] else EdgesTo(id, deps[..|deps| - 1]) + [Edge(deps[|deps| - 1], id)]
  }

  /** One edge per listed dependency; a dependency listed twice gives two edges. */
  function DependencyEdges(nodes: seq<PlanNode>): seq<Edge> {
    if nodes == [] then []
    else
      var n := nodes[|nodes| - 1];
      DependencyEdges(nodes[..|nodes| - 1]) + EdgesTo(n.id, n.dependsOn)
  }

  function Ids(nodes: seq<PlanNode>): set<string> { set n | n in nodes :: n.id }

  predicate Depends(nodes: seq<PlanNode>, a: string, b: string) {
    exists n :: n in nodes && n.id == b && a in n.dependsOn
  }

  lemma {:induction false} EdgesToMeans(id: string, deps: seq<string>)
    ensures forall e :: e in EdgesTo(id, deps) <==> e.to == id && e.from in deps
  {
    if deps != [] {
      EdgesToMeans(id, deps[..|deps| - 1]);
      assert deps == deps[..|deps| - 1] + [deps[|deps| - 1]];
      assert forall e: Edge :: e == Edge(e.from, e.to);
    }
  }

  lemma {:induction false} DependencyEdgesMean(nodes: seq<PlanNode>)
    ensures forall e :: e in DependencyEdges(nodes) <==> Depends(nodes, e.from, e.to)
  {
    if nodes != [] {
      var n := nodes[|nodes| - 1];
      DependencyEdgesMean(nodes[..|nodes| - 1]);
      EdgesToMeans(n.id, n.dependsOn);
      assert nodes == nodes[..|nodes| - 1] + [n];
      assert forall m :: m in nodes <==> m in nodes[..|nodes| - 1] || m == n;
    }
  }

  ghost predicate DependenciesKnown(nodes: seq<PlanNode>) {
    forall n, d :: n in nodes && d in n.dependsOn ==> d in Ids(nodes)
  }

  lemma KnownMeansWithin(nodes: seq<PlanNode>)
    ensures DependenciesKnown(nodes) <==> EdgesWithin(DependencyEdges(nodes), Ids(nodes))
  {
    DependencyEdgesMean(nodes);
    if EdgesWithin(DependencyEdges(nodes), Ids(nodes)) {
      forall n, d | n in nodes && d in n.dependsOn ensures d in Ids(nodes) {
        assert Depends(nodes, d, n.id);
        assert Edge(d, n.id) in DependencyEdges(nodes);
      }
    }
  }

  // ---------------------------------------------------------------- greedy is least

  /** `n` is not ordered yet and everything it depends on is. */
  ghost predicate IsReady(nodes: set<string>, edges: seq<Edge>, done: seq<string>, n: string) {
    n in nodes && n !in done && forall e :: e in edges && e.to == n ==> e.from in done
  }

  ghost predicate PicksLeast(nodes: set<string>, edges: seq<Edge>, order: seq<string>, i: nat)
    requires i < |order|
  {
    forall n :: IsReady(nodes, edges, order[..i], n) ==> Leq(order[i], n)
  }

  /** Every position holds the least id that was ready there. */
  ghost predicate Greedy(nodes: set<string>, edges: seq<Edge>, order: seq<string>) {
    forall i :: 0 <= i < |order| ==> PicksLeast(nodes, edges, order, i)
  }

  /** `a` comes before `b` in the lexicographic order of sequences of ids. */
  ghost predicate Precedes(a: seq<string>, b: seq<string>) {
    exists i :: 0 <= i < |a| && i < |b| && a[..i] == b[..i] && a[i] != b[i] && Leq(a[i], b[i])
  }

  lemma FirstDifference(a: seq<string>, b: seq<string>) returns (i: nat)
    requires |a| == |b| && a != b
    ensures i < |a| && a[..i] == b[..i] && a[i] != b[i]
  {
    i := 0;
    while a[i] == b[i]
      invariant i < |a| && a[..i] == b[..i]
      invariant exists k :: i <= k < |a| && a[k] != b[k]
      decreases |a| - i
    {
      i := i + 1;
    }
  }

  lemma OrderMemberIsReady(nodes: set<string>, edges: seq<Edge>, order: seq<string>, i: nat)
    requires IsTopologicalOrder(nodes, edges, order) && i < |order|
    ensures IsReady(nodes, edges, order[..i], order[i])
  {
    assert order[i] in Elements(order);
    forall e | e in edges && e.to == order[i] ensures e.from in order[..i] {
      assert Before(order, e.from, e.to);
      var a, b :| 0 <= a < b < |order| && order[a] == e.from && order[b] == e.to;
      assert b == i && order[..i][a] == e.from;
    }
  }

  /** The greedy order precedes every other topological order. */
  lemma GreedyIsLeast(nodes: set<string>, edges: seq<Edge>, order: seq<string>, other: seq<string>)
    requires IsTopologicalOrder(nodes, edges, order) && Greedy(nodes, edges, order)
    requires IsTopologicalOrder(nodes, edges, other) && other != order
    ensures Precedes(order, other)
  {
    ElementCount(order);
    ElementCount(other);
    var i := FirstDifference(order, other);
    OrderMemberIsReady(nodes, edges, other, i);
    assert PicksLeast(nodes, edges, order, i);
  }

  lemma ReadyIsQueued(nodes: set<string>, edges: seq<Edge>, remaining: map<string, int>,
                      order: seq<string>, queue: seq<string>, n: string)
    requires Sorting(nodes, edges, remaining, order, queue, []) && IsReady(nodes, edges, order, n)
    ensures n in queue
  {
    NoEdgesInto(edges, n, Elements(order));
    assert n in order + queue;
  }

  lemma ExtendGreedy(nodes: set<string>, edges: seq<Edge>, remaining: map<string, int>,
                     order: seq<string>, queue: seq<string>)
    requires Sorting(nodes, edges, remaining, order, queue, []) && queue != [] && Ascending(queue)
    requires Greedy(nodes, edges, order)
    ensures Greedy(nodes, edges, order + [queue[0]])
  {
    var next := order + [queue[0]];
    forall i | 0 <= i < |next| ensures PicksLeast(nodes, edges, next, i) {
      if i < |order| {
        assert PicksLeast(nodes, edges, order, i);
        assert next[..i] == order[..i];
      } else {
        assert next[..i] == order;
        forall n | IsReady(nodes, edges, order, n) ensures Leq(queue[0], n) {
          ReadyIsQueued(nodes, edges, remaining, order, queue, n);
          var k :| 0 <= k < |queue| && queue[k] == n;
          if k == 0 { LeqTotal(n, n); }
        }
      }
    }
  }

  lemma ReorderQueue(nodes: set<string>, edges: seq<Edge>, remaining: map<string, int>,
                     order: seq<string>, queue: seq<string>, sorted: seq<string>)
    requires Sorting(nodes, edges, remaining, order, queue, []) && multiset(sorted) == multiset(queue)
    ensures Sorting(nodes, edges, remaining, order, sorted, [])
  {
    var a, b := order + queue, order + sorted;
    assert multiset(a) == multiset(b);
    forall x ensures x in a <==> x in b {
      assert x in a <==> x in multiset(a);
      assert x in b <==> x in multiset(b);
    }
    DistinctByCount(a, b);
  }

  lemma DistinctByCount(a: seq<string>, b: seq<string>)
    requires NoDuplicates(a) && multiset(a) == multiset(b)
    ensures NoDuplicates(b)
  {
    if !NoDuplicates(b) {
      var i, j :| 0 <= i < j < |b| && b[i] == b[j];
      assert b == b[..i] + [b[i]] + b[i + 1..j] + [b[j]] + b[j + 1..];
      assert multiset(b)[b[i]] >= 2;
      CountsAtMostOne(a, b[i]);
      assert false;
    }
  }

  lemma {:induction false} CountsAtMostOne(a: seq<string>, x: string)
    requires NoDuplicates(a)
    ensures multiset(a)[x] <= 1
  {
    if a != [] {
      CountsAtMostOne(a[1..], x);
      assert a == [a[0]] + a[1..];
    }
  }

  /**
   `_stable_topology`: an order exactly when every dependency names a node and the dependencies are
   acyclic, and then the least of all topological orders.
   */
  method StableOrder(nodes: seq<PlanNode>) returns (r: Option<seq<string>>)
    ensures r.Some? <==> DependenciesKnown(nodes) && Acyclic(DependencyEdges(nodes))
    ensures r.Some? ==> IsTopologicalOrder(Ids(nodes), DependencyEdges(nodes), r.value)
    ensures r.Some? ==> forall other :: IsTopologicalOrder(Ids(nodes), DependencyEdges(nodes), other) ==>
                          other == r.value || Precedes(r.value, other)
  {
    var ids, edges := Ids(nodes), DependencyEdges(nodes);
    KnownMeansWithin(nodes);
    var ok, outgoing, indegree := DagValidator.Connect(ids, edges);
    if !ok { return None; }
    var order := LeastOrder(ids, edges, outgoing, indegree);
    if |order| != |ids| { return None; }
    forall other | IsTopologicalOrder(ids, edges, other) ensures other == order || Precedes(order, other) {
      if other != order { GreedyIsLeast(ids, edges, order, other); }
    }
    r := Some(order);
  }

  method LeastOrder(ids: set<string>, edges: seq<Edge>, outgoing: map<string, seq<string>>, indegree: map<string, int>)
    returns (order: seq<string>)
    requires EdgesWithin(edges, ids) && DagValidator.Tabulates(edges, ids, outgoing, indegree)
    ensures |order| == |ids| ==> IsTopologicalOrder(ids, edges, order) && Acyclic(edges)
    ensures |order| != |ids| ==> exists p :: IsCycle(edges, p)
    ensures Greedy(ids, edges, order)
  {
    var remaining := indegree;
    var sources := DagValidator.Sources(ids, indegree);
    DagValidator.SortingStarts(ids, edges, indegree, sources);
    var ready := Sorted(sources);
    SortedIsAscending(sources);
    ReorderQueue(ids, edges, remaining, [], sources, ready);
    order := [];
    while ready != []
      invariant Sorting(ids, edges, remaining, order, ready, [])
      invariant Ascending(ready) && Greedy(ids, edges, order)
      decreases |ids| - |order|
    {
      var cur := ready[0];
      DagValidator.RoomToOrder(ids, order, ready);
      ExtendGreedy(ids, edges, remaining, order, ready);
      var targets := Sorted(outgoing[cur]);
      TakeNode(ids, edges, remaining, order, ready, targets);
      order := order + [cur];
      remaining, ready := DagValidator.Relax(ids, edges, order, targets, remaining, ready[1..]);
      ReorderQueue(ids, edges, remaining, order, ready, Sorted(ready));
      SortedIsAscending(ready);
      ready := Sorted(ready);
    }
    QueueRanDry(ids, edges, remaining, order);
  }
}
