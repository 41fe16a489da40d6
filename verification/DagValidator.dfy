/** The NOP task DAG and its validation: limits, references, and Kahn's topological sort. */
module DagValidator {
  import opened Common
  import opened Graphs

  const MAX_DAG_NODES := 32
  const MAX_CONDITION_LENGTH := 512

  datatype DagNode = DagNode(
    id: string, inputFrom: seq<string>, minRequired: int, condition: Option<string>,
    compensateAction: Option<string>)

  datatype Dag = Dag(nodes: seq<DagNode>, edges: seq<Edge>)

  datatype DagError = DagInvalid | DagTooLarge | ConditionTooLong | DagCycle

  datatype Verdict = Valid(order: seq<string>) | Invalid(error: DagError)

  function Ids(nodes: seq<DagNode>): set<string> { set n | n in nodes :: n.id }

  predicate DistinctIds(nodes: seq<DagNode>) {
    forall i, j :: 0 <= i < j < |nodes| ==> nodes[i].id != nodes[j].id
  }

  predicate InputsKnown(dag: Dag) {
    forall n, d :: n in dag.nodes && d in n.inputFrom ==> d in Ids(dag.nodes)
  }

  predicate LongCondition(n: DagNode) {
    n.condition.Some? && |n.condition.value| > MAX_CONDITION_LENGTH
  }

  predicate HasLongCondition(dag: Dag) { exists n :: n in dag.nodes && LongCondition(n) }

  predicate HasStart(dag: Dag) { exists n :: n in dag.nodes && IsStart(dag, n.id) }

  predicate HasEnd(dag: Dag) { exists n :: n in dag.nodes && IsEnd(dag, n.id) }

  predicate IsStart(dag: Dag, id: string) { forall e :: e in dag.edges ==> e.to != id }

  predicate IsEnd(dag: Dag, id: string) { forall e :: e in dag.edges ==> e.from != id }

  /** The structural rules, in the order they are checked. */
  ghost function StructuralError(dag: Dag): Option<DagError> {
    if |dag.nodes| == 0 then Some(DagInvalid)
    else if |dag.nodes| > MAX_DAG_NODES then Some(DagTooLarge)
    else if !DistinctIds(dag.nodes) then Some(DagInvalid)
    else if !EdgesWithin(dag.edges, Ids(dag.nodes)) then Some(DagInvalid)
    else if !InputsKnown(dag) then Some(DagInvalid)
    else if !HasStart(dag) then Some(DagInvalid)
    else if !HasEnd(dag) then Some(DagInvalid)
    else if HasLongCondition(dag) then Some(ConditionTooLong)
    else None
  }

  /** The adjacency lists and in-degrees of the graph. */
  ghost predicate Tabulates(edges: seq<Edge>, ids: set<string>, adjacency: map<string, seq<string>>,
                            inDegree: map<string, int>)
  {
    && adjacency.Keys == ids && inDegree.Keys == ids
    && forall n :: n in ids ==> adjacency[n] == Targets(edges, n) && inDegree[n] == EdgesInto(edges, n, {})
  }

  lemma OneMoreId(nodes: seq<DagNode>, i: nat)
    requires i < |nodes| && DistinctIds(nodes[..i])
    ensures Ids(nodes[..i + 1]) == Ids(nodes[..i]) + {nodes[i].id}
    ensures DistinctIds(nodes[..i + 1]) <==> nodes[i].id !in Ids(nodes[..i])
  {
    var before := nodes[..i];
    assert nodes[..i + 1] == before + [nodes[i]];
    if nodes[i].id in Ids(before) {
      var k :| 0 <= k < i && before[k].id == nodes[i].id;
      assert nodes[..i + 1][k].id == nodes[..i + 1][i].id;
    }
  }

  method CollectIds(nodes: seq<DagNode>) returns (ids: set<string>, distinct: bool)
    ensures distinct == DistinctIds(nodes)
    ensures distinct ==> ids == Ids(nodes) && |ids| == |nodes|
  {
    ids, distinct := {}, true;
    for i := 0 to |nodes|
      invariant DistinctIds(nodes[..i])
      invariant ids == Ids(nodes[..i]) && |ids| == i
    {
      OneMoreId(nodes, i);
      if nodes[i].id in ids {
        return ids, false;
      }
      ids := ids + {nodes[i].id};
    }
    assert nodes[..|nodes|] == nodes;
  }

  /** Builds the adjacency lists and in-degrees; fails on the first edge with an unknown end. */
  method Connect(ids: set<string>, edges: seq<Edge>)
    returns (ok: bool, adjacency: map<string, seq<string>>, inDegree: map<string, int>)
    ensures ok == EdgesWithin(edges, ids)
    ensures ok ==> Tabulates(edges, ids, adjacency, inDegree)
  {
    adjacency := map n | n in ids :: [];
    inDegree := map n | n in ids :: 0;
    for i := 0 to |edges|
      invariant EdgesWithin(edges[..i], ids)
      invariant Tabulates(edges[..i], ids, adjacency, inDegree)
    {
      var e := edges[i];
      if e.from !in ids || e.to !in ids {
        assert e in edges;
        return false, adjacency, inDegree;
      }
      assert edges[..i + 1][..i] == edges[..i];
      adjacency := adjacency[e.from := adjacency[e.from] + [e.to]];
      inDegree := inDegree[e.to := inDegree[e.to] + 1];
    }
    assert edges[..|edges|] == edges;
    ok := true;
  }

  /** One in-edge of `targets[i]` is finished; without any left, the node is queued. */
  method Visit(ghost nodes: set<string>, ghost edges: seq<Edge>, ghost order: seq<string>,
               targets: seq<string>, i: nat, before: map<string, int>, queue: seq<string>)
    returns (remaining: map<string, int>, grown: seq<string>)
    requires i < |targets| && Sorting(nodes, edges, before, order, queue, targets[i..])
    ensures Sorting(nodes, edges, remaining, order, grown, targets[i + 1..])
    ensures queue <= grown
  {
    var n := targets[i];
    VisitTarget(nodes, edges, before, order, queue, targets, i);
    remaining := before[n := before[n] - 1];
    grown := if remaining[n] == 0 then queue + [n] else queue;
  }

  /** Visits the targets of the node just ordered, queueing those with no unfinished in-edge left. */
  method Relax(ghost nodes: set<string>, ghost edges: seq<Edge>, ghost order: seq<string>,
               targets: seq<string>, before: map<string, int>, queue: seq<string>)
    returns (remaining: map<string, int>, grown: seq<string>)
    requires Sorting(nodes, edges, before, order, queue, targets)
    ensures Sorting(nodes, edges, remaining, order, grown, [])
    ensures queue <= grown
  {
    remaining, grown := before, queue;
    assert targets[0..] == targets;
    for i := 0 to |targets|
      invariant Sorting(nodes, edges, remaining, order, grown, targets[i..])
      invariant queue <= grown
    {
      remaining, grown := Visit(nodes, edges, order, targets, i, remaining, grown);
    }
    assert targets[|targets|..] == [];
  }

  /** The nodes without in-edges, in whatever order the dictionary yields them. */
  method Sources(ids: set<string>, inDegree: map<string, int>) returns (queue: seq<string>)
    requires inDegree.Keys == ids
    ensures NoDuplicates(queue)
    ensures forall n :: n in queue <==> n in ids && inDegree[n] == 0
  {
    queue := [];
    var todo := ids;
    while todo != {}
      invariant todo <= ids && NoDuplicates(queue)
      invariant forall n :: n in queue <==> n in ids - todo && inDegree[n] == 0
      decreases |todo|
    {
      var n :| n in todo;
      todo := todo - {n};
      if inDegree[n] == 0 { queue := queue + [n]; }
    }
  }

  lemma SortingStarts(ids: set<string>, edges: seq<Edge>, inDegree: map<string, int>, queue: seq<string>)
    requires inDegree.Keys == ids && NoDuplicates(queue)
    requires forall n :: n in ids ==> inDegree[n] == EdgesInto(edges, n, {})
    requires forall n :: n in queue <==> n in ids && inDegree[n] == 0
    ensures Sorting(ids, edges, inDegree, [], queue, [])
  {
    assert [] + queue == queue;
    assert Elements([]) == {};
  }

  method TopologicalSort(ids: set<string>, edges: seq<Edge>, adjacency: map<string, seq<string>>,
                         inDegree: map<string, int>)
    returns (order: seq<string>)
    requires EdgesWithin(edges, ids) && Tabulates(edges, ids, adjacency, inDegree)
    ensures |order| == |ids| ==> IsTopologicalOrder(ids, edges, order) && Acyclic(edges)
    ensures |order| != |ids| ==> exists p :: IsCycle(edges, p)
  {
    var remaining := inDegree;
    var queue := Sources(ids, inDegree);
    order := [];
    SortingStarts(ids, edges, inDegree, queue);
    while queue != []
      invariant Sorting(ids, edges, remaining, order, queue, [])
      decreases |ids| - |order|
    {
      var cur := queue[0];
      RoomToOrder(ids, order, queue);
      TakeNode(ids, edges, remaining, order, queue, adjacency[cur]);
      order, queue := order + [cur], queue[1..];
      remaining, queue := Relax(ids, edges, order, adjacency[cur], remaining, queue);
    }
    QueueRanDry(ids, edges, remaining, order);
  }

  lemma RoomToOrder(ids: set<string>, order: seq<string>, queue: seq<string>)
    requires queue != [] && NoDuplicates(order + queue) && Elements(order + queue) <= ids
    ensures queue[0] in ids && |order| < |ids|
  {
    assert (order + queue)[|order|] == queue[0];
    assert queue[0] in Elements(order + queue);
    ElementCount(order + queue);
    SubsetSize(Elements(order + queue), ids);
  }

  /** Whether some edge-free node exists on each side of the graph. */
  method HasEnds(dag: Dag, ids: set<string>, adjacency: map<string, seq<string>>, inDegree: map<string, int>)
    returns (start: bool, end: bool)
    requires ids == Ids(dag.nodes) && Tabulates(dag.edges, ids, adjacency, inDegree)
    ensures start == HasStart(dag) && end == HasEnd(dag)
  {
    start := exists n :: n in ids && inDegree[n] == 0;
    end := exists n :: n in ids && adjacency[n] == [];
    if start { SomeStart(dag, ids); } else { NoStart(dag, ids); }
    if end { SomeEnd(dag, ids); } else { NoEnd(dag, ids); }
  }

  /** Every check before the sort, in the source's order. */
  method CheckStructure(dag: Dag)
    returns (error: Option<DagError>, ids: set<string>, adjacency: map<string, seq<string>>, inDegree: map<string, int>)
    ensures error == StructuralError(dag)
    ensures error.None? ==>
              ids == Ids(dag.nodes) && EdgesWithin(dag.edges, ids) && Tabulates(dag.edges, ids, adjacency, inDegree)
  {
    error, ids, adjacency, inDegree := None, {}, map[], map[];
    if |dag.nodes| == 0 { error := Some(DagInvalid); return; }
    if |dag.nodes| > MAX_DAG_NODES { error := Some(DagTooLarge); return; }
    var distinct;
    ids, distinct := CollectIds(dag.nodes);
    if !distinct { error := Some(DagInvalid); return; }
    var ok;
    ok, adjacency, inDegree := Connect(ids, dag.edges);
    if !ok { error := Some(DagInvalid); return; }
    if !InputsKnown(dag) { error := Some(DagInvalid); return; }
    var start, end := HasEnds(dag, ids, adjacency, inDegree);
    if !start { error := Some(DagInvalid); return; }
    if !end { error := Some(DagInvalid); return; }
    if HasLongCondition(dag) { error := Some(ConditionTooLong); return; }
  }

  /**
   `DagValidator.validate`: an order is returned exactly when the structural rules hold and the edges are
   acyclic; it lists every node once with every edge forward; a cycle verdict means there is a cycle.
   */
  method Validate(dag: Dag) returns (v: Verdict)
    ensures v.Valid? <==> StructuralError(dag).None? && Acyclic(dag.edges)
    ensures v.Valid? ==> IsTopologicalOrder(Ids(dag.nodes), dag.edges, v.order)
    ensures StructuralError(dag).Some? ==> v == Invalid(StructuralError(dag).value)
    ensures v == Invalid(DagCycle) ==> exists p :: IsCycle(dag.edges, p)
  {
    var error, ids, adjacency, inDegree := CheckStructure(dag);
    if error.Some? { return Invalid(error.value); }
    var order := TopologicalSort(ids, dag.edges, adjacency, inDegree);
    if |order| != |ids| { return Invalid(DagCycle); }
    v := Valid(order);
  }

  /** Some node has that id. */
  ghost predicate Names(dag: Dag, d: string) { exists n :: n in dag.nodes && n.id == d }

  lemma NamesAreIds(dag: Dag)
    ensures forall d :: d in Ids(dag.nodes) <==> Names(dag, d)
  {}

  lemma LongConditions(dag: Dag)
    ensures HasLongCondition(dag) <==> exists n :: n in dag.nodes && n.condition.Some? && |n.condition.value| > 512
  {
    if n :| n in dag.nodes && n.condition.Some? && |n.condition.value| > 512 { assert LongCondition(n); }
  }

  /** The structural rules, all at once. */
  lemma SoundExactlyWhen(dag: Dag)
    ensures StructuralError(dag).None? <==>
              && 1 <= |dag.nodes| <= 32
              && (forall i, j :: 0 <= i < j < |dag.nodes| ==> dag.nodes[i].id != dag.nodes[j].id)
              && (forall e :: e in dag.edges ==> Names(dag, e.from) && Names(dag, e.to))
              && (forall n, d :: n in dag.nodes && d in n.inputFrom ==> Names(dag, d))
              && HasStart(dag) && HasEnd(dag)
              && (forall n :: n in dag.nodes && n.condition.Some? ==> |n.condition.value| <= 512)
    ensures StructuralError(dag) == Some(DagTooLarge) <==> |dag.nodes| > 32
    ensures StructuralError(dag) == Some(ConditionTooLong) ==>
              exists n :: n in dag.nodes && n.condition.Some? && |n.condition.value| > 512
    ensures StructuralError(dag) != Some(DagCycle)
  {
    NamesAreIds(dag);
    LongConditions(dag);
  }

  /** A start has no edge into it, and an end no edge out of it. */
  lemma EndsExist(dag: Dag)
    ensures HasStart(dag) <==> exists n :: n in dag.nodes && forall e :: e in dag.edges ==> e.to != n.id
    ensures HasEnd(dag) <==> exists n :: n in dag.nodes && forall e :: e in dag.edges ==> e.from != n.id
  {
    if n :| n in dag.nodes && forall e :: e in dag.edges ==> e.to != n.id { assert IsStart(dag, n.id); }
    if n :| n in dag.nodes && forall e :: e in dag.edges ==> e.from != n.id { assert IsEnd(dag, n.id); }
  }

  lemma NoStart(dag: Dag, ids: set<string>)
    requires ids == Ids(dag.nodes)
    requires forall n :: n in ids ==> EdgesInto(dag.edges, n, {}) != 0
    ensures !HasStart(dag)
  {
    forall n | n in dag.nodes ensures !IsStart(dag, n.id) {
      assert n.id in ids;
      NoEdgesInto(dag.edges, n.id, {});
    }
  }

  lemma SomeStart(dag: Dag, ids: set<string>)
    requires ids == Ids(dag.nodes)
    requires exists n :: n in ids && EdgesInto(dag.edges, n, {}) == 0
    ensures HasStart(dag)
  {
    var id :| id in ids && EdgesInto(dag.edges, id, {}) == 0;
    NoEdgesInto(dag.edges, id, {});
    var n :| n in dag.nodes && n.id == id;
    assert IsStart(dag, n.id);
  }

  lemma NoEnd(dag: Dag, ids: set<string>)
    requires ids == Ids(dag.nodes)
    requires forall n :: n in ids ==> Targets(dag.edges, n) != []
    ensures !HasEnd(dag)
  {
    forall n | n in dag.nodes ensures !IsEnd(dag, n.id) {
      assert n.id in ids;
      TargetsAreEdges(dag.edges, n.id);
      assert Edge(n.id, Targets(dag.edges, n.id)[0]) in dag.edges;
    }
  }

  lemma SomeEnd(dag: Dag, ids: set<string>)
    requires ids == Ids(dag.nodes)
    requires exists n :: n in ids && Targets(dag.edges, n) == []
    ensures HasEnd(dag)
  {
    var id :| id in ids && Targets(dag.edges, id) == [];
    TargetsAreEdges(dag.edges, id);
    var n :| n in dag.nodes && n.id == id;
    forall e | e in dag.edges ensures e.from != n.id {
      assert e == Edge(e.from, e.to);
    }
  }
}
