/** Saga compensation: undoing completed nodes in reverse topological order. */
module Saga {
  import opened Common
  import opened Graphs
  import opened DagValidator
  import opened Scheduler

  datatype SagaResult = SagaResult(attempted: nat, succeeded: nat, failed: nat, failedIds: seq<string>)

  predicate HasAction(n: DagNode) {
    n.compensateAction.Some? && !IsBlank(n.compensateAction.value)
  }

  function CompletedIds(states: map<string, NodeState>): set<string> {
    set id | id in states && states[id] == Completed
  }

  function Undoable(dag: Dag): set<string> { set n | n in dag.nodes && HasAction(n) :: n.id }

  /** The members of `keep`, last of `topo` first. */
  function ReverseFilter(topo: seq<string>, keep: set<string>): seq<string> {
    if topo == [] then []
    else
      var last := topo[|topo| - 1];
      (if last in keep then [last] else []) + ReverseFilter(topo[..|topo| - 1], keep)
  }

  lemma {:induction false} ReverseFilterMembers(topo: seq<string>, keep: set<string>)
    requires NoDuplicates(topo)
    ensures Elements(ReverseFilter(topo, keep)) == Elements(topo) * keep
    ensures NoDuplicates(ReverseFilter(topo, keep))
  {
    if topo != [] {
      var last, prior := topo[|topo| - 1], topo[..|topo| - 1];
      ReverseFilterMembers(prior, keep);
      var rest := ReverseFilter(prior, keep);
      assert topo == prior + [last];
      assert Elements(topo) == Elements(prior) + {last};
      assert last !in prior;
      assert last in rest ==> last in Elements(rest);
      if last in keep {
        assert ReverseFilter(topo, keep) == [last] + rest;
        assert Elements([last] + rest) == {last} + Elements(rest);
      } else {
        assert ReverseFilter(topo, keep) == rest;
      }
    }
  }

  /** Whatever came later in the order is undone earlier. */
  lemma {:induction false} ReverseFilterOrder(topo: seq<string>, keep: set<string>, a: string, b: string)
    requires NoDuplicates(topo) && Before(topo, a, b) && a in keep && b in keep
    ensures Before(ReverseFilter(topo, keep), b, a)
  {
    var last, prior := topo[|topo| - 1], topo[..|topo| - 1];
    var i, j :| 0 <= i < j < |topo| && topo[i] == a && topo[j] == b;
    assert prior[i] == a;
    if j == |topo| - 1 {
      ReverseFilterMembers(prior, keep);
      assert a in Elements(prior) && a in Elements(ReverseFilter(prior, keep));
      FrontIsBefore(b, ReverseFilter(prior, keep), a);
    } else {
      assert prior[j] == b;
      ReverseFilterOrder(prior, keep, a, b);
      BeforeShifts([last], ReverseFilter(prior, keep), b, a);
      assert [] + ReverseFilter(prior, keep) == ReverseFilter(prior, keep);
    }
  }

  lemma FrontIsBefore(x: string, rest: seq<string>, y: string)
    requires y in rest
    ensures Before([x] + rest, x, y)
  {
    var k :| 0 <= k < |rest| && rest[k] == y;
    assert ([x] + rest)[0] == x && ([x] + rest)[k + 1] == y;
  }

  lemma BeforeShifts(front: seq<string>, rest: seq<string>, x: string, y: string)
    requires Before(rest, x, y)
    ensures Before(front + rest, x, y)
  {
    var k, m :| 0 <= k < m < |rest| && rest[k] == x && rest[m] == y;
    assert (front + rest)[|front| + k] == x && (front + rest)[|front| + m] == y;
  }

  /** The ids among `ids` whose compensation does not work, in order. */
  function NotWorking(ids: seq<string>, works: string -> bool): seq<string> {
    if ids == [] then []
    else
      var last := ids[|ids| - 1];
      NotWorking(ids[..|ids| - 1], works) + if works(last) then [] else [last]
  }

  /** Whatever a listed node leads to, over any number of edges, stands before it. */
  ghost predicate UndoneAfterSuccessors(edges: seq<Edge>, ran: seq<string>) {
    forall a, b :: a in ran && b in ran && a != b && Reachable(edges, a, b) ==> Before(ran, b, a)
  }

  method RunActions(todo: seq<string>, works: string -> bool) returns (r: SagaResult)
    ensures r.attempted == |todo| == r.succeeded + r.failed
    ensures r.failedIds == NotWorking(todo, works) && r.failed == |r.failedIds|
  {
    var succeeded: nat, failedIds: seq<string> := 0, [];
    for i := 0 to |todo|
      invariant failedIds == NotWorking(todo[..i], works) && succeeded + |failedIds| == i
    {
      assert todo[..i + 1][..i] == todo[..i];
      if works(todo[i]) { succeeded := succeeded + 1; } else { failedIds := failedIds + [todo[i]]; }
    }
    assert todo[..|todo|] == todo;
    r := SagaResult(|todo|, succeeded, |failedIds|, failedIds);
  }

  /** What a list of compensations must satisfy: the wanted nodes, once each, successors first. */
  ghost predicate Undoes(dag: Dag, ran: seq<string>, wanted: set<string>) {
    NoDuplicates(ran) && Elements(ran) == wanted && UndoneAfterSuccessors(dag.edges, ran)
  }

  lemma ReverseFilterUndoes(dag: Dag, topo: seq<string>, keep: set<string>)
    requires IsTopologicalOrder(Ids(dag.nodes), dag.edges, topo) && keep <= Ids(dag.nodes)
    ensures Undoes(dag, ReverseFilter(topo, keep), keep)
    ensures ReverseFilter(topo, keep) == [] <==> keep == {}
  {
    ReverseFilterMembers(topo, keep);
    OrderIsReversed(Ids(dag.nodes), dag.edges, topo, keep);
    assert Elements(topo) * keep == keep;
    var ran := ReverseFilter(topo, keep);
    if ran != [] { assert ran[0] in Elements(ran); }
  }

  /**
   `_run_saga_compensation`: unless a strict policy finds a completed node it cannot undo, every completed node
   with an action is compensated exactly once, after every compensated successor, whatever the single outcomes.
   `works(id)` is how the worker answers the compensation of `id`.
   */
  method Compensate(dag: Dag, topo: seq<string>, states: map<string, NodeState>, strict: bool, works: string -> bool)
    returns (r: SagaResult, ran: seq<string>)
    requires IsTopologicalOrder(Ids(dag.nodes), dag.edges, topo) && states.Keys <= Ids(dag.nodes)
    ensures strict && CompletedIds(states) - Undoable(dag) != {} ==>
              && ran == [] && r == SagaResult(0, 0, |r.failedIds|, r.failedIds)
              && r.failed > 0 && Undoes(dag, r.failedIds, CompletedIds(states) - Undoable(dag))
    ensures !strict || CompletedIds(states) - Undoable(dag) == {} ==>
              && Undoes(dag, ran, CompletedIds(states) * Undoable(dag))
              && r.attempted == |ran| == r.succeeded + r.failed
              && r.failedIds == NotWorking(ran, works) && r.failed == |r.failedIds|
  {
    var missing := ReverseFilter(topo, CompletedIds(states) - Undoable(dag));
    ReverseFilterUndoes(dag, topo, CompletedIds(states) - Undoable(dag));
    if strict && missing != [] { return SagaResult(0, 0, |missing|, missing), []; }
    ran := ReverseFilter(topo, CompletedIds(states) * Undoable(dag));
    ReverseFilterUndoes(dag, topo, CompletedIds(states) * Undoable(dag));
    if ran == [] { return SagaResult(0, 0, 0, []), []; }
    r := RunActions(ran, works);
  }

  lemma OrderIsReversed(nodes: set<string>, edges: seq<Edge>, topo: seq<string>, keep: set<string>)
    requires IsTopologicalOrder(nodes, edges, topo)
    ensures UndoneAfterSuccessors(edges, ReverseFilter(topo, keep))
  {
    var ran := ReverseFilter(topo, keep);
    ReverseFilterMembers(topo, keep);
    forall a, b | a in ran && b in ran && a != b && Reachable(edges, a, b) ensures Before(ran, b, a) {
      assert a in Elements(ran) && b in Elements(ran);
      var p :| IsWalk(edges, p) && p[0] == a && p[|p| - 1] == b;
      WalksGoForward(nodes, edges, topo, p, |p| - 1);
      ReverseFilterOrder(topo, keep, a, b);
    }
  }

  /** What is to be undone: what completed, and of that what has an action that is not blank. */
  lemma UndoneMeans(dag: Dag, states: map<string, NodeState>, id: string)
    ensures id in CompletedIds(states) <==> id in states && states[id] == Completed
    ensures id in Undoable(dag) <==>
              exists n :: && n in dag.nodes && n.id == id && n.compensateAction.Some?
                          && exists c :: c in n.compensateAction.value && !IsSpace(c)
  {
    forall n: DagNode | n in dag.nodes && n.compensateAction.Some?
      ensures HasAction(n) <==> exists c :: c in n.compensateAction.value && !IsSpace(c)
    {
      var text := n.compensateAction.value;
      assert forall i :: 0 <= i < |text| ==> text[i] in text;
    }
  }

  /** The failed ones are, in the order tried, those whose compensation did not work. */
  lemma {:induction false} NotWorkingMeans(ids: seq<string>, works: string -> bool)
    ensures forall id :: id in NotWorking(ids, works) <==> id in ids && !works(id)
    ensures forall a, b :: Before(NotWorking(ids, works), a, b) ==> Before(ids, a, b)
  {
    if ids != [] {
      var last, prior := ids[|ids| - 1], ids[..|ids| - 1];
      NotWorkingMeans(prior, works);
      assert ids == prior + [last];
      var bad := NotWorking(prior, works);
      forall a, b | Before(NotWorking(ids, works), a, b) ensures Before(ids, a, b) {
        var i, j :| 0 <= i < j < |NotWorking(ids, works)| && NotWorking(ids, works)[i] == a
                    && NotWorking(ids, works)[j] == b;
        if j < |bad| {
          assert Before(bad, a, b) && Before(prior, a, b);
          var k, l :| 0 <= k < l < |prior| && prior[k] == a && prior[l] == b;
          assert ids[k] == a && ids[l] == b;
        } else {
          assert bad[i] == a && a in bad && a in prior;
          var k :| 0 <= k < |prior| && prior[k] == a;
          assert ids[k] == a && ids[|prior|] == b;
        }
      }
    }
  }
}
