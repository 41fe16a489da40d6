/** Compensation in the portable orchestration profile: only what the failed node depended on is undone. */
module PortableSaga {
  import opened Common
  import opened Graphs
  import Saga

  /** What the profile knows of a node; `undoWorks` is the scripted outcome of its compensation. */
  datatype Step = Step(dependsOn: seq<string>, undoable: bool, undoWorks: bool)

  datatype StepState = Completed | Skipped | Failed | Compensated | CompensationFailed

  datatype Policy = NoCompensation | BestEffort | Strict

  datatype CompensationError = NotSupported | UndoFailed

  type Steps = map<string, Step>

  ghost predicate Known(nodes: Steps) {
    forall id, d :: id in nodes && d in nodes[id].dependsOn ==> d in nodes
  }

  // ---------------------------------------------------------------- ancestors

  /** Each id on the chain is a dependency of the next. */
  ghost predicate IsChain(nodes: Steps, p: seq<string>) {
    |p| >= 2 && forall i :: 0 < i < |p| ==> p[i] in nodes && p[i - 1] in nodes[p[i]].dependsOn
  }

  ghost predicate Ancestor(nodes: Steps, a: string, b: string) {
    exists p :: IsChain(nodes, p) && p[0] == a && p[|p| - 1] == b
  }

  lemma DependencyIsAncestor(nodes: Steps, d: string, id: string)
    requires id in nodes && d in nodes[id].dependsOn
    ensures Ancestor(nodes, d, id)
  {
    assert IsChain(nodes, [d, id]);
  }

  lemma AncestorOfDependency(nodes: Steps, a: string, d: string, id: string)
    requires id in nodes && d in nodes[id].dependsOn && Ancestor(nodes, a, d)
    ensures Ancestor(nodes, a, id)
  {
    var p :| IsChain(nodes, p) && p[0] == a && p[|p| - 1] == d;
    assert IsChain(nodes, p + [id]);
  }

  ghost predicate Includes(found: set<string>, deps: seq<string>) { forall d :: d in deps ==> d in found }

  /** Whatever was added since `before` is an ancestor of `id` and has its own dependencies in the set. */
  ghost predicate Grown(nodes: Steps, before: set<string>, found: set<string>, id: string) {
    && before <= found <= nodes.Keys
    && forall x :: x in found && x !in before ==> Includes(found, nodes[x].dependsOn) && Ancestor(nodes, x, id)
  }

  /** `collect`: depth first, through dependencies not seen yet. */
  method Collect(nodes: Steps, id: string, before: set<string>) returns (found: set<string>)
    requires Known(nodes) && id in nodes && before <= nodes.Keys
    ensures Grown(nodes, before, found, id) && Includes(found, nodes[id].dependsOn)
    decreases |nodes.Keys - before|
  {
    found := before;
    var deps := nodes[id].dependsOn;
    for i := 0 to |deps|
      invariant Grown(nodes, before, found, id) && Includes(found, deps[..i])
    {
      var d := deps[i];
      if d !in found {
        SubsetSize(nodes.Keys - (found + {d}), nodes.Keys - before);
        assert d in nodes.Keys - before && d !in nodes.Keys - (found + {d});
        var more := Collect(nodes, d, found + {d});
        GrownThrough(nodes, before, found, more, d, id);
        found := more;
      }
      assert deps[..i + 1] == deps[..i] + [d];
    }
    assert deps[..|deps|] == deps;
  }

  lemma GrownThrough(nodes: Steps, before: set<string>, found: set<string>, more: set<string>, d: string, id: string)
    requires id in nodes && d in nodes[id].dependsOn && d in nodes && Grown(nodes, before, found, id)
    requires Grown(nodes, found + {d}, more, d) && Includes(more, nodes[d].dependsOn)
    ensures Grown(nodes, before, more, id)
  {
    forall x | x in more && x !in before ensures Includes(more, nodes[x].dependsOn) && Ancestor(nodes, x, id) {
      if x == d {
        DependencyIsAncestor(nodes, d, id);
      } else if x !in found {
        AncestorOfDependency(nodes, x, d, id);
      }
    }
  }

  /** A set that holds the dependencies of `id` and of its own members holds every ancestor. */
  lemma {:induction false} ClosedHoldsAncestors(nodes: Steps, found: set<string>, p: seq<string>, k: nat)
    requires IsChain(nodes, p) && k < |p| - 1 && p[|p| - 1] in nodes
    requires found <= nodes.Keys && Includes(found, nodes[p[|p| - 1]].dependsOn)
    requires forall x :: x in found ==> Includes(found, nodes[x].dependsOn)
    ensures p[k] in found
    decreases |p| - k
  {
    if k + 1 < |p| - 1 { ClosedHoldsAncestors(nodes, found, p, k + 1); }
  }

  lemma CollectedAreAncestors(nodes: Steps, found: set<string>, id: string)
    requires id in nodes && Grown(nodes, {}, found, id) && Includes(found, nodes[id].dependsOn)
    ensures forall a :: a in found <==> Ancestor(nodes, a, id)
  {
    forall a | Ancestor(nodes, a, id) ensures a in found {
      var p :| IsChain(nodes, p) && p[0] == a && p[|p| - 1] == id;
      ClosedHoldsAncestors(nodes, found, p, 0);
    }
  }

  // ---------------------------------------------------------------- undoing

  ghost function Wanted(nodes: Steps, states: map<string, StepState>, failed: string): set<string> {
    set a | a in nodes && Ancestor(nodes, a, failed) && a in states && states[a] == Completed
  }

  ghost function Undoable(nodes: Steps): set<string> { set id | id in nodes && nodes[id].undoable }

  predicate Works(nodes: Steps, id: string) { id in nodes && nodes[id].undoWorks }

  /** How many of `ids` a strict run from position `i` undoes: up to and including the first that fails. */
  function StrictStop(nodes: Steps, ids: seq<string>, i: nat): (n: nat)
    requires i <= |ids|
    ensures i <= n <= |ids|
    decreases |ids| - i
  {
    if i == |ids| then i else if !Works(nodes, ids[i]) then i + 1 else StrictStop(nodes, ids, i + 1)
  }

  function UpToFailure(nodes: Steps, ids: seq<string>): seq<string> { ids[..StrictStop(nodes, ids, 0)] }

  /** The states after the first `n` of `ids` were undone. */
  function Marked(nodes: Steps, states: map<string, StepState>, ids: seq<string>, n: nat): map<string, StepState>
    requires n <= |ids|
  {
    if n == 0 then states
    else
      var mark := if Works(nodes, ids[n - 1]) then Compensated else CompensationFailed;
      Marked(nodes, states, ids, n - 1)[ids[n - 1] := mark]
  }

  lemma {:induction false} MarkedPrefix(nodes: Steps, states: map<string, StepState>, ids: seq<string>, m: nat, n: nat)
    requires n <= m <= |ids|
    ensures Marked(nodes, states, ids[..m], n) == Marked(nodes, states, ids, n)
  {
    if n > 0 { MarkedPrefix(nodes, states, ids, m, n - 1); }
  }

  /** The compensation loop over nodes that all have an action. */
  method UndoAll(nodes: Steps, before: map<string, StepState>, ids: seq<string>, strict: bool)
    returns (order: seq<string>, states: map<string, StepState>, failed: bool)
    ensures order == if strict then UpToFailure(nodes, ids) else ids
    ensures states == Marked(nodes, before, order, |order|)
    ensures failed <==> strict && exists id :: id in ids && !Works(nodes, id)
  {
    order, states, failed := [], before, false;
    for i := 0 to |ids|
      invariant order == ids[..i] && states == Marked(nodes, before, ids, i) && !failed
      invariant strict ==>
                StrictStop(nodes, ids, 0) == StrictStop(nodes, ids, i) &&
                forall j :: 0 <= j < i ==> Works(nodes, ids[j])
    {
      var id := ids[i];
      order := order + [id];
      if id in nodes && nodes[id].undoWorks {
        states := states[id := Compensated];
      } else {
        states := states[id := CompensationFailed];
        if strict { failed := true; break; }
      }
    }
    MarkedPrefix(nodes, before, ids, |order|, |order|);
  }

  /** Each id once, and every node after all that depend on it, directly or not. */
  ghost predicate DependentsFirst(nodes: Steps, ids: seq<string>) {
    NoDuplicates(ids) && forall a, b :: a in ids && b in ids && a != b && Ancestor(nodes, a, b) ==> Before(ids, b, a)
  }

  /** What `edges` must be for an order of the profile's nodes. */
  ghost predicate EdgesOf(nodes: Steps, edges: seq<Edge>) {
    forall e :: e in edges <==> e.to in nodes && e.from in nodes[e.to].dependsOn
  }

  /**
   `_compensate`: the completed ancestors of the failed node, and no others, are undone, each once and after every
   dependent of it that is undone too. A strict policy undoes nothing if one of them has no action, and stops at the
   first failure; best effort skips the former and carries on after the latter.
   */
  method Compensate(policy: Policy, failed: string, topo: seq<string>, nodes: Steps, before: map<string, StepState>,
                    ghost edges: seq<Edge>)
    returns (order: seq<string>, states: map<string, StepState>, error: Option<CompensationError>)
    requires Known(nodes) && failed in nodes && EdgesOf(nodes, edges) && IsTopologicalOrder(nodes.Keys, edges, topo)
    ensures states == Marked(nodes, before, order, |order|)
    ensures DependentsFirst(nodes, order)
    ensures policy == NoCompensation ==> order == [] && error == None
    ensures policy == BestEffort ==> Elements(order) == Wanted(nodes, before, failed) * Undoable(nodes) && error == None
    ensures policy == Strict && !(Wanted(nodes, before, failed) <= Undoable(nodes)) ==>
            order == [] && error == Some(NotSupported)
    ensures policy == Strict && Wanted(nodes, before, failed) <= Undoable(nodes) ==>
              var all := Saga.ReverseFilter(topo, Wanted(nodes, before, failed));
              && Elements(all) == Wanted(nodes, before, failed)
              && order == UpToFailure(nodes, all)
              && error == if exists id :: id in all && !Works(nodes, id) then Some(UndoFailed) else None
  {
    if policy == NoCompensation { return [], before, None; }
    var wanted := CompletedAncestors(nodes, before, failed);
    if policy == Strict && exists a :: a in wanted && !nodes[a].undoable { return [], before, Some(NotSupported); }
    var able := set a | a in wanted && nodes[a].undoable;
    assert able == wanted * Undoable(nodes);
    Reversed(nodes, edges, topo, able);
    var todo := Saga.ReverseFilter(topo, able);
    var broken;
    order, states, broken := UndoAll(nodes, before, todo, policy == Strict);
    error := if broken then Some(UndoFailed) else None;
    if policy == Strict {
      assert able == wanted;
      PrefixKeepsOrder(nodes, todo);
    }
  }

  method CompletedAncestors(nodes: Steps, states: map<string, StepState>, failed: string) returns (wanted: set<string>)
    requires Known(nodes) && failed in nodes
    ensures wanted == Wanted(nodes, states, failed)
  {
    var ancestors := Collect(nodes, failed, {});
    CollectedAreAncestors(nodes, ancestors, failed);
    wanted := set a | a in ancestors && a in states && states[a] == Completed;
  }

  lemma Reversed(nodes: Steps, edges: seq<Edge>, topo: seq<string>, keep: set<string>)
    requires EdgesOf(nodes, edges) && IsTopologicalOrder(nodes.Keys, edges, topo) && keep <= nodes.Keys
    ensures var r := Saga.ReverseFilter(topo, keep);
            Elements(r) == keep && DependentsFirst(nodes, r)
  {
    var r := Saga.ReverseFilter(topo, keep);
    Saga.ReverseFilterMembers(topo, keep);
    assert Elements(topo) * keep == keep;
    Saga.OrderIsReversed(nodes.Keys, edges, topo, keep);
    forall a, b | Ancestor(nodes, a, b) ensures Reachable(edges, a, b) { ChainIsWalk(nodes, edges, a, b); }
  }

  lemma ChainIsWalk(nodes: Steps, edges: seq<Edge>, a: string, b: string)
    requires EdgesOf(nodes, edges) && Ancestor(nodes, a, b)
    ensures Reachable(edges, a, b)
  {
    var p :| IsChain(nodes, p) && p[0] == a && p[|p| - 1] == b;
    forall i | 0 < i < |p| ensures Edge(p[i - 1], p[i]) in edges {
      assert Edge(p[i - 1], p[i]).to == p[i];
    }
    assert IsWalk(edges, p);
  }

  lemma PrefixKeepsOrder(nodes: Steps, ids: seq<string>)
    requires DependentsFirst(nodes, ids)
    ensures DependentsFirst(nodes, UpToFailure(nodes, ids))
  {
    var r := UpToFailure(nodes, ids);
    forall x, y | x in r && y in r && x != y && Ancestor(nodes, x, y) ensures Before(r, y, x) {
      var a, b :| 0 <= a < |r| && r[a] == x && 0 <= b < |r| && r[b] == y;
      assert ids[a] == x && ids[b] == y;
      var i, j :| 0 <= i < j < |ids| && ids[i] == y && ids[j] == x;
      assert i == b && j == a;
    }
  }

  // ---------------------------------------------------------------- what the undone nodes are left as

  /** What was undone is marked by whether that worked, and nothing else changes. */
  lemma {:induction false} MarkedMeans(nodes: Steps, states: map<string, StepState>, ids: seq<string>, n: nat,
                                       id: string)
    requires n <= |ids|
    ensures id in ids[..n] ==>
              && id in Marked(nodes, states, ids, n)
              && Marked(nodes, states, ids, n)[id] ==
                 if id in nodes && nodes[id].undoWorks then Compensated else CompensationFailed
    ensures id !in ids[..n] ==>
              && (id in Marked(nodes, states, ids, n) <==> id in states)
              && (id in states ==> Marked(nodes, states, ids, n)[id] == states[id])
  {
    if n > 0 {
      MarkedMeans(nodes, states, ids, n - 1, id);
      assert ids[..n] == ids[..n - 1] + [ids[n - 1]];
    }
  }

  /** A strict run stops after the first undo that does not work, and otherwise undoes all. */
  lemma {:induction false} StopsAfterFailure(nodes: Steps, ids: seq<string>, i: nat)
    requires i <= |ids|
    ensures var n := StrictStop(nodes, ids, i);
            && (forall j :: i <= j < n - 1 ==> ids[j] in nodes && nodes[ids[j]].undoWorks)
            && (n < |ids| ==> n > i && !(ids[n - 1] in nodes && nodes[ids[n - 1]].undoWorks))
    decreases |ids| - i
  {
    if i < |ids| && Works(nodes, ids[i]) { StopsAfterFailure(nodes, ids, i + 1); }
  }
}
