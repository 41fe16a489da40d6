/**
 The concurrent K-of-N DAG scheduler of the NOP orchestrator.

 Which running node finishes next, and how, is up to the workers; a run is described by its script, the
 sequence of completions it saw. `Run` follows one script; the method `RunDag` is the imperative loop, which
 picks completions nondeterministically and is proved to follow the script it happened to see.
 */
module Scheduler {
  import opened Common
  import opened Graphs
  import opened DagValidator

  datatype NodeState = Completed | Skipped | Failed

  /** What a node task returns; `result` stands for the worker's data. */
  datatype Outcome = Outcome(state: NodeState, result: Option<string>)

  datatype Completion = Completion(id: string, outcome: Outcome)

  /** `launched` records the order in which nodes were started; the source keeps no such list. */
  datatype Sched = Sched(
    states: map<string, NodeState>, results: map<string, string>, inFlight: set<string>, launched: seq<string>)

  const IDLE := Sched(map[], map[], {}, [])

  // ---------------------------------------------------------------- K of N

  predicate DidSucceed(states: map<string, NodeState>, d: string) {
    d in states && states[d] != Failed
  }

  predicate DidFail(states: map<string, NodeState>, d: string) {
    d in states && states[d] == Failed
  }

  function Successes(inputs: seq<string>, states: map<string, NodeState>): nat {
    if inputs == [] then 0
    else (if DidSucceed(states, inputs[0]) then 1 else 0) + Successes(inputs[1..], states)
  }

  function Failures(inputs: seq<string>, states: map<string, NodeState>): nat {
    if inputs == [] then 0
    else (if DidFail(states, inputs[0]) then 1 else 0) + Failures(inputs[1..], states)
  }

  function Required(n: DagNode): int { if n.minRequired > 0 then n.minRequired else |n.inputFrom| }

  /** `_are_deps_done`. */
  predicate DepsDone(n: DagNode, states: map<string, NodeState>) {
    || n.inputFrom == []
    || Successes(n.inputFrom, states) >= Required(n)
    || |n.inputFrom| - Failures(n.inputFrom, states) < Required(n)
  }

  predicate Doomed(n: DagNode, states: map<string, NodeState>) {
    n.inputFrom != [] && Successes(n.inputFrom, states) < Required(n)
  }

  /** `_can_end_node_still_succeed`. */
  predicate StillPossible(n: DagNode, states: map<string, NodeState>) {
    n.inputFrom != [] && |n.inputFrom| - Failures(n.inputFrom, states) >= Required(n)
  }

  // ---------------------------------------------------------------- one iteration

  predicate IsReady(n: DagNode, states: map<string, NodeState>, inFlight: set<string>) {
    n.id !in states && n.id !in inFlight && DepsDone(n, states)
  }

  function Ready(nodes: seq<DagNode>, states: map<string, NodeState>, inFlight: set<string>): seq<DagNode> {
    if nodes == [] then []
    else
      var n := nodes[|nodes| - 1];
      Ready(nodes[..|nodes| - 1], states, inFlight) + if IsReady(n, states, inFlight) then [n] else []
  }

  function MarkDoomed(ready: seq<DagNode>, states: map<string, NodeState>): map<string, NodeState> {
    if ready == [] then states
    else
      var n := ready[|ready| - 1];
      var before := MarkDoomed(ready[..|ready| - 1], states);
      if Doomed(n, states) then before[n.id := Failed] else before
  }

  function Viable(ready: seq<DagNode>, states: map<string, NodeState>): seq<DagNode> {
    if ready == [] then []
    else Viable(ready[..|ready| - 1], states) + if Doomed(ready[|ready| - 1], states) then [] else [ready[|ready| - 1]]
  }

  /** Starts viable nodes in order until `limit` are in flight. */
  function Launch(viable: seq<DagNode>, s: Sched, limit: int): Sched {
    if viable == [] || |s.inFlight| >= limit then s
    else Launch(viable[1..], s.(inFlight := s.inFlight + {viable[0].id}, launched := s.launched + [viable[0].id]),
                limit)
  }

  /** The part of an iteration before the wait: fail doomed nodes, start viable ones. */
  function Settle(dag: Dag, limit: int, s: Sched): Sched {
    var ready := Ready(dag.nodes, s.states, s.inFlight);
    Launch(Viable(ready, s.states), s.(states := MarkDoomed(ready, s.states)), limit)
  }

  function Absorb(s: Sched, c: Completion): Sched {
    s.(states := s.states[c.id := c.outcome.state],
       inFlight := s.inFlight - {c.id},
       results := if c.outcome.state == Completed && c.outcome.result.Some?
                  then s.results[c.id := c.outcome.result.value] else s.results)
  }

  ghost predicate LostEndNode(dag: Dag, states: map<string, NodeState>, failed: string, n: DagNode) {
    && n in dag.nodes && IsEnd(dag, n.id)
    && Reachable(dag.edges, failed, n.id) && !StillPossible(n, states)
  }

  ghost predicate MustAbort(dag: Dag, states: map<string, NodeState>, failed: string) {
    exists n :: LostEndNode(dag, states, failed, n)
  }

  // ---------------------------------------------------------------- runs

  /** How far a script takes the loop. */
  datatype End =
    | AllSettled(s: Sched)        // the loop guard became false
    | Stuck(s: Sched)             // nothing in flight: the early break
    | Abandoned(s: Sched, culprit: string)
    | Waiting(s: Sched)           // the script ends while nodes are in flight

  /** One loop iteration from `s` on completion `c`, when it neither breaks nor aborts. */
  ghost function Next(dag: Dag, limit: int, s: Sched, c: Completion): Option<Sched> {
    if |s.states| >= |dag.nodes| || c.id !in Settle(dag, limit, s).inFlight then None
    else
      var u := Absorb(Settle(dag, limit, s), c);
      if c.outcome.state == Failed && MustAbort(dag, u.states, c.id) then None else Some(u)
  }

  /** How the loop ends, or waits, when it cannot take another iteration. */
  ghost function Stop(dag: Dag, limit: int, s: Sched, script: seq<Completion>): End {
    if |s.states| >= |dag.nodes| then AllSettled(s)
    else
      var t := Settle(dag, limit, s);
      if t.inFlight == {} then Stuck(t)
      else if script == [] || script[0].id !in t.inFlight then Waiting(t)
      else Abandoned(Absorb(t, script[0]), script[0].id)
  }

  ghost function Run(dag: Dag, limit: int, s: Sched, script: seq<Completion>): End
    decreases |script|
  {
    if script != [] && Next(dag, limit, s, script[0]).Some?
    then Run(dag, limit, Next(dag, limit, s, script[0]).value, script[1..])
    else Stop(dag, limit, s, script)
  }

  predicate EndNodeFailed(dag: Dag, states: map<string, NodeState>) {
    exists n :: n in dag.nodes && IsEnd(dag, n.id) && DidFail(states, n.id)
  }

  /** The orchestrator reports success when the loop was left without an abort and no end node failed. */
  ghost predicate ReportsSuccess(dag: Dag, end: End) {
    (end.AllSettled? || end.Stuck?) && !EndNodeFailed(dag, end.s.states)
  }

  // ---------------------------------------------------------------- the loop

  /** Everything queued is reachable, and whatever a visited node points to is visited or queued. */
  ghost predicate Frontier(edges: seq<Edge>, start: string, visited: set<string>, queue: seq<string>) {
    && (start in visited || start in queue)
    && (forall q :: q in queue ==> Reachable(edges, start, q))
    && (forall e :: e in edges && e.from in visited ==> e.to in visited || e.to in queue)
  }

  lemma ExpandFrontier(edges: seq<Edge>, start: string, visited: set<string>, queue: seq<string>)
    requires Frontier(edges, start, visited, queue) && queue != []
    ensures queue[0] in visited ==> Frontier(edges, start, visited, queue[1..])
    ensures Frontier(edges, start, visited + {queue[0]}, queue[1..] + Targets(edges, queue[0]))
  {
    var cur := queue[0];
    assert queue == [cur] + queue[1..];
    TargetsAreEdges(edges, cur);
    forall q | q in Targets(edges, cur) ensures Reachable(edges, start, q) {
      ReachableStep(edges, start, cur, q);
    }
    forall e | e in edges && e.from == cur ensures e.to in Targets(edges, cur) {
      assert e == Edge(cur, e.to);
    }
  }

  lemma FrontierExhausted(edges: seq<Edge>, start: string, visited: set<string>, goal: string)
    requires Frontier(edges, start, visited, []) && goal !in visited
    ensures !Reachable(edges, start, goal)
  {
    forall p | IsWalk(edges, p) && p[0] == start ensures p[|p| - 1] != goal {
      ClosedSetKeepsWalks(edges, visited, p);
    }
  }

  /** `_can_reach_end_node`: breadth-first search. */
  method CanReach(edges: seq<Edge>, start: string, goal: string) returns (found: bool)
    ensures found == Reachable(edges, start, goal)
  {
    var visited: set<string> := {};
    var queue := [start];
    ghost var nodes := {start} + set e | e in edges :: e.to;
    assert IsWalk(edges, [start]);
    while queue != []
      invariant Frontier(edges, start, visited, queue)
      invariant goal !in visited && visited <= nodes && forall q :: q in queue ==> q in nodes
      decreases |nodes - visited|, |queue|
    {
      var cur := queue[0];
      if cur == goal { return true; }
      ExpandFrontier(edges, start, visited, queue);
      if cur in visited {
        queue := queue[1..];
      } else {
        TargetsAreNodes(edges, cur, nodes);
        assert nodes - (visited + {cur}) == (nodes - visited) - {cur};
        visited, queue := visited + {cur}, queue[1..] + Targets(edges, cur);
      }
    }
    FrontierExhausted(edges, start, visited, goal);
    found := false;
  }

  method ShouldAbort(dag: Dag, states: map<string, NodeState>, failed: string) returns (abort: bool)
    ensures abort == MustAbort(dag, states, failed)
  {
    for i := 0 to |dag.nodes|
      invariant forall n :: n in dag.nodes[..i] ==> !LostEndNode(dag, states, failed, n)
    {
      var n := dag.nodes[i];
      if IsEnd(dag, n.id) {
        var reached := CanReach(dag.edges, failed, n.id);
        if reached && !StillPossible(n, states) {
          assert LostEndNode(dag, states, failed, n);
          return true;
        }
      }
      assert dag.nodes[..i + 1] == dag.nodes[..i] + [n];
    }
    assert dag.nodes[..|dag.nodes|] == dag.nodes;
    abort := false;
  }

  /** Marking nodes failed does not change who succeeded. */
  lemma {:induction false} FailingKeepsSuccesses(inputs: seq<string>, states: map<string, NodeState>,
                                                 more: map<string, NodeState>)
    requires forall d :: DidSucceed(states, d) <==> DidSucceed(more, d)
    ensures Successes(inputs, states) == Successes(inputs, more)
  {
    if inputs != [] { FailingKeepsSuccesses(inputs[1..], states, more); }
  }

  lemma {:induction false} MarkedMeans(ready: seq<DagNode>, states: map<string, NodeState>)
    requires forall n :: n in ready ==> n.id !in states
    ensures var marked := MarkDoomed(ready, states);
            && (forall d :: d in states ==> d in marked && marked[d] == states[d])
            && (forall d :: d in marked && d !in states ==>
                  marked[d] == Failed && exists n :: n in ready && n.id == d && Doomed(n, states))
            && (forall n :: n in ready && Doomed(n, states) ==> n.id in marked)
            && (forall d :: DidSucceed(states, d) <==> DidSucceed(marked, d))
  {
    if ready != [] {
      assert ready == ready[..|ready| - 1] + [ready[|ready| - 1]];
      MarkedMeans(ready[..|ready| - 1], states);
    }
  }

  lemma AppendDistinct(nodes: seq<DagNode>, n: DagNode)
    requires DistinctIds(nodes) && forall m :: m in nodes ==> m.id != n.id
    ensures DistinctIds(nodes + [n])
  {}

  lemma LastIsDistinct(nodes: seq<DagNode>, m: DagNode)
    requires nodes != [] && DistinctIds(nodes) && m in nodes[..|nodes| - 1]
    ensures m.id != nodes[|nodes| - 1].id
  {}

  lemma {:induction false} ReadyMeans(nodes: seq<DagNode>, states: map<string, NodeState>, inFlight: set<string>)
    ensures forall n :: n in Ready(nodes, states, inFlight) <==> n in nodes && IsReady(n, states, inFlight)
    ensures DistinctIds(nodes) ==> DistinctIds(Ready(nodes, states, inFlight))
  {
    if nodes != [] {
      var n, prior := nodes[|nodes| - 1], nodes[..|nodes| - 1];
      assert nodes == prior + [n];
      ReadyMeans(prior, states, inFlight);
      if DistinctIds(nodes) {
        forall m | m in prior ensures m.id != n.id { LastIsDistinct(nodes, m); }
        AppendDistinct(Ready(prior, states, inFlight), n);
      }
    }
  }

  lemma {:induction false} ViableMeans(ready: seq<DagNode>, states: map<string, NodeState>)
    ensures forall n :: n in Viable(ready, states) <==> n in ready && !Doomed(n, states)
    ensures DistinctIds(ready) ==> DistinctIds(Viable(ready, states))
  {
    if ready != [] {
      var n, prior := ready[|ready| - 1], ready[..|ready| - 1];
      assert ready == prior + [n];
      ViableMeans(prior, states);
      if DistinctIds(ready) {
        forall m | m in prior ensures m.id != n.id { LastIsDistinct(ready, m); }
        AppendDistinct(Viable(prior, states), n);
      }
    }
  }

  // ---------------------------------------------------------------- the loop invariant

  ghost predicate Extends(more: map<string, NodeState>, states: map<string, NodeState>) {
    forall d :: d in states ==> d in more && more[d] == states[d]
  }

  lemma {:induction false} CountsGrow(inputs: seq<string>, states: map<string, NodeState>, more: map<string, NodeState>)
    requires Extends(more, states)
    ensures Successes(inputs, states) <= Successes(inputs, more)
    ensures Failures(inputs, states) <= Failures(inputs, more)
    ensures Successes(inputs, more) + Failures(inputs, more) <= |inputs|
  {
    if inputs != [] { CountsGrow(inputs[1..], states, more); }
  }

  /** The node has declared inputs and too many of them failed for it ever to get its K. */
  predicate OutOfReach(n: DagNode, states: map<string, NodeState>) {
    n.inputFrom != [] && !StillPossible(n, states)
  }

  ghost predicate NodeConsistent(n: DagNode, s: Sched) {
    && (n.id in s.launched ==> !Doomed(n, s.states))
    && (n.id in s.states && n.id !in s.launched ==> s.states[n.id] == Failed && OutOfReach(n, s.states))
  }

  /** Settled and running nodes are disjoint, no more run than allowed, and results belong to completed nodes. */
  ghost predicate TablesOk(dag: Dag, limit: int, s: Sched) {
    && s.states.Keys <= Ids(dag.nodes) && s.inFlight <= Ids(dag.nodes)
    && s.states.Keys !! s.inFlight
    && |s.inFlight| <= Max(0, limit)
    && forall id :: id in s.results ==> id in s.states && s.states[id] == Completed
  }

  /** No node starts twice; what was started is running or settled. */
  ghost predicate LaunchesOk(s: Sched) {
    && NoDuplicates(s.launched)
    && s.inFlight <= Elements(s.launched) <= s.inFlight + s.states.Keys
  }

  ghost predicate NodesOk(dag: Dag, s: Sched) {
    forall n :: n in dag.nodes ==> NodeConsistent(n, s)
  }

  ghost predicate Consistent(dag: Dag, limit: int, s: Sched) {
    TablesOk(dag, limit, s) && LaunchesOk(s) && NodesOk(dag, s)
  }

  lemma {:induction false} LaunchKeepsTables(viable: seq<DagNode>, s: Sched, limit: int)
    ensures var t := Launch(viable, s, limit); t.states == s.states && t.results == s.results
    decreases |viable|
  {
    if viable != [] && |s.inFlight| < limit {
      LaunchKeepsTables(viable[1..],
        s.(inFlight := s.inFlight + {viable[0].id}, launched := s.launched + [viable[0].id]), limit);
    }
  }

  function IdList(nodes: seq<DagNode>): seq<string> { seq(|nodes|, i requires 0 <= i < |nodes| => nodes[i].id) }

  /** Launching starts a prefix of the viable nodes, all of them while there is room. */
  lemma {:induction false} LaunchMeans(viable: seq<DagNode>, s: Sched, limit: int) returns (k: nat)
    ensures k <= |viable|
    ensures Launch(viable, s, limit) ==
              s.(inFlight := s.inFlight + Elements(IdList(viable[..k])), launched := s.launched + IdList(viable[..k]))
    ensures |Launch(viable, s, limit).inFlight| <= Max(|s.inFlight|, limit)
    ensures k < |viable| ==> |Launch(viable, s, limit).inFlight| >= limit
    decreases |viable|
  {
    if viable == [] || |s.inFlight| >= limit {
      k := 0;
      assert IdList(viable[..0]) == [];
      assert s.launched + [] == s.launched;
    } else {
      var v := viable[0];
      var next := s.(inFlight := s.inFlight + {v.id}, launched := s.launched + [v.id]);
      var j := LaunchMeans(viable[1..], next, limit);
      k := j + 1;
      StartOneMore(viable, j, s.inFlight, s.launched);
    }
  }

  lemma StartOneMore(viable: seq<DagNode>, j: nat, inFlight: set<string>, launched: seq<string>)
    requires j < |viable|
    ensures launched + IdList(viable[..j + 1]) == launched + [viable[0].id] + IdList(viable[1..][..j])
    ensures inFlight + Elements(IdList(viable[..j + 1])) ==
            inFlight + {viable[0].id} + Elements(IdList(viable[1..][..j]))
  {
    var rest := IdList(viable[1..][..j]);
    assert IdList(viable[..j + 1]) == [viable[0].id] + rest;
    assert Elements([viable[0].id] + rest) == {viable[0].id} + Elements(rest);
  }

  lemma LaunchesStayDistinct(launched: seq<string>, started: seq<DagNode>)
    requires NoDuplicates(launched) && DistinctIds(started)
    requires forall n :: n in started ==> n.id !in launched
    ensures NoDuplicates(launched + IdList(started))
    ensures Elements(launched + IdList(started)) == Elements(launched) + Elements(IdList(started))
  {
    forall i | 0 <= i < |started| ensures IdList(started)[i] !in launched {
      assert started[i] in started;
    }
  }

  ghost predicate FailsNow(dag: Dag, s: Sched, d: string) {
    exists n :: n in dag.nodes && n.id == d && IsReady(n, s.states, s.inFlight) && Doomed(n, s.states)
  }

  ghost predicate CanStartNow(dag: Dag, s: Sched, d: string) {
    exists n :: n in dag.nodes && n.id == d && IsReady(n, s.states, s.inFlight) && !Doomed(n, s.states)
  }

  /** The K-of-N pass settles exactly the doomed ready nodes, all as failed. */
  lemma SettledStates(dag: Dag, limit: int, s: Sched)
    ensures var t := Settle(dag, limit, s);
            && t.results == s.results
            && Extends(t.states, s.states)
            && (forall d :: d in t.states && d !in s.states <==> FailsNow(dag, s, d))
            && (forall d :: FailsNow(dag, s, d) ==> t.states[d] == Failed)
            && (forall d :: DidSucceed(t.states, d) <==> DidSucceed(s.states, d))
  {
    var ready := Ready(dag.nodes, s.states, s.inFlight);
    ReadyMeans(dag.nodes, s.states, s.inFlight);
    MarkedMeans(ready, s.states);
    LaunchKeepsTables(Viable(ready, s.states), s.(states := MarkDoomed(ready, s.states)), limit);
    var t := Settle(dag, limit, s);
    forall d | FailsNow(dag, s, d) ensures d in t.states && d !in s.states {
      var n :| n in dag.nodes && n.id == d && IsReady(n, s.states, s.inFlight) && Doomed(n, s.states);
      assert n in ready;
    }
  }

  function ViableNow(dag: Dag, s: Sched): seq<DagNode> {
    Viable(Ready(dag.nodes, s.states, s.inFlight), s.states)
  }

  lemma ViableNowMeans(dag: Dag, s: Sched)
    requires DistinctIds(dag.nodes)
    ensures DistinctIds(ViableNow(dag, s))
    ensures forall n :: n in ViableNow(dag, s) <==>
            n in dag.nodes && IsReady(n, s.states, s.inFlight) && !Doomed(n, s.states)
  {
    ReadyMeans(dag.nodes, s.states, s.inFlight);
    ViableMeans(Ready(dag.nodes, s.states, s.inFlight), s.states);
  }

  lemma ViableIdsMean(dag: Dag, s: Sched, k: nat, d: string)
    requires DistinctIds(dag.nodes) && k <= |ViableNow(dag, s)|
    ensures d in Elements(IdList(ViableNow(dag, s)[..k])) ==> CanStartNow(dag, s, d)
    ensures CanStartNow(dag, s, d) && k == |ViableNow(dag, s)| ==> d in Elements(IdList(ViableNow(dag, s)[..k]))
  {
    ViableNowMeans(dag, s);
    var viable := ViableNow(dag, s);
    if d in Elements(IdList(viable[..k])) {
      var i :| 0 <= i < k && IdList(viable[..k])[i] == d;
      assert viable[i] in viable;
    }
    if CanStartNow(dag, s, d) && k == |viable| {
      var n :| n in dag.nodes && n.id == d && IsReady(n, s.states, s.inFlight) && !Doomed(n, s.states);
      assert n in viable;
      var i :| 0 <= i < |viable| && viable[i] == n;
      assert IdList(viable[..k])[i] == d;
    }
  }

  /** The launch pass starts only ready nodes that have their K, and all of those while there is room. */
  lemma SettledLaunches(dag: Dag, limit: int, s: Sched)
    requires DistinctIds(dag.nodes) && LaunchesOk(s) && |s.inFlight| <= Max(0, limit)
    ensures var t := Settle(dag, limit, s);
            && s.inFlight <= t.inFlight
            && NoDuplicates(t.launched)
            && Elements(t.launched) == Elements(s.launched) + t.inFlight
            && |t.inFlight| <= Max(0, limit)
            && (forall d :: d in t.inFlight && d !in s.inFlight ==> CanStartNow(dag, s, d))
            && (|t.inFlight| < limit ==> forall d :: CanStartNow(dag, s, d) ==> d in t.inFlight)
  {
    LaunchesGrow(dag, limit, s);
    LaunchesAreViable(dag, limit, s);
  }

  lemma LaunchesGrow(dag: Dag, limit: int, s: Sched)
    requires DistinctIds(dag.nodes) && LaunchesOk(s)
    ensures var t := Settle(dag, limit, s);
            s.inFlight <= t.inFlight && NoDuplicates(t.launched) &&
              Elements(t.launched) == Elements(s.launched) + t.inFlight
  {
    var k := LaunchedPrefix(dag, limit, s);
    StartedAreNew(dag, s, k);
  }

  lemma LaunchesAreViable(dag: Dag, limit: int, s: Sched)
    requires DistinctIds(dag.nodes)
    ensures var t := Settle(dag, limit, s);
            && |t.inFlight| <= Max(|s.inFlight|, limit)
            && (forall d :: d in t.inFlight && d !in s.inFlight ==> CanStartNow(dag, s, d))
            && (|t.inFlight| < limit ==> forall d :: CanStartNow(dag, s, d) ==> d in t.inFlight)
  {
    var k := LaunchedPrefix(dag, limit, s);
    StartedCanStart(dag, s, k);
  }

  lemma LaunchedPrefix(dag: Dag, limit: int, s: Sched) returns (k: nat)
    ensures var t := Settle(dag, limit, s);
            var viable := ViableNow(dag, s);
            && k <= |viable|
            && t.inFlight == s.inFlight + Elements(IdList(viable[..k])) &&
               t.launched == s.launched + IdList(viable[..k])
            && |t.inFlight| <= Max(|s.inFlight|, limit)
            && (k < |viable| ==> |t.inFlight| >= limit)
  {
    var marked := s.(states := MarkDoomed(Ready(dag.nodes, s.states, s.inFlight), s.states));
    k := LaunchMeans(ViableNow(dag, s), marked, limit);
  }

  lemma StartedCanStart(dag: Dag, s: Sched, k: nat)
    requires DistinctIds(dag.nodes) && k <= |ViableNow(dag, s)|
    ensures forall d :: d in Elements(IdList(ViableNow(dag, s)[..k])) ==> CanStartNow(dag, s, d)
    ensures k == |ViableNow(dag, s)| ==> forall d :: CanStartNow(dag, s, d) ==>
            d in Elements(IdList(ViableNow(dag, s)[..k]))
  {
    forall d ensures d in Elements(IdList(ViableNow(dag, s)[..k])) ==> CanStartNow(dag, s, d)
             ensures CanStartNow(dag, s, d) && k == |ViableNow(dag, s)| ==>
                     d in Elements(IdList(ViableNow(dag, s)[..k]))
    {
      ViableIdsMean(dag, s, k, d);
    }
  }

  lemma StartedAreNew(dag: Dag, s: Sched, k: nat)
    requires DistinctIds(dag.nodes) && LaunchesOk(s) && k <= |ViableNow(dag, s)|
    ensures var started := ViableNow(dag, s)[..k];
            && NoDuplicates(s.launched + IdList(started))
            && Elements(s.launched + IdList(started)) == Elements(s.launched) + Elements(IdList(started))
  {
    ViableNowMeans(dag, s);
    var started := ViableNow(dag, s)[..k];
    forall n | n in started ensures n.id !in s.launched {
      assert n in ViableNow(dag, s);
      assert n.id in s.launched ==> n.id in Elements(s.launched);
    }
    LaunchesStayDistinct(s.launched, started);
  }

  /** The K-of-N pass over the ready list, which reads the table it is updating. */
  method FailDoomed(ready: seq<DagNode>, before: map<string, NodeState>)
    returns (states: map<string, NodeState>, viable: seq<DagNode>)
    requires forall n :: n in ready ==> n.id !in before
    ensures states == MarkDoomed(ready, before) && viable == Viable(ready, before)
  {
    states, viable := before, [];
    for i := 0 to |ready|
      invariant states == MarkDoomed(ready[..i], before) && viable == Viable(ready[..i], before)
    {
      var n := ready[i];
      MarkedMeans(ready[..i], before);
      FailingKeepsSuccesses(n.inputFrom, before, states);
      assert ready[..i + 1][..i] == ready[..i];
      if n.inputFrom != [] && Successes(n.inputFrom, states) < Required(n) {
        states := states[n.id := Failed];
      } else {
        viable := viable + [n];
      }
    }
    assert ready[..|ready|] == ready;
  }

  method StartNodes(viable: seq<DagNode>, ghost s: Sched, limit: int, running: set<string>)
    returns (inFlight: set<string>, ghost launched: seq<string>)
    requires running == s.inFlight
    ensures s.(inFlight := inFlight, launched := launched) == Launch(viable, s, limit)
  {
    inFlight, launched := running, s.launched;
    for i := 0 to |viable|
      invariant Launch(viable, s, limit) == Launch(viable[i..], s.(inFlight := inFlight, launched := launched), limit)
    {
      if |inFlight| >= limit { return; }
      assert viable[i..][1..] == viable[i + 1..];
      inFlight, launched := inFlight + {viable[i].id}, launched + [viable[i].id];
    }
  }

  datatype Report = Success | EndNodesFailed | AbortedBy(id: string) | Cancelled

  lemma DistinctNodes(nodes: seq<DagNode>, n: DagNode, m: DagNode)
    requires DistinctIds(nodes) && n in nodes && m in nodes && n.id == m.id
    ensures n == m
  {}

  lemma StartsOrFails(dag: Dag, s: Sched, d: string)
    requires DistinctIds(dag.nodes) && CanStartNow(dag, s, d)
    ensures !FailsNow(dag, s, d) && d in Ids(dag.nodes) && d !in s.states
  {
    var n :| n in dag.nodes && n.id == d && IsReady(n, s.states, s.inFlight) && !Doomed(n, s.states);
    forall m | m in dag.nodes && m.id == d ensures !Doomed(m, s.states) {
      DistinctNodes(dag.nodes, n, m);
    }
  }

  lemma SettleKeepsTables(dag: Dag, limit: int, s: Sched)
    requires DistinctIds(dag.nodes) && TablesOk(dag, limit, s) && LaunchesOk(s)
    ensures TablesOk(dag, limit, Settle(dag, limit, s)) && LaunchesOk(Settle(dag, limit, s))
  {
    var t := Settle(dag, limit, s);
    SettledStates(dag, limit, s);
    SettledLaunches(dag, limit, s);
    forall d | d in t.inFlight ensures d in Ids(dag.nodes) && d !in t.states {
      if d !in s.inFlight {
        StartsOrFails(dag, s, d);
      } else if FailsNow(dag, s, d) {
        assert false;
      }
    }
    forall d | d in t.states ensures d in Ids(dag.nodes) {}
  }

  lemma SettleKeepsNode(dag: Dag, limit: int, s: Sched, n: DagNode)
    requires DistinctIds(dag.nodes) && Consistent(dag, limit, s) && n in dag.nodes
    ensures NodeConsistent(n, Settle(dag, limit, s))
  {
    var t := Settle(dag, limit, s);
    SettledStates(dag, limit, s);
    SettledLaunches(dag, limit, s);
    assert NodeConsistent(n, s);
    CountsGrow(n.inputFrom, s.states, t.states);
    assert n.id in t.launched <==> n.id in Elements(t.launched);
    assert n.id in s.launched <==> n.id in Elements(s.launched);
    if n.id in t.launched && n.id !in s.launched {
      var m :| m in dag.nodes && m.id == n.id && !Doomed(m, s.states);
      DistinctNodes(dag.nodes, n, m);
    }
    if n.id in t.states && n.id !in s.states {
      var m :| m in dag.nodes && m.id == n.id && IsReady(m, s.states, s.inFlight) && Doomed(m, s.states);
      DistinctNodes(dag.nodes, n, m);
    }
  }

  lemma SettleKeepsConsistent(dag: Dag, limit: int, s: Sched)
    requires DistinctIds(dag.nodes) && Consistent(dag, limit, s)
    ensures Consistent(dag, limit, Settle(dag, limit, s))
  {
    SettleKeepsTables(dag, limit, s);
    forall n | n in dag.nodes ensures NodeConsistent(n, Settle(dag, limit, s)) {
      SettleKeepsNode(dag, limit, s, n);
    }
  }

  lemma AbsorbKeepsTables(dag: Dag, limit: int, s: Sched, c: Completion)
    requires TablesOk(dag, limit, s) && LaunchesOk(s) && c.id in s.inFlight
    ensures TablesOk(dag, limit, Absorb(s, c)) && LaunchesOk(Absorb(s, c))
    ensures |Absorb(s, c).states| == |s.states| + 1
  {
    AbsorbedKeys(s, c);
    SubsetSize(Absorb(s, c).inFlight, s.inFlight);
    AbsorbKeepsLaunches(s, c);
  }

  lemma AbsorbedKeys(s: Sched, c: Completion)
    requires c.id in s.inFlight && s.states.Keys !! s.inFlight
    ensures Absorb(s, c).states.Keys == s.states.Keys + {c.id}
    ensures |Absorb(s, c).states| == |s.states| + 1
  {
    var t := Absorb(s, c);
    assert t.states.Keys == s.states.Keys + {c.id};
    assert |t.states| == |t.states.Keys| && |s.states| == |s.states.Keys|;
  }

  lemma AbsorbKeepsLaunches(s: Sched, c: Completion)
    requires LaunchesOk(s) && c.id in s.inFlight
    ensures LaunchesOk(Absorb(s, c))
  {
    assert Absorb(s, c).states.Keys == s.states.Keys + {c.id};
  }

  lemma AbsorbKeepsConsistent(dag: Dag, limit: int, s: Sched, c: Completion)
    requires Consistent(dag, limit, s) && c.id in s.inFlight
    ensures Consistent(dag, limit, Absorb(s, c))
  {
    var t := Absorb(s, c);
    AbsorbKeepsTables(dag, limit, s, c);
    assert c.id in Elements(s.launched);
    assert Extends(t.states, s.states);
    forall n | n in dag.nodes ensures NodeConsistent(n, t) {
      assert NodeConsistent(n, s);
      CountsGrow(n.inputFrom, s.states, t.states);
    }
  }

  /** One whole iteration that neither breaks nor aborts keeps the invariant and settles at least one node. */
  lemma IterationKeepsConsistent(dag: Dag, limit: int, s: Sched, c: Completion)
    requires DistinctIds(dag.nodes) && Consistent(dag, limit, s) && c.id in Settle(dag, limit, s).inFlight
    ensures var u := Absorb(Settle(dag, limit, s), c);
            Consistent(dag, limit, u) && Extends(u.states, s.states) && |u.states| > |s.states|
  {
    var t := Settle(dag, limit, s);
    SettleKeepsConsistent(dag, limit, s);
    SettledStates(dag, limit, s);
    AbsorbKeepsConsistent(dag, limit, t, c);
    AbsorbKeepsTables(dag, limit, t, c);
    SubsetSize(s.states.Keys, t.states.Keys);
  }

  // ---------------------------------------------------------------- the loop's position in a run

  /** Where the loop stands after seeing all of `script`, if it is still going. */
  ghost function After(dag: Dag, limit: int, s: Sched, script: seq<Completion>): Option<Sched>
    decreases |script|
  {
    if script == [] then Some(s)
    else match Next(dag, limit, s, script[0])
      case None => None
      case Some(u) => After(dag, limit, u, script[1..])
  }

  lemma {:induction false} RunAfter(dag: Dag, limit: int, s: Sched, script: seq<Completion>, tail: seq<Completion>)
    requires After(dag, limit, s, script).Some?
    ensures Run(dag, limit, s, script + tail) == Run(dag, limit, After(dag, limit, s, script).value, tail)
    decreases |script|
  {
    if script == [] {
      assert script + tail == tail;
    } else {
      assert (script + tail)[1..] == script[1..] + tail;
      RunAfter(dag, limit, Next(dag, limit, s, script[0]).value, script[1..], tail);
    }
  }

  lemma {:induction false} AfterOneMore(dag: Dag, limit: int, s: Sched, script: seq<Completion>, c: Completion)
    requires After(dag, limit, s, script).Some?
    ensures After(dag, limit, s, script + [c]) == Next(dag, limit, After(dag, limit, s, script).value, c)
    decreases |script|
  {
    if script == [] {
      assert script + [c] == [c];
    } else {
      assert (script + [c])[1..] == script[1..] + [c];
      AfterOneMore(dag, limit, Next(dag, limit, s, script[0]).value, script[1..], c);
    }
  }

  lemma RunStopsHere(dag: Dag, limit: int, script: seq<Completion>, s: Sched)
    requires After(dag, limit, IDLE, script) == Some(s)
    ensures Run(dag, limit, IDLE, script) == Stop(dag, limit, s, [])
  {
    RunAfter(dag, limit, IDLE, script, []);
    assert script + [] == script;
  }

  lemma RunAborts(dag: Dag, limit: int, script: seq<Completion>, s: Sched, c: Completion)
    requires After(dag, limit, IDLE, script) == Some(s) && |s.states| < |dag.nodes|
    requires c.id in Settle(dag, limit, s).inFlight && c.outcome.state == Failed
    requires MustAbort(dag, Absorb(Settle(dag, limit, s), c).states, c.id)
    ensures Run(dag, limit, IDLE, script + [c]) == Abandoned(Absorb(Settle(dag, limit, s), c), c.id)
  {
    RunAfter(dag, limit, IDLE, script, [c]);
  }

  function Verdict(dag: Dag, states: map<string, NodeState>): Report {
    if EndNodeFailed(dag, states) then EndNodesFailed else Success
  }

  method SettleTables(dag: Dag, limit: int, ghost s: Sched, before: map<string, NodeState>, running: set<string>)
    returns (states: map<string, NodeState>, inFlight: set<string>, ghost launched: seq<string>)
    requires before == s.states && running == s.inFlight
    ensures s.(states := states, inFlight := inFlight, launched := launched) == Settle(dag, limit, s)
  {
    var ready := Ready(dag.nodes, before, running);
    ReadyMeans(dag.nodes, before, running);
    var viable;
    states, viable := FailDoomed(ready, before);
    inFlight, launched := StartNodes(viable, s.(states := states), limit, running);
  }

  /** The report, states and results are those of the run that saw `script`, and that run has ended. */
  ghost predicate Explains(dag: Dag, limit: int, script: seq<Completion>, report: Report,
                           states: map<string, NodeState>, results: map<string, string>)
  {
    var end := Run(dag, limit, IDLE, script);
    && !end.Waiting?
    && end.s.states == states && end.s.results == results
    && (report == Success <==> ReportsSuccess(dag, end))
    && (report.AbortedBy? <==> end.Abandoned?)
    && (report.AbortedBy? ==> report.id == end.culprit)
  }

  lemma StopExplained(dag: Dag, limit: int, script: seq<Completion>, s: Sched)
    requires After(dag, limit, IDLE, script) == Some(s)
    requires |s.states| >= |dag.nodes| || Settle(dag, limit, s).inFlight == {}
    ensures var t := if |s.states| >= |dag.nodes| then s else Settle(dag, limit, s);
            Explains(dag, limit, script, Verdict(dag, t.states), t.states, t.results)
  {
    RunStopsHere(dag, limit, script, s);
  }

  lemma AbortExplained(dag: Dag, limit: int, script: seq<Completion>, s: Sched, c: Completion)
    requires After(dag, limit, IDLE, script) == Some(s) && |s.states| < |dag.nodes|
    requires c.id in Settle(dag, limit, s).inFlight && c.outcome.state == Failed
    requires MustAbort(dag, Absorb(Settle(dag, limit, s), c).states, c.id)
    ensures var u := Absorb(Settle(dag, limit, s), c);
            Explains(dag, limit, script + [c], AbortedBy(c.id), u.states, u.results)
  {
    RunAborts(dag, limit, script, s, c);
  }

  datatype Turn = Broke | Aborted(culprit: string) | Moved

  /** What one turn of the loop leaves: the settled tables, or those after the completion `c`. */
  ghost predicate TurnEnds(dag: Dag, limit: int, s: Sched, turn: Turn, u: Sched, c: Completion) {
    var t := Settle(dag, limit, s);
    match turn
    case Broke => t.inFlight == {} && u == t
    case Aborted(id) =>
      id == c.id && c.id in t.inFlight && c.outcome.state == Failed && u == Absorb(t, c) &&
      MustAbort(dag, u.states, c.id)
    case Moved =>
      c.id in t.inFlight && u == Absorb(t, c) &&
      !(c.outcome.state == Failed && MustAbort(dag, u.states, c.id))
  }

  /** One turn of the loop: which node finishes, and how, is arbitrary. */
  method TakeTurn(dag: Dag, limit: int, ghost s: Sched, states0: map<string, NodeState>, results0: map<string, string>,
                  running: set<string>)
    returns (turn: Turn, states: map<string, NodeState>, results: map<string, string>,
             inFlight: set<string>, ghost u: Sched, ghost c: Completion)
    requires s.states == states0 && s.results == results0 && s.inFlight == running
    ensures u.states == states && u.results == results && u.inFlight == inFlight
    ensures TurnEnds(dag, limit, s, turn, u, c)
  {
    ghost var launched;
    states, inFlight, launched := SettleTables(dag, limit, s, states0, running);
    results := results0;
    c := Completion("", Outcome(Failed, None));
    u := Sched(states, results, inFlight, launched);
    if inFlight == {} { return Broke, states, results, inFlight, u, c; }
    var id :| id in inFlight;
    var outcome: Outcome := *;
    c := Completion(id, outcome);
    inFlight := inFlight - {id};
    states := states[id := outcome.state];
    if outcome.state == Completed && outcome.result.Some? {
      results := results[id := outcome.result.value];
    }
    u := Sched(states, results, inFlight, launched);
    turn := Moved;
    if outcome.state == Failed {
      var abort := ShouldAbort(dag, states, id);
      if abort { turn := Aborted(id); }
    }
  }

  /**
   `_run_dag`. The completions are chosen arbitrarily among the nodes in flight; whatever the choices, the loop
   ends and follows `Run` on the script it saw. Cancellation may strike at the top of any iteration.
   */
  method RunDag(dag: Dag, limit: int)
    returns (report: Report, states: map<string, NodeState>, results: map<string, string>)
    requires DistinctIds(dag.nodes)
    ensures report != Cancelled ==> exists script :: Explains(dag, limit, script, report, states, results)
    ensures report == Success || report == EndNodesFailed ==> report == Verdict(dag, states)
  {
    var inFlight: set<string> := {};
    states, results := map[], map[];
    ghost var script: seq<Completion>, s := [], IDLE;
    while |states| < |dag.nodes|
      invariant s.states == states && s.results == results && s.inFlight == inFlight
      invariant Consistent(dag, limit, s) && After(dag, limit, IDLE, script) == Some(s)
      decreases |dag.nodes| - |states|
    {
      if * { return Cancelled, states, results; }
      var turn; ghost var u, c;
      turn, states, results, inFlight, u, c := TakeTurn(dag, limit, s, states, results, inFlight);
      match turn
      case Broke =>
        StopExplained(dag, limit, script, s);
        return Verdict(dag, states), states, results;
      case Aborted(id) =>
        AbortExplained(dag, limit, script, s, c);
        return AbortedBy(id), states, results;
      case Moved =>
        IterationKeepsConsistent(dag, limit, s, c);
        AfterOneMore(dag, limit, IDLE, script, c);
        script, s := script + [c], u;
    }
    StopExplained(dag, limit, script, s);
    report := Verdict(dag, states);
  }
}
