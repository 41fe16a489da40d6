/**
 What the K-of-N rule means for the inputs of a node, stated on the declared inputs and on the states alone: which
 nodes are started, failed and given up on, over every run, and which results a run keeps.
 */
module SchedulerInputs {
  import opened Common
  import opened Graphs
  import opened DagValidator
  import opened Scheduler
  import opened SchedulerRuns

  // ---------------------------------------------------------------- inputs

  predicate Delivered(states: map<string, NodeState>, d: string) {
    d in states && (states[d] == Completed || states[d] == Skipped)
  }

  predicate Broken(states: map<string, NodeState>, d: string) { d in states && states[d] == Failed }

  /** No declared input is missing; with a positive `minRequired`, that many of them are there. */
  predicate HasInputs(n: DagNode, states: map<string, NodeState>) {
    if n.inputFrom == [] then true
    else if n.minRequired <= 0 then forall d :: d in n.inputFrom ==> Delivered(states, d)
    else |set i | 0 <= i < |n.inputFrom| && Delivered(states, n.inputFrom[i])| >= n.minRequired
  }

  /** Some input failed; with a positive `minRequired`, fewer than that many have not. */
  predicate LostInputs(n: DagNode, states: map<string, NodeState>) {
    if n.inputFrom == [] then false
    else if n.minRequired <= 0 then exists d :: d in n.inputFrom && Broken(states, d)
    else |set i | 0 <= i < |n.inputFrom| && !Broken(states, n.inputFrom[i])| < n.minRequired
  }

  // Counting one by one is counting indices.

  function Marked(inputs: seq<string>, p: string -> bool): set<int> { set i | 0 <= i < |inputs| && p(inputs[i]) }

  function Count(inputs: seq<string>, p: string -> bool): nat {
    if inputs == [] then 0 else (if p(inputs[0]) then 1 else 0) + Count(inputs[1..], p)
  }

  lemma {:induction false} CountLast(inputs: seq<string>, x: string, p: string -> bool)
    ensures Count(inputs + [x], p) == Count(inputs, p) + if p(x) then 1 else 0
  {
    if inputs == [] {
      assert Count([x], p) == (if p(x) then 1 else 0) + Count([], p);
    } else {
      CountLast(inputs[1..], x, p);
      assert (inputs + [x])[1..] == inputs[1..] + [x];
    }
  }

  lemma {:induction false} CountsIndices(inputs: seq<string>, p: string -> bool)
    ensures Count(inputs, p) == |Marked(inputs, p)|
  {
    if inputs != [] {
      var n := |inputs| - 1;
      var prior, x := inputs[..n], inputs[n];
      assert inputs == prior + [x];
      CountsIndices(prior, p);
      CountLast(prior, x, p);
      MarkedLast(inputs, p);
    }
  }

  lemma MarkedLast(inputs: seq<string>, p: string -> bool)
    requires inputs != []
    ensures var n := |inputs| - 1;
            |Marked(inputs, p)| == |Marked(inputs[..n], p)| + if p(inputs[n]) then 1 else 0
  {
    var n := |inputs| - 1;
    var prior := Marked(inputs[..n], p);
    assert Marked(inputs, p) == if p(inputs[n]) then prior + {n} else prior;
    assert n !in prior;
  }

  lemma {:induction false} CountsAll(inputs: seq<string>, p: string -> bool)
    ensures Count(inputs, p) <= |inputs|
    ensures Count(inputs, p) == |inputs| <==> forall d :: d in inputs ==> p(d)
  {
    if inputs != [] {
      CountsAll(inputs[1..], p);
      assert inputs == [inputs[0]] + inputs[1..];
    }
  }

  lemma {:induction false} CountsAgree(inputs: seq<string>, states: map<string, NodeState>)
    ensures Successes(inputs, states) == Count(inputs, d => Delivered(states, d))
    ensures |inputs| - Failures(inputs, states) == Count(inputs, d => !Broken(states, d))
  {
    if inputs != [] { CountsAgree(inputs[1..], states); }
  }

  lemma InputsMean(n: DagNode, states: map<string, NodeState>)
    ensures HasInputs(n, states) <==> !Doomed(n, states)
    ensures LostInputs(n, states) <==> OutOfReach(n, states)
    ensures DepsDone(n, states) <==> HasInputs(n, states) || LostInputs(n, states)
  {
    var good, left := (d: string) => Delivered(states, d), (d: string) => !Broken(states, d);
    CountsAgree(n.inputFrom, states);
    CountsIndices(n.inputFrom, good);
    CountsIndices(n.inputFrom, left);
    CountsAll(n.inputFrom, good);
    CountsAll(n.inputFrom, left);
    assert Marked(n.inputFrom, good) == set i | 0 <= i < |n.inputFrom| && Delivered(states, n.inputFrom[i]);
    assert Marked(n.inputFrom, left) == set i | 0 <= i < |n.inputFrom| && !Broken(states, n.inputFrom[i]);
  }

  // ---------------------------------------------------------------- one iteration

  predicate Idle(s: Sched, n: DagNode) { n.id !in s.states && n.id !in s.inFlight }

  /**
   Before it waits, an iteration starts only idle nodes that have their inputs, and all of them while there is room; it
   fails exactly the idle nodes that have lost theirs.
   */
  lemma IterationMeans(dag: Dag, limit: int, s: Sched, n: DagNode)
    requires DistinctIds(dag.nodes) && LaunchesOk(s) && |s.inFlight| <= Max(0, limit) && n in dag.nodes
    ensures var t := Settle(dag, limit, s);
            && (n.id in t.inFlight && n.id !in s.inFlight ==> Idle(s, n) && HasInputs(n, s.states))
            && (Idle(s, n) && HasInputs(n, s.states) && |t.inFlight| < limit ==> n.id in t.inFlight)
            && (n.id in t.states && n.id !in s.states <==> Idle(s, n) && LostInputs(n, s.states))
            && (n.id in t.states && n.id !in s.states ==> t.states[n.id] == Failed)
  {
    StartOf(dag, limit, s, n.id);
    FailureOf(dag, limit, s, n.id);
    NowMeans(dag, s, n);
    ReadyNodes(n, s);
  }

  lemma ReadyNodes(n: DagNode, s: Sched)
    ensures IsReady(n, s.states, s.inFlight) && !Doomed(n, s.states) <==> Idle(s, n) && HasInputs(n, s.states)
    ensures IsReady(n, s.states, s.inFlight) && Doomed(n, s.states) <==> Idle(s, n) && LostInputs(n, s.states)
  {
    InputsMean(n, s.states);
    CountsGrow(n.inputFrom, s.states, s.states);
  }

  lemma StartOf(dag: Dag, limit: int, s: Sched, d: string)
    requires DistinctIds(dag.nodes) && LaunchesOk(s) && |s.inFlight| <= Max(0, limit)
    ensures d in Settle(dag, limit, s).inFlight && d !in s.inFlight ==> CanStartNow(dag, s, d)
    ensures CanStartNow(dag, s, d) && |Settle(dag, limit, s).inFlight| < limit ==> d in Settle(dag, limit, s).inFlight
  {
    SettledLaunches(dag, limit, s);
  }

  lemma FailureOf(dag: Dag, limit: int, s: Sched, d: string)
    ensures d in Settle(dag, limit, s).states && d !in s.states <==> FailsNow(dag, s, d)
    ensures FailsNow(dag, s, d) ==> Settle(dag, limit, s).states[d] == Failed
  {
    SettledStates(dag, limit, s);
  }

  lemma NowMeans(dag: Dag, s: Sched, n: DagNode)
    requires DistinctIds(dag.nodes) && n in dag.nodes
    ensures CanStartNow(dag, s, n.id) <==> IsReady(n, s.states, s.inFlight) && !Doomed(n, s.states)
    ensures FailsNow(dag, s, n.id) <==> IsReady(n, s.states, s.inFlight) && Doomed(n, s.states)
  {
    forall m | m in dag.nodes && m.id == n.id ensures m == n { DistinctNodes(dag.nodes, n, m); }
  }

  /** A failure aborts the run exactly when an end node that it can reach has no inputs at all or has lost them. */
  lemma AbortsExactlyWhen(dag: Dag, states: map<string, NodeState>, failed: string)
    ensures MustAbort(dag, states, failed) <==>
              exists n :: && n in dag.nodes && (forall e :: e in dag.edges ==> e.from != n.id)
                          && Reachable(dag.edges, failed, n.id) && (n.inputFrom == [] || LostInputs(n, states))
  {
    forall n: DagNode ensures LostInputs(n, states) <==> OutOfReach(n, states) { InputsMean(n, states); }
    forall n: DagNode
      ensures LostEndNode(dag, states, failed, n) <==>
                && n in dag.nodes && (forall e :: e in dag.edges ==> e.from != n.id)
                && Reachable(dag.edges, failed, n.id) && (n.inputFrom == [] || LostInputs(n, states))
    {
      assert OutOfReach(n, states) <==> n.inputFrom != [] && !StillPossible(n, states);
    }
  }

  // ---------------------------------------------------------------- every run

  /** Over every run: what was started had its inputs, and what failed without being started had lost them. */
  lemma EveryStartHadItsInputs(dag: Dag, limit: int, s: Sched, script: seq<Completion>, n: DagNode)
    requires DistinctIds(dag.nodes) && Consistent(dag, limit, s) && n in dag.nodes
    ensures var t := Run(dag, limit, s, script).s;
            && (n.id in t.launched ==> HasInputs(n, t.states))
            && (n.id in t.states && n.id !in t.launched ==> t.states[n.id] == Failed && LostInputs(n, t.states))
  {
    EveryRunIsSafe(dag, limit, s, script);
    var t := Run(dag, limit, s, script).s;
    assert NodeConsistent(n, t);
    InputsMean(n, t.states);
  }

  /** Whenever the loop waits with room left, every unsettled node that has its inputs is running. */
  lemma {:induction false} WaitingIsBusy(dag: Dag, limit: int, s: Sched, script: seq<Completion>, n: DagNode)
    requires DistinctIds(dag.nodes) && Consistent(dag, limit, s) && n in dag.nodes
    ensures var end := Run(dag, limit, s, script);
            end.Waiting? && |end.s.inFlight| < limit && n.id !in end.s.states && HasInputs(n, end.s.states) ==>
              n.id in end.s.inFlight
    decreases |script|
  {
    if script != [] && Next(dag, limit, s, script[0]).Some? {
      NextIsSafe(dag, limit, s, script[0]);
      WaitingIsBusy(dag, limit, Next(dag, limit, s, script[0]).value, script[1..], n);
    } else if Stop(dag, limit, s, script).Waiting? {
      StopStates(dag, limit, s, script);
      SettledIsBusy(dag, limit, s, n);
    }
  }

  lemma SettledIsBusy(dag: Dag, limit: int, s: Sched, n: DagNode)
    requires DistinctIds(dag.nodes) && Consistent(dag, limit, s) && n in dag.nodes
    ensures var t := Settle(dag, limit, s);
            |t.inFlight| < limit && n.id !in t.states && HasInputs(n, t.states) ==> n.id in t.inFlight
  {
    var t := Settle(dag, limit, s);
    IterationMeans(dag, limit, s, n);
    DeliveriesStay(dag, limit, s);
    SameInputs(n, s.states, t.states);
    StillRunning(dag, limit, s, n.id);
  }

  lemma DeliveriesStay(dag: Dag, limit: int, s: Sched)
    ensures forall d :: Delivered(s.states, d) <==> Delivered(Settle(dag, limit, s).states, d)
  {
    SettledStates(dag, limit, s);
    var t := Settle(dag, limit, s);
    forall d ensures Delivered(s.states, d) <==> Delivered(t.states, d) {
      assert DidSucceed(t.states, d) <==> DidSucceed(s.states, d);
    }
  }

  lemma StillRunning(dag: Dag, limit: int, s: Sched, d: string)
    requires DistinctIds(dag.nodes) && Consistent(dag, limit, s)
    ensures d in s.inFlight ==> d in Settle(dag, limit, s).inFlight
    ensures d in s.states ==> d in Settle(dag, limit, s).states
  {
    SettledLaunches(dag, limit, s);
    SettledStates(dag, limit, s);
  }

  lemma SameInputs(n: DagNode, a: map<string, NodeState>, b: map<string, NodeState>)
    requires forall d :: Delivered(a, d) <==> Delivered(b, d)
    ensures HasInputs(n, a) <==> HasInputs(n, b)
  {
    assert (set i | 0 <= i < |n.inputFrom| && Delivered(a, n.inputFrom[i])) ==
           (set i | 0 <= i < |n.inputFrom| && Delivered(b, n.inputFrom[i]));
  }

  /** An abort is never premature: no continuation could give the end node it is blamed on its inputs. */
  lemma AbortIsJustified(dag: Dag, limit: int, s: Sched, script: seq<Completion>) returns (n: DagNode)
    requires Run(dag, limit, s, script).Abandoned?
    ensures var end := Run(dag, limit, s, script);
            && LostEndNode(dag, end.s.states, end.culprit, n)
            && (n.inputFrom != [] ==> forall more :: Extends(more, end.s.states) ==> !HasInputs(n, more))
  {
    AbortIsNeverPremature(dag, limit, s, script);
    var end := Run(dag, limit, s, script);
    n :| LostEndNode(dag, end.s.states, end.culprit, n)
         && (n.inputFrom != [] ==>
               forall more :: Extends(more, end.s.states) ==> Successes(n.inputFrom, more) < Required(n));
    if n.inputFrom != [] {
      forall more | Extends(more, end.s.states) ensures !HasInputs(n, more) { InputsMean(n, more); }
    }
  }

  // ---------------------------------------------------------------- results

  /** What the script says of node `id`: the first completion of it. */
  function Told(script: seq<Completion>, id: string): Option<Outcome> {
    if script == [] then None
    else if script[0].id == id then Some(script[0].outcome)
    else Told(script[1..], id)
  }

  lemma SettledOf(dag: Dag, limit: int, s: Sched, id: string)
    requires DistinctIds(dag.nodes) && Consistent(dag, limit, s)
    ensures var t := Settle(dag, limit, s);
            && (id in s.states ==> id in t.states && t.states[id] == s.states[id])
            && (id !in s.states ==> !DidSucceed(t.states, id) && id !in t.results)
            && Same(s, t, id)
  {
    SettledStates(dag, limit, s);
    var t := Settle(dag, limit, s);
    assert DidSucceed(t.states, id) <==> DidSucceed(s.states, id);
  }

  lemma RunningIsUnsettled(dag: Dag, limit: int, s: Sched, id: string)
    requires DistinctIds(dag.nodes) && Consistent(dag, limit, s) && id in Settle(dag, limit, s).inFlight
    ensures id !in s.states && id !in Settle(dag, limit, s).results
  {
    SettlingIsSafe(dag, limit, s);
    SettledStates(dag, limit, s);
  }

  /** What an iteration does to one node. */
  lemma StepOf(dag: Dag, limit: int, s: Sched, c: Completion, id: string)
    requires DistinctIds(dag.nodes) && Consistent(dag, limit, s) && c.id in Settle(dag, limit, s).inFlight
    ensures var u := Absorb(Settle(dag, limit, s), c);
            && (id in s.states ==> id != c.id && id in u.states && u.states[id] == s.states[id] && Same(s, u, id))
            && (id !in s.states && id != c.id ==> !DidSucceed(u.states, id) && id !in u.results)
            && (id == c.id ==>
                  && id in u.states && u.states[id] == c.outcome.state
                  && (id in u.results <==> c.outcome.state == Completed && c.outcome.result.Some?)
                  && (id in u.results ==> c.outcome.result == Some(u.results[id])))
  {
    SettledOf(dag, limit, s, id);
    RunningIsUnsettled(dag, limit, s, c.id);
    AbsorbOf(Settle(dag, limit, s), c, id);
  }

  lemma AbsorbOf(t: Sched, c: Completion, id: string)
    requires c.id !in t.results
    ensures var u := Absorb(t, c);
            && (id != c.id ==>
                  && (id in u.states <==> id in t.states) && (id in t.states ==> u.states[id] == t.states[id])
                  && Same(t, u, id))
            && (id == c.id ==>
                  && id in u.states && u.states[id] == c.outcome.state
                  && (id in u.results <==> c.outcome.state == Completed && c.outcome.result.Some?)
                  && (id in u.results ==> c.outcome.result == Some(u.results[id])))
  {}

  /** The result of `id` is the same in both. */
  predicate Same(s: Sched, u: Sched, id: string) {
    (id in u.results <==> id in s.results) && (id in s.results ==> u.results[id] == s.results[id])
  }

  /** What ends a run does to one node. */
  lemma StopOf(dag: Dag, limit: int, s: Sched, script: seq<Completion>, id: string)
    requires DistinctIds(dag.nodes) && Consistent(dag, limit, s)
    ensures var t, told := Stop(dag, limit, s, script).s, Told(script, id);
            && (id in s.states ==> id in t.states && t.states[id] == s.states[id] && Same(s, t, id))
            && (id !in s.states ==> AsTold(t, id, told))
  {
    StopStates(dag, limit, s, script);
    SettledStates(dag, limit, s);
    if Stop(dag, limit, s, script).Abandoned? { StepOf(dag, limit, s, script[0], id); }
  }

  /** Succeeded only as told, and with exactly the result told of. */
  predicate AsTold(t: Sched, id: string, told: Option<Outcome>) {
    && (DidSucceed(t.states, id) ==> told.Some? && told.value.state == t.states[id])
    && (id in t.results <==> id in t.states && t.states[id] == Completed && told.Some? && told.value.result.Some?)
    && (id in t.results ==> told.value.result == Some(t.results[id]))
  }

  /** A node that completes keeps the result it returned, if it returned one, and no other. */
  lemma {:induction false} ResultsAreReturned(dag: Dag, limit: int, s: Sched, script: seq<Completion>, id: string)
    requires DistinctIds(dag.nodes) && Consistent(dag, limit, s) && id !in s.states
    ensures AsTold(Run(dag, limit, s, script).s, id, Told(script, id))
    decreases |script|
  {
    if script != [] && Next(dag, limit, s, script[0]).Some? {
      var next := Next(dag, limit, s, script[0]).value;
      NextIsSafe(dag, limit, s, script[0]);
      StepOf(dag, limit, s, script[0], id);
      if id in next.states {
        ResultsStay(dag, limit, next, script[1..], id);
      } else {
        ResultsAreReturned(dag, limit, next, script[1..], id);
      }
    } else {
      StopOf(dag, limit, s, script, id);
    }
  }

  /** What is settled, and its result, does not change. */
  lemma {:induction false} ResultsStay(dag: Dag, limit: int, s: Sched, script: seq<Completion>, id: string)
    requires DistinctIds(dag.nodes) && Consistent(dag, limit, s) && id in s.states
    ensures var t := Run(dag, limit, s, script).s;
            id in t.states && t.states[id] == s.states[id] && Same(s, t, id)
    decreases |script|
  {
    if script != [] && Next(dag, limit, s, script[0]).Some? {
      NextIsSafe(dag, limit, s, script[0]);
      StepOf(dag, limit, s, script[0], id);
      ResultsStay(dag, limit, Next(dag, limit, s, script[0]).value, script[1..], id);
    } else {
      StopOf(dag, limit, s, script, id);
    }
  }
}
