/** What every run of the DAG scheduler satisfies, and exactly when a reported success can be trusted. */
module SchedulerRuns {
  import opened Common
  import opened Graphs
  import opened DagValidator
  import opened Scheduler
  import StableTopology

  // ---------------------------------------------------------------- safety of every run

  lemma StopIsSafe(dag: Dag, limit: int, s: Sched, script: seq<Completion>)
    requires DistinctIds(dag.nodes) && Consistent(dag, limit, s)
    ensures Consistent(dag, limit, Stop(dag, limit, s, script).s)
    ensures Extends(Stop(dag, limit, s, script).s.states, s.states)
  {
    StopStates(dag, limit, s, script);
    if |s.states| < |dag.nodes| {
      if Stop(dag, limit, s, script).Abandoned? {
        IterationKeepsConsistent(dag, limit, s, script[0]);
      } else {
        SettlingIsSafe(dag, limit, s);
      }
    }
  }

  lemma StopStates(dag: Dag, limit: int, s: Sched, script: seq<Completion>)
    ensures var end := Stop(dag, limit, s, script);
            && (|s.states| >= |dag.nodes| ==> end.s == s)
            && (|s.states| < |dag.nodes| && !end.Abandoned? ==> end.s == Settle(dag, limit, s))
            && (end.Abandoned? ==>
                  script != [] && script[0].id in Settle(dag, limit, s).inFlight &&
                  end.s == Absorb(Settle(dag, limit, s), script[0]))
  {}

  lemma SettlingIsSafe(dag: Dag, limit: int, s: Sched)
    requires DistinctIds(dag.nodes) && Consistent(dag, limit, s)
    ensures Consistent(dag, limit, Settle(dag, limit, s)) && Extends(Settle(dag, limit, s).states, s.states)
  {
    SettleKeepsConsistent(dag, limit, s);
    SettledStates(dag, limit, s);
  }

  lemma NextIsSafe(dag: Dag, limit: int, s: Sched, c: Completion)
    requires DistinctIds(dag.nodes) && Consistent(dag, limit, s) && Next(dag, limit, s, c).Some?
    ensures Consistent(dag, limit, Next(dag, limit, s, c).value)
    ensures Extends(Next(dag, limit, s, c).value.states, s.states)
  {
    IterationKeepsConsistent(dag, limit, s, c);
  }

  /**
   Every run, for any completion order and outcomes: nodes start at most once and only with their K inputs
   succeeded, running nodes stay within the limit and apart from settled ones, results belong to completed
   nodes, and whatever state a node has reached it keeps.
   */
  lemma {:induction false} EveryRunIsSafe(dag: Dag, limit: int, s: Sched, script: seq<Completion>)
    requires DistinctIds(dag.nodes) && Consistent(dag, limit, s)
    ensures Consistent(dag, limit, Run(dag, limit, s, script).s)
    ensures Extends(Run(dag, limit, s, script).s.states, s.states)
    decreases |script|
  {
    if script != [] && Next(dag, limit, s, script[0]).Some? {
      NextIsSafe(dag, limit, s, script[0]);
      EveryRunIsSafe(dag, limit, Next(dag, limit, s, script[0]).value, script[1..]);
    } else {
      StopIsSafe(dag, limit, s, script);
    }
  }

  lemma IdleIsConsistent(dag: Dag, limit: int)
    ensures Consistent(dag, limit, IDLE)
  {}

  /** An abort blamed on an end node with inputs is never premature: no continuation could reach its K. */
  lemma {:induction false} AbortIsNeverPremature(dag: Dag, limit: int, s: Sched, script: seq<Completion>)
    requires Run(dag, limit, s, script).Abandoned?
    ensures var end := Run(dag, limit, s, script);
            exists n :: LostEndNode(dag, end.s.states, end.culprit, n)
              && (n.inputFrom != [] ==>
                    forall more :: Extends(more, end.s.states) ==> Successes(n.inputFrom, more) < Required(n))
    decreases |script|
  {
    if script != [] && Next(dag, limit, s, script[0]).Some? {
      AbortIsNeverPremature(dag, limit, Next(dag, limit, s, script[0]).value, script[1..]);
    } else {
      var end := Run(dag, limit, s, script);
      var n :| LostEndNode(dag, end.s.states, end.culprit, n);
      if n.inputFrom != [] {
        forall more | Extends(more, end.s.states) ensures Successes(n.inputFrom, more) < Required(n) {
          CountsGrow(n.inputFrom, end.s.states, more);
        }
      }
    }
  }

  // ---------------------------------------------------------------- progress

  function Plan(nodes: seq<DagNode>): seq<StableTopology.PlanNode> {
    seq(|nodes|, i requires 0 <= i < |nodes| => StableTopology.PlanNode(nodes[i].id, nodes[i].inputFrom))
  }

  /** The graph the scheduler waits on: one edge per declared input. */
  function InputEdges(dag: Dag): seq<Edge> { StableTopology.DependencyEdges(Plan(dag.nodes)) }

  lemma InputEdgesMean(dag: Dag, a: string, b: string)
    ensures Edge(a, b) in InputEdges(dag) <==> exists n :: n in dag.nodes && n.id == b && a in n.inputFrom
  {
    StableTopology.DependencyEdgesMean(Plan(dag.nodes));
    var plan := Plan(dag.nodes);
    if Edge(a, b) in InputEdges(dag) {
      assert StableTopology.Depends(plan, Edge(a, b).from, Edge(a, b).to);
      var m :| m in plan && m.id == b && a in m.dependsOn;
      var i :| 0 <= i < |plan| && plan[i] == m;
      assert dag.nodes[i] in dag.nodes;
    }
    if exists n :: n in dag.nodes && n.id == b && a in n.inputFrom {
      var n :| n in dag.nodes && n.id == b && a in n.inputFrom;
      var i :| 0 <= i < |dag.nodes| && dag.nodes[i] == n;
      assert plan[i] in plan;
      assert StableTopology.Depends(plan, Edge(a, b).from, Edge(a, b).to);
    }
  }

  lemma {:induction false} SettledInputsAddUp(inputs: seq<string>, states: map<string, NodeState>)
    requires forall d :: d in inputs ==> d in states
    ensures Successes(inputs, states) + Failures(inputs, states) == |inputs|
  {
    if inputs != [] { SettledInputsAddUp(inputs[1..], states); }
  }

  lemma {:induction false} IdCount(nodes: seq<DagNode>)
    requires DistinctIds(nodes)
    ensures |Ids(nodes)| == |nodes|
  {
    if nodes != [] {
      var n, prior := nodes[|nodes| - 1], nodes[..|nodes| - 1];
      IdCount(prior);
      assert nodes == prior + [n];
      forall m | m in prior ensures m.id != n.id { LastIsDistinct(nodes, m); }
      assert Ids(nodes) == Ids(prior) + {n.id};
    }
  }

  lemma UnsettledExists(dag: Dag, s: Sched)
    requires DistinctIds(dag.nodes) && s.states.Keys <= Ids(dag.nodes)
    ensures |s.states| < |dag.nodes| <==> Ids(dag.nodes) - s.states.Keys != {}
  {
    IdCount(dag.nodes);
    SubsetSize(s.states.Keys, Ids(dag.nodes));
    if Ids(dag.nodes) - s.states.Keys == {} {
      assert Ids(dag.nodes) <= s.states.Keys by {
        assert forall d :: d in Ids(dag.nodes) ==> d in s.states.Keys || d in Ids(dag.nodes) - s.states.Keys;
      }
      assert Ids(dag.nodes) == s.states.Keys;
    }
  }

  /** Some unsettled node of an acyclic graph waits for nothing. */
  lemma SomeNodeIsReady(dag: Dag, limit: int, s: Sched) returns (n: DagNode)
    requires DistinctIds(dag.nodes) && InputsKnown(dag) && Acyclic(InputEdges(dag))
    requires Consistent(dag, limit, s) && |s.states| < |dag.nodes| && s.inFlight == {}
    ensures n in dag.nodes && IsReady(n, s.states, s.inFlight)
    ensures forall d :: d in n.inputFrom ==> d in s.states
  {
    UnsettledExists(dag, s);
    var us := Ids(dag.nodes) - s.states.Keys;
    var u := AcyclicHasSource(InputEdges(dag), us);
    n :| n in dag.nodes && n.id == u;
    forall d | d in n.inputFrom ensures d in s.states {
      InputEdgesMean(dag, d, u);
      assert Edge(d, u) in InputEdges(dag);
      assert d in s.states || d in us;
    }
    SettledInputsAddUp(n.inputFrom, s.states);
  }

  /** With acyclic inputs and room for one node, an iteration starts something or fails something. */
  lemma IterationMoves(dag: Dag, limit: int, s: Sched)
    requires DistinctIds(dag.nodes) && InputsKnown(dag) && Acyclic(InputEdges(dag)) && limit >= 1
    requires Consistent(dag, limit, s) && |s.states| < |dag.nodes|
    ensures Settle(dag, limit, s).inFlight != {} || exists d :: FailsNow(dag, s, d)
  {
    SettledLaunches(dag, limit, s);
    if s.inFlight == {} {
      var n := SomeNodeIsReady(dag, limit, s);
      if Doomed(n, s.states) {
        assert FailsNow(dag, s, n.id);
      } else {
        assert CanStartNow(dag, s, n.id);
      }
    }
  }

  // ---------------------------------------------------------------- runs without failures

  ghost predicate NoFailures(states: map<string, NodeState>) {
    forall d :: d in states ==> states[d] != Failed
  }

  lemma {:induction false} NothingFailed(inputs: seq<string>, states: map<string, NodeState>)
    requires forall d :: d in inputs ==> !DidFail(states, d)
    ensures Failures(inputs, states) == 0
  {
    if inputs != [] { NothingFailed(inputs[1..], states); }
  }

  ghost predicate KWithinInputs(dag: Dag) {
    forall n :: n in dag.nodes ==> n.minRequired <= |n.inputFrom|
  }

  lemma NothingFailsNow(dag: Dag, s: Sched, d: string)
    requires KWithinInputs(dag) && NoFailures(s.states)
    ensures !FailsNow(dag, s, d)
  {
    forall n | n in dag.nodes && IsReady(n, s.states, s.inFlight) ensures !Doomed(n, s.states) {
      NothingFailed(n.inputFrom, s.states);
    }
  }

  lemma SettleWithoutFailures(dag: Dag, limit: int, s: Sched)
    requires KWithinInputs(dag) && NoFailures(s.states)
    ensures NoFailures(Settle(dag, limit, s).states) && forall d :: !FailsNow(dag, s, d)
  {
    forall d ensures !FailsNow(dag, s, d) { NothingFailsNow(dag, s, d); }
    SettledStates(dag, limit, s);
  }

  lemma AllSettledMeans(dag: Dag, s: Sched)
    requires DistinctIds(dag.nodes) && s.states.Keys <= Ids(dag.nodes) && |s.states| >= |dag.nodes|
    ensures forall n :: n in dag.nodes ==> n.id in s.states
  {
    UnsettledExists(dag, s);
    forall n | n in dag.nodes ensures n.id in s.states {
      assert n.id in Ids(dag.nodes);
      assert n.id in s.states.Keys || n.id in Ids(dag.nodes) - s.states.Keys;
    }
  }

  /**
   If no node fails, inputs are acyclic and no K exceeds its input count, the loop never breaks early or aborts, and
   when it ends every node is completed or skipped, so the task is reported successful.
   */
  lemma {:induction false} NoFailureMeansSuccess(dag: Dag, limit: int, s: Sched, script: seq<Completion>)
    requires DistinctIds(dag.nodes) && InputsKnown(dag) && Acyclic(InputEdges(dag)) && limit >= 1
    requires KWithinInputs(dag) && Consistent(dag, limit, s) && NoFailures(s.states)
    requires forall i :: 0 <= i < |script| ==> script[i].outcome.state != Failed
    ensures var end := Run(dag, limit, s, script);
            && (end.AllSettled? || end.Waiting?)
            && (end.AllSettled? ==>
                  && ReportsSuccess(dag, end)
                  && forall n :: n in dag.nodes ==> DidSucceed(end.s.states, n.id))
    decreases |script|
  {
    SettleWithoutFailures(dag, limit, s);
    if script != [] && Next(dag, limit, s, script[0]).Some? {
      NextIsSafe(dag, limit, s, script[0]);
      NoFailureMeansSuccess(dag, limit, Next(dag, limit, s, script[0]).value, script[1..]);
    } else {
      NoFailureStop(dag, limit, s, script);
    }
  }

  lemma NoFailureStop(dag: Dag, limit: int, s: Sched, script: seq<Completion>)
    requires DistinctIds(dag.nodes) && InputsKnown(dag) && Acyclic(InputEdges(dag)) && limit >= 1
    requires KWithinInputs(dag) && Consistent(dag, limit, s) && NoFailures(s.states)
    requires script != [] ==> script[0].outcome.state != Failed && Next(dag, limit, s, script[0]).None?
    ensures var end := Stop(dag, limit, s, script);
            && (end.AllSettled? || end.Waiting?)
            && (end.AllSettled? ==>
                  && ReportsSuccess(dag, end)
                  && forall n :: n in dag.nodes ==> DidSucceed(end.s.states, n.id))
  {
    if |s.states| >= |dag.nodes| {
      AllSettledMeans(dag, s);
    } else {
      IterationMoves(dag, limit, s);
      forall d ensures !FailsNow(dag, s, d) { NothingFailsNow(dag, s, d); }
    }
  }
}
