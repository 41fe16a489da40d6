/**
 When a reported success means that every end node succeeded.

 The scheduler leaves its loop as soon as nothing is in flight, even if nodes are still unsettled, and then
 reports success unless an end node failed. For DAGs whose nodes need all of their inputs this module settles
 exactly which graphs are safe: those in which every node that is not an end node feeds an end node directly.
 */
module SchedulerTrust {
  import opened Common
  import opened Graphs
  import opened DagValidator
  import opened Scheduler
  import opened SchedulerRuns

  /** Every node waits for all of its inputs. */
  ghost predicate NeedsAll(dag: Dag) {
    forall n :: n in dag.nodes ==> n.minRequired <= 0 || n.minRequired == |n.inputFrom|
  }

  /** `edges` and `input_from` describe the same graph. */
  ghost predicate EdgesAgree(dag: Dag) {
    forall e: Edge :: e in dag.edges <==> exists n :: n in dag.nodes && n.id == e.to && e.from in n.inputFrom
  }

  /** What the validator and the format ask of a DAG, with edges and inputs in agreement. */
  ghost predicate SoundDag(dag: Dag) {
    && DistinctIds(dag.nodes) && EdgesWithin(dag.edges, Ids(dag.nodes)) && InputsKnown(dag)
    && EdgesAgree(dag) && Acyclic(dag.edges)
  }

  ghost predicate PlainDag(dag: Dag) { SoundDag(dag) && NeedsAll(dag) }

  ghost predicate FeedsEnd(dag: Dag, id: string) {
    exists e :: e in dag.nodes && IsEnd(dag, e.id) && Edge(id, e.id) in dag.edges
  }

  /** Every node that is not an end node has an end node among its direct successors. */
  ghost predicate Shielded(dag: Dag) {
    forall n :: n in dag.nodes && !IsEnd(dag, n.id) ==> FeedsEnd(dag, n.id)
  }

  ghost predicate EndNodesSucceeded(dag: Dag, end: End) {
    forall n :: n in dag.nodes && IsEnd(dag, n.id) ==> DidSucceed(end.s.states, n.id)
  }

  ghost predicate Trustworthy(dag: Dag, limit: int) {
    forall script :: ReportsSuccess(dag, Run(dag, limit, IDLE, script)) ==>
                       EndNodesSucceeded(dag, Run(dag, limit, IDLE, script))
  }

  lemma InputEdgesAreEdges(dag: Dag)
    requires SoundDag(dag)
    ensures Acyclic(InputEdges(dag))
  {
    forall p ensures !IsCycle(InputEdges(dag), p) {
      if IsCycle(InputEdges(dag), p) {
        forall i | 0 < i < |p| ensures Edge(p[i - 1], p[i]) in dag.edges {
          InputEdgesMean(dag, p[i - 1], p[i]);
          assert Edge(p[i - 1], p[i]).to == p[i];
        }
        assert IsCycle(dag.edges, p);
      }
    }
  }

  lemma {:induction false} OneFailureCounts(inputs: seq<string>, states: map<string, NodeState>, d: string)
    requires d in inputs && DidFail(states, d)
    ensures Failures(inputs, states) >= 1
  {
    if inputs[0] != d { OneFailureCounts(inputs[1..], states, d); }
  }

  lemma {:induction false} AllSucceeded(inputs: seq<string>, states: map<string, NodeState>)
    requires Successes(inputs, states) >= |inputs|
    ensures forall d :: d in inputs ==> DidSucceed(states, d)
  {
    if inputs != [] {
      CountsGrow(inputs[1..], states, states);
      AllSucceeded(inputs[1..], states);
    }
  }

  lemma AnInputFailed(inputs: seq<string>, states: map<string, NodeState>) returns (d: string)
    requires Failures(inputs, states) >= 1
    ensures d in inputs && DidFail(states, d)
  {
    if forall x :: x in inputs ==> !DidFail(states, x) {
      NothingFailed(inputs, states);
      assert false;
    }
    d :| d in inputs && DidFail(states, d);
  }

  // ---------------------------------------------------------------- shielded graphs are trustworthy

  ghost predicate OnlyEndsFailed(dag: Dag, states: map<string, NodeState>) {
    forall d :: DidFail(states, d) ==> IsEnd(dag, d)
  }

  lemma InputHasEdge(dag: Dag, x: string, n: DagNode)
    requires SoundDag(dag) && n in dag.nodes && x in n.inputFrom
    ensures Edge(x, n.id) in dag.edges && !IsEnd(dag, x)
  {
    assert Edge(x, n.id).to == n.id;
  }

  /** While only end nodes have failed, nothing is doomed. */
  lemma NothingDoomed(dag: Dag, s: Sched, d: string)
    requires PlainDag(dag) && OnlyEndsFailed(dag, s.states)
    ensures !FailsNow(dag, s, d)
  {
    forall n | n in dag.nodes && IsReady(n, s.states, s.inFlight) ensures !Doomed(n, s.states) {
      if Doomed(n, s.states) {
        CountsGrow(n.inputFrom, s.states, s.states);
        var x := AnInputFailed(n.inputFrom, s.states);
        InputHasEdge(dag, x, n);
        assert false;
      }
    }
  }

  /** A failing node that feeds an end node directly makes the scheduler abort. */
  lemma FeedingFailureAborts(dag: Dag, states: map<string, NodeState>, x: string)
    requires PlainDag(dag) && FeedsEnd(dag, x) && DidFail(states, x)
    ensures MustAbort(dag, states, x)
  {
    var e :| e in dag.nodes && IsEnd(dag, e.id) && Edge(x, e.id) in dag.edges;
    var n :| n in dag.nodes && n.id == Edge(x, e.id).to && Edge(x, e.id).from in n.inputFrom;
    OneFailureCounts(n.inputFrom, states, x);
    assert IsWalk(dag.edges, [x, e.id]);
    assert LostEndNode(dag, states, x, n);
  }

  lemma NextKeepsOnlyEnds(dag: Dag, limit: int, s: Sched, c: Completion)
    requires PlainDag(dag) && Shielded(dag) && Consistent(dag, limit, s) && OnlyEndsFailed(dag, s.states)
    requires Next(dag, limit, s, c).Some?
    ensures OnlyEndsFailed(dag, Next(dag, limit, s, c).value.states)
  {
    var t := Settle(dag, limit, s);
    SettledStates(dag, limit, s);
    SettleKeepsConsistent(dag, limit, s);
    forall d ensures !FailsNow(dag, s, d) { NothingDoomed(dag, s, d); }
    var u := Absorb(t, c);
    forall d | DidFail(u.states, d) ensures IsEnd(dag, d) {
      if d == c.id && !IsEnd(dag, d) {
        var n :| n in dag.nodes && n.id == d;
        FeedingFailureAborts(dag, u.states, d);
        assert false;
      }
      if d != c.id { assert DidFail(s.states, d); }
    }
  }

  lemma {:induction false} ShieldedSuccessIsReal(dag: Dag, limit: int, s: Sched, script: seq<Completion>)
    requires PlainDag(dag) && Shielded(dag) && limit >= 1
    requires Consistent(dag, limit, s) && OnlyEndsFailed(dag, s.states)
    requires ReportsSuccess(dag, Run(dag, limit, s, script))
    ensures EndNodesSucceeded(dag, Run(dag, limit, s, script))
    decreases |script|
  {
    if script != [] && Next(dag, limit, s, script[0]).Some? {
      NextIsSafe(dag, limit, s, script[0]);
      NextKeepsOnlyEnds(dag, limit, s, script[0]);
      ShieldedSuccessIsReal(dag, limit, Next(dag, limit, s, script[0]).value, script[1..]);
    } else if |s.states| >= |dag.nodes| {
      AllSettledMeans(dag, s);
    } else {
      forall d ensures !FailsNow(dag, s, d) { NothingDoomed(dag, s, d); }
      InputEdgesAreEdges(dag);
      IterationMoves(dag, limit, s);
    }
  }

  // ---------------------------------------------------------------- unshielded graphs are not

  function Flip(edges: seq<Edge>): seq<Edge> {
    seq(|edges|, i requires 0 <= i < |edges| => Edge(edges[i].to, edges[i].from))
  }

  lemma FlipMeans(edges: seq<Edge>, a: string, b: string)
    ensures Edge(a, b) in Flip(edges) <==> Edge(b, a) in edges
  {
    if Edge(a, b) in Flip(edges) {
      var i :| 0 <= i < |edges| && Flip(edges)[i] == Edge(a, b);
      assert edges[i] == Edge(b, a);
    }
    if Edge(b, a) in edges {
      var i :| 0 <= i < |edges| && edges[i] == Edge(b, a);
      assert Flip(edges)[i] == Edge(a, b);
    }
  }

  lemma FlipIsAcyclic(edges: seq<Edge>)
    requires Acyclic(edges)
    ensures Acyclic(Flip(edges))
  {
    forall p ensures !IsCycle(Flip(edges), p) {
      if IsCycle(Flip(edges), p) {
        var q := seq(|p|, i requires 0 <= i < |p| => p[|p| - 1 - i]);
        forall i | 0 < i < |q| ensures Edge(q[i - 1], q[i]) in edges {
          var k := |p| - i;
          assert q[i] == p[k - 1] && q[i - 1] == p[k];
          assert Edge(p[k - 1], p[k]) in Flip(edges);
          FlipMeans(edges, p[k - 1], p[k]);
        }
        assert IsCycle(edges, q);
      }
    }
  }

  /** Every node of a finite acyclic graph reaches an end node. */
  lemma ReachesAnEnd(dag: Dag, y: string) returns (e: DagNode)
    requires PlainDag(dag) && y in Ids(dag.nodes)
    ensures e in dag.nodes && IsEnd(dag, e.id) && Reachable(dag.edges, y, e.id)
  {
    var us := set n | n in Ids(dag.nodes) && Reachable(dag.edges, y, n);
    assert y in us by { assert IsWalk(dag.edges, [y]); }
    FlipIsAcyclic(dag.edges);
    var u := AcyclicHasSource(Flip(dag.edges), us);
    forall f | f in dag.edges ensures f.from != u {
      if f.from == u {
        assert f == Edge(u, f.to);
        ReachableStep(dag.edges, y, u, f.to);
        FlipMeans(dag.edges, f.to, u);
        assert false;
      }
    }
    e :| e in dag.nodes && e.id == u;
  }

  /** A started node has all of its inputs succeeded. */
  lemma SucceededInputs(dag: Dag, limit: int, s: Sched, n: DagNode)
    requires PlainDag(dag) && Consistent(dag, limit, s) && n in dag.nodes && DidSucceed(s.states, n.id)
    ensures forall d :: d in n.inputFrom ==> DidSucceed(s.states, d)
  {
    assert NodeConsistent(n, s);
    AllSucceeded(n.inputFrom, s.states);
  }

  /** A success implies the success of everything upstream of it. */
  lemma {:induction false} UpstreamSucceeded(dag: Dag, limit: int, s: Sched, p: seq<string>)
    requires PlainDag(dag) && Consistent(dag, limit, s)
    requires IsWalk(dag.edges, p) && DidSucceed(s.states, p[|p| - 1])
    ensures DidSucceed(s.states, p[0])
    decreases |p|
  {
    if |p| > 1 {
      var e := Edge(p[|p| - 2], p[|p| - 1]);
      assert e in dag.edges;
      var n :| n in dag.nodes && n.id == e.to && e.from in n.inputFrom;
      SucceededInputs(dag, limit, s, n);
      UpstreamSucceeded(dag, limit, s, p[..|p| - 1]);
    }
  }

  lemma StrictK(dag: Dag)
    requires NeedsAll(dag)
    ensures KWithinInputs(dag)
  {}

  /** The weak point: a node with successors, none of which is an end node. */
  ghost predicate Exposed(dag: Dag, x: string) {
    && x in Ids(dag.nodes) && !IsEnd(dag, x) && !FeedsEnd(dag, x)
  }

  /** When only `x` is left to run and it fails, no end node is lost yet, so the scheduler does not abort. */
  lemma ExposedFailureGoesUnnoticed(dag: Dag, states: map<string, NodeState>, x: string)
    requires PlainDag(dag) && Exposed(dag, x)
    requires forall d :: DidFail(states, d) ==> d == x
    ensures !MustAbort(dag, states, x)
  {
    forall n ensures !LostEndNode(dag, states, x, n) {
      if n in dag.nodes && IsEnd(dag, n.id) && Reachable(dag.edges, x, n.id) {
        var p :| IsWalk(dag.edges, p) && p[0] == x && p[|p| - 1] == n.id;
        assert |p| > 1;
        var e := Edge(p[|p| - 2], p[|p| - 1]);
        assert e in dag.edges;
        var m :| m in dag.nodes && m.id == e.to && e.from in m.inputFrom;
        DistinctNodes(dag.nodes, n, m);
        forall d | d in n.inputFrom ensures !DidFail(states, d) {
          InputHasEdge(dag, d, n);
        }
        NothingFailed(n.inputFrom, states);
      }
    }
  }

  /** A node that can start after mere failures could have started before them. */
  lemma CouldHaveStarted(dag: Dag, s: Sched, u: Sched, n: DagNode)
    requires n in dag.nodes && n.id !in s.states && n.id !in s.inFlight
    requires forall d :: DidSucceed(s.states, d) <==> DidSucceed(u.states, d)
    requires !Doomed(n, u.states)
    ensures CanStartNow(dag, s, n.id)
  {
    FailingKeepsSuccesses(n.inputFrom, s.states, u.states);
    assert IsReady(n, s.states, s.inFlight);
  }

  /** Nothing can start once only `x` was running, no more was ready, and `x` failed. */
  lemma NothingElseStarts(dag: Dag, limit: int, s: Sched, x: string, c: Completion, n: DagNode)
    requires DistinctIds(dag.nodes) && TablesOk(dag, limit, s) && LaunchesOk(s)
    requires Settle(dag, limit, s).inFlight == {x} && limit >= 2
    requires c.id == x && c.outcome.state == Failed && n in dag.nodes
    ensures var u := Absorb(Settle(dag, limit, s), c);
            IsReady(n, u.states, u.inFlight) ==> Doomed(n, u.states)
  {
    var t := Settle(dag, limit, s);
    var u := Absorb(t, c);
    if IsReady(n, u.states, u.inFlight) && !Doomed(n, u.states) {
      LoneFailureKeepsSuccesses(dag, limit, s, x, c);
      LaunchesGrow(dag, limit, s);
      CouldHaveStarted(dag, s, u, n);
      LaunchesAreViable(dag, limit, s);
    }
  }

  lemma LoneFailureKeepsSuccesses(dag: Dag, limit: int, s: Sched, x: string, c: Completion)
    requires DistinctIds(dag.nodes) && TablesOk(dag, limit, s) && LaunchesOk(s)
    requires x in Settle(dag, limit, s).inFlight && c.id == x && c.outcome.state == Failed
    ensures var u := Absorb(Settle(dag, limit, s), c);
            Extends(u.states, s.states) && forall d :: DidSucceed(s.states, d) <==> DidSucceed(u.states, d)
  {
    var t := Settle(dag, limit, s);
    SettleKeepsTables(dag, limit, s);
    AbsorbedFailure(t, c);
    SettledStates(dag, limit, s);
  }

  lemma AbsorbedFailure(t: Sched, c: Completion)
    requires c.id !in t.states && c.outcome.state == Failed
    ensures Extends(Absorb(t, c).states, t.states)
    ensures forall d :: DidSucceed(t.states, d) <==> DidSucceed(Absorb(t, c).states, d)
  {}

  /** Only direct successors of `x` are failed for want of inputs. */
  lemma OnlySuccessorsFail(dag: Dag, s: Sched, x: string, d: string)
    requires PlainDag(dag) && FailsNow(dag, s, d)
    requires forall f :: DidFail(s.states, f) ==> f == x
    ensures Edge(x, d) in dag.edges
  {
    var n :| n in dag.nodes && n.id == d && IsReady(n, s.states, s.inFlight) && Doomed(n, s.states);
    var f := AnInputFailed(n.inputFrom, s.states);
    InputHasEdge(dag, f, n);
  }

  /** After `x` fails alone, the loop breaks without starting anything. */
  lemma BreakAfterFailure(dag: Dag, limit: int, s: Sched, x: string, c: Completion)
    requires DistinctIds(dag.nodes) && limit >= 2 && Consistent(dag, limit, s)
    requires Settle(dag, limit, s).inFlight == {x}
    requires c.id == x && c.outcome.state == Failed
    ensures Settle(dag, limit, Absorb(Settle(dag, limit, s), c)).inFlight == {}
  {
    var u := Absorb(Settle(dag, limit, s), c);
    IterationKeepsConsistent(dag, limit, s, c);
    SettledLaunches(dag, limit, u);
    forall d ensures !CanStartNow(dag, u, d) {
      forall n | n in dag.nodes && IsReady(n, u.states, u.inFlight) ensures Doomed(n, u.states) {
        NothingElseStarts(dag, limit, s, x, c, n);
      }
    }
  }

  /** And the nodes it fails on the way out are not end nodes. */
  lemma NoEndNodeFails(dag: Dag, limit: int, u: Sched, x: string)
    requires Exposed(dag, x)
    requires forall d :: DidFail(u.states, d) ==> d == x
    requires forall d :: FailsNow(dag, u, d) ==> Edge(x, d) in dag.edges
    ensures !EndNodeFailed(dag, Settle(dag, limit, u).states)
  {
    SettledStates(dag, limit, u);
    forall n | n in dag.nodes && IsEnd(dag, n.id) ensures !DidFail(Settle(dag, limit, u).states, n.id) {
      assert Edge(x, n.id) !in dag.edges;
      assert DidFail(Settle(dag, limit, u).states, n.id) ==> DidFail(u.states, n.id);
    }
  }

  lemma ExposedReachesEnd(dag: Dag, x: string) returns (p: seq<string>, e: DagNode)
    requires PlainDag(dag) && Exposed(dag, x)
    ensures IsWalk(dag.edges, p) && p[0] == x && p[|p| - 1] == e.id && e in dag.nodes && IsEnd(dag, e.id)
  {
    var f :| f in dag.edges && f.from == x;
    e := ReachesAnEnd(dag, f.to);
    var q :| IsWalk(dag.edges, q) && q[0] == f.to && q[|q| - 1] == e.id;
    assert f == Edge(x, f.to);
    p := [x] + q;
  }

  /** A failed node leaves an end node downstream of it without success. */
  lemma EndStaysUnsuccessful(dag: Dag, limit: int, s: Sched, x: string)
    requires PlainDag(dag) && Exposed(dag, x) && Consistent(dag, limit, s) && DidFail(s.states, x)
    ensures exists n :: n in dag.nodes && IsEnd(dag, n.id) && !DidSucceed(s.states, n.id)
  {
    var p, e := ExposedReachesEnd(dag, x);
    if DidSucceed(s.states, e.id) { UpstreamSucceeded(dag, limit, s, p); }
  }

  lemma BadStop(dag: Dag, limit: int, s: Sched, u: Sched, x: string, c: Completion)
    requires PlainDag(dag) && Exposed(dag, x) && limit >= 2
    requires Consistent(dag, limit, s) && Settle(dag, limit, s).inFlight == {x}
    requires c == Completion(x, Outcome(Failed, None)) && u == Absorb(Settle(dag, limit, s), c)
    requires Consistent(dag, limit, u) && forall d :: DidFail(u.states, d) <==> d == x
    ensures ReportsSuccess(dag, Stop(dag, limit, u, []))
    ensures !EndNodesSucceeded(dag, Stop(dag, limit, u, []))
  {
    BreakAfterFailure(dag, limit, s, x, c);
    forall d | FailsNow(dag, u, d) ensures Edge(x, d) in dag.edges { OnlySuccessorsFail(dag, u, x, d); }
    NoEndNodeFails(dag, limit, u, x);
    StopIsSafe(dag, limit, u, []);
    var end := Stop(dag, limit, u, []);
    assert DidFail(end.s.states, x);
    EndStaysUnsuccessful(dag, limit, end.s, x);
  }

  /** The failure of `x` is absorbed as an ordinary iteration. */
  lemma FailureIsAbsorbed(dag: Dag, limit: int, s: Sched, x: string, c: Completion)
    requires PlainDag(dag) && Exposed(dag, x) && NoFailures(s.states) && |s.states| < |dag.nodes|
    requires Settle(dag, limit, s).inFlight == {x} && c == Completion(x, Outcome(Failed, None))
    ensures var u := Absorb(Settle(dag, limit, s), c);
            Next(dag, limit, s, c) == Some(u) && forall d :: DidFail(u.states, d) <==> d == x
  {
    StrictK(dag);
    SettleWithoutFailures(dag, limit, s);
    ExposedFailureGoesUnnoticed(dag, Absorb(Settle(dag, limit, s), c).states, x);
  }

  /** The last two iterations of the bad run: `x` fails alone, the loop is left, and success is reported. */
  lemma BadEnding(dag: Dag, limit: int, s: Sched, x: string, c: Completion)
    requires PlainDag(dag) && Exposed(dag, x) && limit >= 2
    requires Consistent(dag, limit, s) && NoFailures(s.states) && |s.states| < |dag.nodes|
    requires Settle(dag, limit, s).inFlight == {x}
    requires c == Completion(x, Outcome(Failed, None))
    ensures ReportsSuccess(dag, Run(dag, limit, s, [c]))
    ensures !EndNodesSucceeded(dag, Run(dag, limit, s, [c]))
  {
    var u := Absorb(Settle(dag, limit, s), c);
    FailureIsAbsorbed(dag, limit, s, x, c);
    NextIsSafe(dag, limit, s, c);
    BadStop(dag, limit, s, u, x, c);
    RunCons(dag, limit, s, c, []);
    assert [c] + [] == [c];
  }

  lemma RunCons(dag: Dag, limit: int, s: Sched, c: Completion, rest: seq<Completion>)
    requires Next(dag, limit, s, c).Some?
    ensures Run(dag, limit, s, [c] + rest) == Run(dag, limit, Next(dag, limit, s, c).value, rest)
  {
    assert ([c] + rest)[1..] == rest;
  }

  /** While something other than `x` runs, it can be completed. */
  lemma CompleteAnother(dag: Dag, limit: int, s: Sched, x: string, c: Completion)
    requires DistinctIds(dag.nodes) && NeedsAll(dag) && Consistent(dag, limit, s) && NoFailures(s.states)
    requires |s.states| < |dag.nodes| && x !in s.states
    requires c.id in Settle(dag, limit, s).inFlight && c.id != x && c.outcome == Outcome(Completed, None)
    ensures var u := Absorb(Settle(dag, limit, s), c);
            && Next(dag, limit, s, c) == Some(u)
            && Consistent(dag, limit, u) && NoFailures(u.states) && x !in u.states && |u.states| > |s.states|
  {
    IterationKeepsConsistent(dag, limit, s, c);
    CompletionKeepsNoFailures(dag, limit, s, x, c);
  }

  lemma CompletionKeepsNoFailures(dag: Dag, limit: int, s: Sched, x: string, c: Completion)
    requires NeedsAll(dag) && NoFailures(s.states) && x !in s.states && c.id != x && c.outcome.state == Completed
    ensures var u := Absorb(Settle(dag, limit, s), c); NoFailures(u.states) && x !in u.states
  {
    StrictK(dag);
    SettleWithoutFailures(dag, limit, s);
    SettledStates(dag, limit, s);
  }

  lemma SomethingRuns(dag: Dag, limit: int, s: Sched, x: string)
    requires PlainDag(dag) && limit >= 1 && x in Ids(dag.nodes)
    requires Consistent(dag, limit, s) && NoFailures(s.states) && x !in s.states
    ensures |s.states| < |dag.nodes| && Settle(dag, limit, s).inFlight != {}
  {
    UnsettledExists(dag, s);
    assert x in Ids(dag.nodes) - s.states.Keys;
    StrictK(dag);
    SettleWithoutFailures(dag, limit, s);
    InputEdgesAreEdges(dag);
    IterationMoves(dag, limit, s);
  }

  /** Completes everything but `x`, then fails `x`. */
  lemma {:induction false} BadRun(dag: Dag, limit: int, s: Sched, x: string) returns (script: seq<Completion>)
    requires PlainDag(dag) && Exposed(dag, x) && limit >= 2
    requires Consistent(dag, limit, s) && NoFailures(s.states) && x !in s.states
    ensures ReportsSuccess(dag, Run(dag, limit, s, script))
    ensures !EndNodesSucceeded(dag, Run(dag, limit, s, script))
    decreases |dag.nodes| - |s.states|
  {
    SomethingRuns(dag, limit, s, x);
    var t := Settle(dag, limit, s);
    if t.inFlight == {x} {
      var c := Completion(x, Outcome(Failed, None));
      BadEnding(dag, limit, s, x, c);
      script := [c];
    } else {
      var y :| y in t.inFlight && y != x;
      var c := Completion(y, Outcome(Completed, None));
      CompleteAnother(dag, limit, s, x, c);
      var rest := BadRun(dag, limit, Absorb(t, c), x);
      script := [c] + rest;
      RunCons(dag, limit, s, c, rest);
    }
  }

  /**
   For DAGs whose nodes need all inputs, run with a concurrency limit of two or more: a reported success always
   means that every end node succeeded if and only if every other node feeds an end node directly. The sufficient
   half holds for a limit of one as well.
   */
  lemma SuccessIsTrustworthyExactlyWhenShielded(dag: Dag, limit: int)
    requires PlainDag(dag)
    ensures limit >= 1 && Shielded(dag) ==> Trustworthy(dag, limit)
    ensures limit >= 2 ==> (Trustworthy(dag, limit) <==> Shielded(dag))
  {
    IdleIsConsistent(dag, limit);
    if limit >= 1 && Shielded(dag) {
      forall script | ReportsSuccess(dag, Run(dag, limit, IDLE, script))
        ensures EndNodesSucceeded(dag, Run(dag, limit, IDLE, script))
      {
        ShieldedSuccessIsReal(dag, limit, IDLE, script);
      }
    }
    if limit >= 2 && !Shielded(dag) {
      var n :| n in dag.nodes && !IsEnd(dag, n.id) && !FeedsEnd(dag, n.id);
      var script := BadRun(dag, limit, IDLE, n.id);
      assert !Trustworthy(dag, limit);
    }
  }

  // ---------------------------------------------------------------- the smallest bad graph

  function StepNode(id: string, inputs: seq<string>): DagNode { DagNode(id, inputs, 0, None, None) }

  const CHAIN := Dag(
    [StepNode("a", []), StepNode("b", ["a"]), StepNode("c", ["b"])], [Edge("a", "b"), Edge("b", "c")])

  lemma ChainNames()
    ensures "a" != "b" && "b" != "c" && "a" != "c"
    ensures Ids(CHAIN.nodes) == {"a", "b", "c"} && DistinctIds(CHAIN.nodes)
  {
    assert "a"[0] != "b"[0] && "b"[0] != "c"[0] && "a"[0] != "c"[0];
    assert CHAIN.nodes[0].id == "a" && CHAIN.nodes[1].id == "b" && CHAIN.nodes[2].id == "c";
    assert forall n :: n in CHAIN.nodes ==> n == CHAIN.nodes[0] || n == CHAIN.nodes[1] || n == CHAIN.nodes[2];
    assert CHAIN.nodes[0] in CHAIN.nodes && CHAIN.nodes[1] in CHAIN.nodes && CHAIN.nodes[2] in CHAIN.nodes;
  }

  lemma ChainIsAcyclic()
    ensures Acyclic(CHAIN.edges)
  {
    ChainNames();
    var order := ["a", "b", "c"];
    assert order[0] == "a" && order[1] == "b" && order[2] == "c";
    assert Elements(order) == {"a", "b", "c"};
    assert CHAIN.edges == [Edge("a", "b"), Edge("b", "c")];
    forall e | e in CHAIN.edges ensures Before(order, e.from, e.to) {}
    OrderExcludesCycles({"a", "b", "c"}, CHAIN.edges, order);
  }

  lemma ChainEdgesAgree()
    ensures EdgesAgree(CHAIN)
  {
    var ns := CHAIN.nodes;
    assert ns[0] == StepNode("a", []) && ns[1] == StepNode("b", ["a"]) && ns[2] == StepNode("c", ["b"]);
    forall e: Edge ensures e in CHAIN.edges <==> exists n :: n in ns && n.id == e.to && e.from in n.inputFrom {
      if e in CHAIN.edges {
        assert ns[1] in ns && ns[2] in ns;
        assert "a" in ns[1].inputFrom && "b" in ns[2].inputFrom;
      }
      if n: DagNode :| n in ns && n.id == e.to && e.from in n.inputFrom {
        assert e == Edge("a", "b") || e == Edge("b", "c");
      }
    }
  }

  lemma ChainIsUnshielded()
    ensures !Shielded(CHAIN)
  {
    ChainNames();
    var ns := CHAIN.nodes;
    assert ns[0] in ns && ns[0].id == "a";
    assert CHAIN.edges[0] == Edge("a", "b") && CHAIN.edges[1] == Edge("b", "c");
    assert CHAIN.edges[0] in CHAIN.edges && CHAIN.edges[1] in CHAIN.edges;
    assert !IsEnd(CHAIN, "a") && !IsEnd(CHAIN, "b");
    forall e | e in ns && IsEnd(CHAIN, e.id) ensures Edge("a", e.id) !in CHAIN.edges {}
  }

  lemma ChainIsPlain()
    ensures PlainDag(CHAIN)
  {
    ChainNames();
    ChainIsAcyclic();
    ChainEdgesAgree();
    ChainIsClosed();
  }

  lemma ChainIsClosed()
    ensures EdgesWithin(CHAIN.edges, Ids(CHAIN.nodes)) && InputsKnown(CHAIN) && NeedsAll(CHAIN)
  {
    ChainNames();
    assert CHAIN.edges == [Edge("a", "b"), Edge("b", "c")];
  }

  /** In a chain of three where the first node fails, success is reported although the end node never ran. */
  lemma ChainMisreports(limit: int)
    requires limit >= 2
    ensures exists script :: ReportsSuccess(CHAIN, Run(CHAIN, limit, IDLE, script))
                             && !EndNodesSucceeded(CHAIN, Run(CHAIN, limit, IDLE, script))
  {
    ChainIsPlain();
    ChainIsUnshielded();
    SuccessIsTrustworthyExactlyWhenShielded(CHAIN, limit);
  }
}
