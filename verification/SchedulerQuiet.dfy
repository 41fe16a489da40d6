/**
 When a reported success means that every end node succeeded, for any K of N.

 A run misreports when failures block an end node without anybody noticing: the scheduler looks for lost end nodes only
 when a node fails, and it leaves the loop one layer of consequences after the last failure. `Quiet` describes such
 failures on the graph alone. Without a quiet sequence of failures every success is real; with one, and room for one
 more node than it has, some run misreports.
 */
module SchedulerQuiet {
  import opened Common
  import opened Graphs
  import opened DagValidator
  import opened Scheduler
  import opened SchedulerRuns
  import opened SchedulerTrust

  // ---------------------------------------------------------------- blocked nodes

  function CountIn(inputs: seq<string>, b: set<string>): nat {
    if inputs == [] then 0 else (if inputs[0] in b then 1 else 0) + CountIn(inputs[1..], b)
  }

  /** With the nodes of `b` out, too few inputs are left for the node's K. */
  predicate CutOff(n: DagNode, b: set<string>) {
    n.inputFrom != [] && |n.inputFrom| - CountIn(n.inputFrom, b) < Required(n)
  }

  /** The nodes that lose their K as soon as `b` is out. */
  function Layer(dag: Dag, b: set<string>): set<string> { set n | n in dag.nodes && CutOff(n, b) :: n.id }

  ghost predicate Closed(dag: Dag, b: set<string>) { forall n :: n in dag.nodes && CutOff(n, b) ==> n.id in b }

  /** In the closure of `f`: whatever contains `f` and the nodes cut off by it, and so on, contains `x`. */
  ghost predicate Blocked(dag: Dag, f: set<string>, x: string) {
    forall b: set<string> :: f <= b && Closed(dag, b) ==> x in b
  }

  /** What has been failed for want of inputs when the failures `fs` came in that order, one layer after each. */
  function Doom(dag: Dag, fs: seq<string>): set<string> {
    if fs == [] then Layer(dag, {})
    else
      var before := Doom(dag, fs[..|fs| - 1]);
      before + Layer(dag, before + Elements(fs))
  }

  /**
   Failures that block an end node and are not noticed: none of them is an end node or is kept from running by the
   others, and no end node is among those failed for want of inputs by the time the loop is left.
   */
  ghost predicate Quiet(dag: Dag, fs: seq<string>) {
    && NoDuplicates(fs) && Elements(fs) <= Ids(dag.nodes)
    && (forall f :: f in fs ==> !IsEnd(dag, f) && !Blocked(dag, Elements(fs) - {f}, f))
    && (forall n :: n in dag.nodes && IsEnd(dag, n.id) ==> n.id !in Doom(dag, fs))
    && (exists n :: n in dag.nodes && IsEnd(dag, n.id) && Blocked(dag, Elements(fs), n.id))
  }

  // ---------------------------------------------------------------- counting

  lemma {:induction false} CountAgainst(inputs: seq<string>, states: map<string, NodeState>, b: set<string>)
    ensures (forall d :: d in inputs && d in b ==> DidFail(states, d)) ==>
            CountIn(inputs, b) <= Failures(inputs, states)
    ensures (forall d :: d in inputs && DidFail(states, d) ==> d in b) ==>
            Failures(inputs, states) <= CountIn(inputs, b)
    ensures (forall d :: d in inputs && d in b ==> !DidSucceed(states, d)) ==>
              CountIn(inputs, b) + Successes(inputs, states) <= |inputs|
    ensures (forall d :: d in inputs && !DidSucceed(states, d) ==> d in b) ==>
              |inputs| <= CountIn(inputs, b) + Successes(inputs, states)
  {
    if inputs != [] {
      assert inputs == [inputs[0]] + inputs[1..];
      CountAgainst(inputs[1..], states, b);
    }
  }

  lemma {:induction false} CountGrows(inputs: seq<string>, a: set<string>, b: set<string>)
    requires forall d :: d in inputs && d in a ==> d in b
    ensures CountIn(inputs, a) <= CountIn(inputs, b)
  {
    if inputs != [] {
      assert inputs == [inputs[0]] + inputs[1..];
      CountGrows(inputs[1..], a, b);
    }
  }

  ghost predicate FailedAre(states: map<string, NodeState>, b: set<string>) {
    forall d :: d in b ==> DidFail(states, d)
  }

  ghost predicate FailedWithin(states: map<string, NodeState>, b: set<string>) {
    forall d :: DidFail(states, d) ==> d in b
  }

  /** The nodes that have not succeeded. */
  ghost function Unsuccessful(dag: Dag, states: map<string, NodeState>): set<string> {
    set d | d in Ids(dag.nodes) && !DidSucceed(states, d)
  }

  /** Whoever was started has its K, so the nodes without success are closed under being cut off. */
  lemma StartedIsNotCutOff(dag: Dag, limit: int, s: Sched, n: DagNode, b: set<string>)
    requires Consistent(dag, limit, s) && n in dag.nodes && n.id in s.launched
    requires forall d :: d in b ==> !DidSucceed(s.states, d)
    ensures !CutOff(n, b)
  {
    assert NodeConsistent(n, s);
    CountAgainst(n.inputFrom, s.states, b);
  }

  lemma SucceededWasStarted(dag: Dag, limit: int, s: Sched, n: DagNode)
    requires Consistent(dag, limit, s) && n in dag.nodes && DidSucceed(s.states, n.id)
    ensures n.id in s.launched
  {
    assert NodeConsistent(n, s);
  }

  /** The unsuccessful nodes, or all of them but one that was started, are closed. */
  lemma UnsuccessfulIsClosed(dag: Dag, limit: int, s: Sched, but: set<string>)
    requires Consistent(dag, limit, s) && DistinctIds(dag.nodes)
    requires forall d :: d in but ==> d in s.launched
    ensures Closed(dag, Unsuccessful(dag, s.states) - but)
  {
    var b := Unsuccessful(dag, s.states) - but;
    forall n | n in dag.nodes && CutOff(n, b) ensures n.id in b {
      if DidSucceed(s.states, n.id) { SucceededWasStarted(dag, limit, s, n); }
      if n.id in s.launched { StartedIsNotCutOff(dag, limit, s, n, b); }
    }
  }

  // ---------------------------------------------------------------- misreporting runs fail quietly

  /** What is known to have been failed for want of inputs right after the last of `fs` failed. */
  function Known(dag: Dag, fs: seq<string>): set<string> { if fs == [] then {} else Doom(dag, fs[..|fs| - 1]) }

  /** `fs` are the nodes that ran and failed, in order. */
  ghost predicate Traced(dag: Dag, s: Sched, fs: seq<string>) {
    && NoDuplicates(fs)
    && (forall d :: d in fs <==> DidFail(s.states, d) && d in s.launched)
    && FailedAre(s.states, Known(dag, fs))
  }

  lemma DoomFromKnown(dag: Dag, fs: seq<string>)
    ensures Doom(dag, fs) == Known(dag, fs) + Layer(dag, Known(dag, fs) + Elements(fs))
  {
    if fs == [] { assert Known(dag, fs) + Elements(fs) == {}; }
  }

  /** A node cut off by failed nodes has failed after the K-of-N pass. */
  lemma CutOffIsFailed(dag: Dag, limit: int, s: Sched, n: DagNode, b: set<string>)
    requires DistinctIds(dag.nodes) && Consistent(dag, limit, s) && n in dag.nodes
    requires FailedAre(s.states, b) && CutOff(n, b)
    ensures DidFail(Settle(dag, limit, s).states, n.id)
  {
    if n.id in s.launched {
      StartedIsNotCutOff(dag, limit, s, n, b);
    } else {
      assert NodeConsistent(n, s);
      if n.id !in s.states { CutOffFailsNow(dag, s, n, b); }
      SettledStates(dag, limit, s);
    }
  }

  lemma CutOffFailsNow(dag: Dag, s: Sched, n: DagNode, b: set<string>)
    requires LaunchesOk(s) && n in dag.nodes && n.id !in s.launched && n.id !in s.states
    requires FailedAre(s.states, b) && CutOff(n, b)
    ensures FailsNow(dag, s, n.id)
  {
    assert n.id !in Elements(s.launched);
    CountAgainst(n.inputFrom, s.states, b);
    CountsGrow(n.inputFrom, s.states, s.states);
    assert IsReady(n, s.states, s.inFlight) && Doomed(n, s.states);
  }

  lemma SettleDooms(dag: Dag, limit: int, s: Sched, fs: seq<string>)
    requires DistinctIds(dag.nodes) && Consistent(dag, limit, s) && Traced(dag, s, fs)
    ensures FailedAre(Settle(dag, limit, s).states, Doom(dag, fs))
  {
    var t := Settle(dag, limit, s);
    var b := Known(dag, fs) + Elements(fs);
    DoomFromKnown(dag, fs);
    assert FailedAre(s.states, b);
    SettledStates(dag, limit, s);
    forall d | d in Layer(dag, b) ensures DidFail(t.states, d) {
      var n :| n in dag.nodes && CutOff(n, b) && n.id == d;
      CutOffIsFailed(dag, limit, s, n, b);
    }
  }

  lemma SettleKeepsTrace(dag: Dag, limit: int, s: Sched, fs: seq<string>)
    requires DistinctIds(dag.nodes) && Consistent(dag, limit, s) && Traced(dag, s, fs)
    ensures Traced(dag, Settle(dag, limit, s), fs)
  {
    var t := Settle(dag, limit, s);
    SettledStates(dag, limit, s);
    SettleKeepsTables(dag, limit, s);
    LaunchesGrow(dag, limit, s);
    forall d ensures d in fs <==> DidFail(t.states, d) && d in t.launched {
      assert d in t.launched <==> d in Elements(t.launched);
      assert d in s.launched <==> d in Elements(s.launched);
    }
  }

  function Extended(fs: seq<string>, c: Completion): seq<string> {
    if c.outcome.state == Failed then fs + [c.id] else fs
  }

  lemma AbsorbKeepsTrace(dag: Dag, limit: int, t: Sched, fs: seq<string>, c: Completion)
    requires Consistent(dag, limit, t) && Traced(dag, t, fs) && FailedAre(t.states, Doom(dag, fs)) && c.id in t.inFlight
    ensures Traced(dag, Absorb(t, c), Extended(fs, c))
  {
    assert c.id in Elements(t.launched) && c.id !in t.states;
    AbsorbKeepsDoom(dag, t, fs, c);
    AbsorbExtends(t, fs, c);
  }

  lemma AbsorbKeepsDoom(dag: Dag, t: Sched, fs: seq<string>, c: Completion)
    requires FailedAre(t.states, Doom(dag, fs)) && c.id !in t.states
    ensures FailedAre(Absorb(t, c).states, Known(dag, Extended(fs, c)))
  {
    var gs := Extended(fs, c);
    assert FailedAre(Absorb(t, c).states, Doom(dag, fs));
    if c.outcome.state == Failed { assert gs[..|gs| - 1] == fs; } else { DoomFromKnown(dag, fs); }
  }

  lemma AbsorbExtends(t: Sched, fs: seq<string>, c: Completion)
    requires NoDuplicates(fs) && (forall d :: d in fs <==> DidFail(t.states, d) && d in t.launched)
    requires c.id !in t.states && c.id in t.launched
    ensures var u, gs := Absorb(t, c), Extended(fs, c);
            NoDuplicates(gs) && forall d :: d in gs <==> DidFail(u.states, d) && d in u.launched
  {
    assert c.id !in fs;
    forall d ensures d in Extended(fs, c) <==> DidFail(Absorb(t, c).states, d) && d in t.launched {
      AbsorbedFailures(t, c, d);
    }
  }

  lemma AbsorbedFailures(t: Sched, c: Completion, d: string)
    requires c.id !in t.states
    ensures DidFail(Absorb(t, c).states, d) <==> DidFail(t.states, d) || (d == c.id && c.outcome.state == Failed)
  {}

  /** Once nothing runs, whatever has not succeeded is in every closed set that holds the failures. */
  lemma UnsuccessfulIsBlocked(dag: Dag, limit: int, s: Sched, fs: seq<string>, b: set<string>)
    requires DistinctIds(dag.nodes) && InputsKnown(dag) && Acyclic(InputEdges(dag)) && limit >= 1
    requires Consistent(dag, limit, s) && Settle(dag, limit, s).inFlight == {} && Traced(dag, Settle(dag, limit, s), fs)
    requires Elements(fs) <= b && Closed(dag, b)
    ensures Unsuccessful(dag, Settle(dag, limit, s).states) <= b
  {
    var t := Settle(dag, limit, s);
    var rest := Unsuccessful(dag, t.states) - b;
    if rest != {} {
      var u := AcyclicHasSource(InputEdges(dag), rest);
      var n :| n in dag.nodes && n.id == u;
      forall d | d in n.inputFrom && !DidSucceed(t.states, d) ensures d in b {
        InputEdgesMean(dag, d, u);
        assert Edge(d, u) in InputEdges(dag);
        assert d in Ids(dag.nodes);
      }
      SourceIsCutOff(dag, limit, s, fs, b, n);
    }
  }

  lemma SourceIsCutOff(dag: Dag, limit: int, s: Sched, fs: seq<string>, b: set<string>, n: DagNode)
    requires DistinctIds(dag.nodes) && limit >= 1 && n in dag.nodes && n.id !in fs
    requires Consistent(dag, limit, s) && Settle(dag, limit, s).inFlight == {} && Traced(dag, Settle(dag, limit, s), fs)
    requires !DidSucceed(Settle(dag, limit, s).states, n.id)
    requires forall d :: d in n.inputFrom && !DidSucceed(Settle(dag, limit, s).states, d) ==> d in b
    ensures CutOff(n, b)
  {
    var t := Settle(dag, limit, s);
    CountAgainst(n.inputFrom, t.states, b);
    if n.id in t.states {
      SettleKeepsNode(dag, limit, s, n);
    } else {
      UnsettledIsDoomed(dag, limit, s, n);
    }
  }

  /** A node that is still unsettled when nothing runs lacks its K. */
  lemma UnsettledIsDoomed(dag: Dag, limit: int, s: Sched, n: DagNode)
    requires DistinctIds(dag.nodes) && limit >= 1 && n in dag.nodes
    requires Consistent(dag, limit, s) && Settle(dag, limit, s).inFlight == {} && n.id !in Settle(dag, limit, s).states
    ensures Doomed(n, Settle(dag, limit, s).states)
  {
    SettledStates(dag, limit, s);
    LaunchesAreViable(dag, limit, s);
    LaunchesGrow(dag, limit, s);
    StartsOrLacks(dag, s, n);
    FailingKeepsSuccesses(n.inputFrom, s.states, Settle(dag, limit, s).states);
  }

  lemma StartsOrLacks(dag: Dag, s: Sched, n: DagNode)
    requires n in dag.nodes && n.id !in s.states && n.id !in s.inFlight
    ensures CanStartNow(dag, s, n.id) || Doomed(n, s.states)
  {}

  lemma StuckIsQuiet(dag: Dag, limit: int, s: Sched, fs: seq<string>, e: DagNode)
    requires DistinctIds(dag.nodes) && InputsKnown(dag) && Acyclic(InputEdges(dag)) && limit >= 1
    requires Consistent(dag, limit, s) && Traced(dag, s, fs) && Settle(dag, limit, s).inFlight == {}
    requires !EndNodeFailed(dag, Settle(dag, limit, s).states)
    requires e in dag.nodes && IsEnd(dag, e.id) && !DidSucceed(Settle(dag, limit, s).states, e.id)
    ensures Quiet(dag, fs)
  {
    var t := Settle(dag, limit, s);
    SettleKeepsConsistent(dag, limit, s);
    SettleKeepsTrace(dag, limit, s, fs);
    SettleDooms(dag, limit, s, fs);
    forall f | f in fs ensures f in Ids(dag.nodes) && !IsEnd(dag, f) && !Blocked(dag, Elements(fs) - {f}, f) {
      FailureStandsAlone(dag, limit, t, fs, f);
    }
    forall b | Elements(fs) <= b && Closed(dag, b) ensures e.id in b {
      UnsuccessfulIsBlocked(dag, limit, s, fs, b);
      assert e.id in Unsuccessful(dag, t.states);
    }
    assert Blocked(dag, Elements(fs), e.id);
    forall n | n in dag.nodes && IsEnd(dag, n.id) ensures n.id !in Doom(dag, fs) {}
  }

  lemma FailureStandsAlone(dag: Dag, limit: int, t: Sched, fs: seq<string>, f: string)
    requires DistinctIds(dag.nodes) && Consistent(dag, limit, t) && Traced(dag, t, fs) && f in fs
    requires !EndNodeFailed(dag, t.states)
    ensures f in Ids(dag.nodes) && !IsEnd(dag, f) && !Blocked(dag, Elements(fs) - {f}, f)
  {
    assert f in t.states.Keys;
    var n :| n in dag.nodes && n.id == f;
    var b := Unsuccessful(dag, t.states) - {f};
    UnsuccessfulIsClosed(dag, limit, t, {f});
    forall d | d in Elements(fs) - {f} ensures d in b {
      assert d in t.states.Keys;
    }
    assert Elements(fs) - {f} <= b;
  }

  lemma {:induction false} MisreportIsQuiet(dag: Dag, limit: int, s: Sched, fs: seq<string>, script: seq<Completion>)
    returns (gs: seq<string>)
    requires DistinctIds(dag.nodes) && InputsKnown(dag) && Acyclic(InputEdges(dag)) && limit >= 1
    requires Consistent(dag, limit, s) && Traced(dag, s, fs)
    requires ReportsSuccess(dag, Run(dag, limit, s, script)) && !EndNodesSucceeded(dag, Run(dag, limit, s, script))
    ensures Quiet(dag, gs)
    decreases |script|
  {
    if script != [] && Next(dag, limit, s, script[0]).Some? {
      TraceNext(dag, limit, s, fs, script[0]);
      NextIsSafe(dag, limit, s, script[0]);
      gs := MisreportIsQuiet(dag, limit, Next(dag, limit, s, script[0]).value, Extended(fs, script[0]), script[1..]);
    } else {
      gs := fs;
      MisreportedStop(dag, limit, s, fs, script);
    }
  }

  lemma TraceNext(dag: Dag, limit: int, s: Sched, fs: seq<string>, c: Completion)
    requires DistinctIds(dag.nodes) && Consistent(dag, limit, s) && Traced(dag, s, fs) && Next(dag, limit, s, c).Some?
    ensures Traced(dag, Next(dag, limit, s, c).value, Extended(fs, c))
  {
    SettleKeepsConsistent(dag, limit, s);
    SettleKeepsTrace(dag, limit, s, fs);
    SettleDooms(dag, limit, s, fs);
    AbsorbKeepsTrace(dag, limit, Settle(dag, limit, s), fs, c);
  }

  lemma MisreportedStop(dag: Dag, limit: int, s: Sched, fs: seq<string>, script: seq<Completion>)
    requires DistinctIds(dag.nodes) && InputsKnown(dag) && Acyclic(InputEdges(dag)) && limit >= 1
    requires Consistent(dag, limit, s) && Traced(dag, s, fs)
    requires ReportsSuccess(dag, Stop(dag, limit, s, script)) && !EndNodesSucceeded(dag, Stop(dag, limit, s, script))
    ensures Quiet(dag, fs)
  {
    var end := Stop(dag, limit, s, script);
    StopStates(dag, limit, s, script);
    var e :| e in dag.nodes && IsEnd(dag, e.id) && !DidSucceed(end.s.states, e.id);
    if |s.states| >= |dag.nodes| {
      AllSettledMeans(dag, s);
    } else {
      StuckIsQuiet(dag, limit, s, fs, e);
    }
  }

  /** For every K and every limit: where no failures are quiet, a reported success is a success of every end node. */
  lemma WithoutQuietFailuresSuccessIsReal(dag: Dag, limit: int)
    requires DistinctIds(dag.nodes) && InputsKnown(dag) && Acyclic(InputEdges(dag)) && limit >= 1
    requires forall fs :: !Quiet(dag, fs)
    ensures Trustworthy(dag, limit)
  {
    IdleIsConsistent(dag, limit);
    forall script | ReportsSuccess(dag, Run(dag, limit, IDLE, script))
      ensures EndNodesSucceeded(dag, Run(dag, limit, IDLE, script))
    {
      if !EndNodesSucceeded(dag, Run(dag, limit, IDLE, script)) {
        var gs := MisreportIsQuiet(dag, limit, IDLE, [], script);
      }
    }
  }

  // ---------------------------------------------------------------- quiet failures are misreported

  lemma {:induction false} DoomGrows(dag: Dag, fs: seq<string>, i: nat)
    requires i <= |fs|
    ensures Doom(dag, fs[..i]) <= Doom(dag, fs)
    decreases |fs|
  {
    if i == |fs| {
      assert fs[..i] == fs;
    } else {
      assert fs[..|fs| - 1][..i] == fs[..i];
      DoomGrows(dag, fs[..|fs| - 1], i);
    }
  }

  /** Everything that is neither settled nor running lacks its K. */
  ghost predicate Exhausted(dag: Dag, t: Sched) {
    forall n :: n in dag.nodes && n.id !in t.states && n.id !in t.inFlight ==> Doomed(n, t.states)
  }

  /** While there is room for one more, whatever can start has been started. */
  lemma RoomExhausts(dag: Dag, limit: int, s: Sched)
    requires DistinctIds(dag.nodes) && Consistent(dag, limit, s) && |Settle(dag, limit, s).inFlight| < limit
    ensures Exhausted(dag, Settle(dag, limit, s))
  {
    var t := Settle(dag, limit, s);
    SettledStates(dag, limit, s);
    LaunchesGrow(dag, limit, s);
    LaunchesAreViable(dag, limit, s);
    forall n | n in dag.nodes && n.id !in t.states && n.id !in t.inFlight ensures Doomed(n, t.states) {
      StartsOrLacks(dag, s, n);
      FailingKeepsSuccesses(n.inputFrom, s.states, t.states);
    }
  }

  lemma {:induction false} ElementCount(fs: seq<string>)
    ensures |Elements(fs)| <= |fs|
  {
    if fs != [] {
      var last, prior := fs[|fs| - 1], fs[..|fs| - 1];
      ElementCount(prior);
      assert fs == prior + [last];
      assert Elements(fs) == Elements(prior) + {last};
    }
  }

  /** As many can run as are to fail, and one more. */
  lemma RoomForFailures(fs: seq<string>, i: nat, running: set<string>)
    requires i <= |fs| && running <= Elements(fs[i..])
    ensures |running| <= |fs|
  {
    ElementCount(fs[i..]);
    SubsetSize(running, Elements(fs[i..]));
  }

  /** What the K-of-N pass fails was cut off by what had failed. */
  lemma SettleFailsWithin(dag: Dag, limit: int, s: Sched, b: set<string>)
    requires FailedWithin(s.states, b)
    ensures FailedWithin(Settle(dag, limit, s).states, b + Layer(dag, b))
  {
    var t := Settle(dag, limit, s);
    SettledStates(dag, limit, s);
    forall d | DidFail(t.states, d) ensures d in b + Layer(dag, b) {
      if d !in s.states {
        var n :| n in dag.nodes && n.id == d && IsReady(n, s.states, s.inFlight) && Doomed(n, s.states);
        CountAgainst(n.inputFrom, s.states, b);
      }
    }
  }

  /** The nodes that may have failed when the first `i` of `fs` have, before the next K-of-N pass. */
  function Fallen(dag: Dag, fs: seq<string>, i: nat): set<string>
    requires i <= |fs|
  {
    Elements(fs[..i]) + Known(dag, fs[..i])
  }

  lemma FallenSpreads(dag: Dag, fs: seq<string>, i: nat)
    requires i <= |fs|
    ensures Fallen(dag, fs, i) + Layer(dag, Fallen(dag, fs, i)) == Elements(fs[..i]) + Doom(dag, fs[..i])
    ensures i < |fs| ==> Fallen(dag, fs, i + 1) == Elements(fs[..i]) + {fs[i]} + Doom(dag, fs[..i])
  {
    DoomFromKnown(dag, fs[..i]);
    assert Known(dag, fs[..i]) + Elements(fs[..i]) == Fallen(dag, fs, i);
    if i < |fs| {
      assert fs[..i + 1][..i] == fs[..i];
      assert fs[..i + 1] == fs[..i] + [fs[i]];
      assert Elements(fs[..i + 1]) == Elements(fs[..i]) + {fs[i]};
    }
  }

  /** No end node ever falls. */
  lemma EndsStand(dag: Dag, fs: seq<string>, i: nat, n: DagNode)
    requires Quiet(dag, fs) && i <= |fs| && n in dag.nodes && IsEnd(dag, n.id)
    ensures n.id !in Fallen(dag, fs, i) && n.id !in Elements(fs[..i]) + Doom(dag, fs[..i])
    ensures !CutOff(n, Fallen(dag, fs, i))
  {
    DoomGrows(dag, fs, i);
    FallenSpreads(dag, fs, i);
    assert Elements(fs[..i]) <= Elements(fs);
    assert n.id in Elements(fs) ==> n.id in fs;
  }

  /** A failure that leaves every end node its K is not noticed. */
  lemma FallenGoUnnoticed(dag: Dag, fs: seq<string>, i: nat, states: map<string, NodeState>)
    requires SoundDag(dag) && Quiet(dag, fs) && i < |fs| && FailedWithin(states, Fallen(dag, fs, i + 1))
    ensures !MustAbort(dag, states, fs[i])
  {
    forall n ensures !LostEndNode(dag, states, fs[i], n) {
      if n in dag.nodes && IsEnd(dag, n.id) && Reachable(dag.edges, fs[i], n.id) {
        EndsStand(dag, fs, i + 1, n);
        CountAgainst(n.inputFrom, states, Fallen(dag, fs, i + 1));
        assert fs[i] in fs;
        ReachedHasInputs(dag, fs[i], n);
      }
    }
  }

  lemma ReachedHasInputs(dag: Dag, x: string, n: DagNode)
    requires SoundDag(dag) && n in dag.nodes && n.id != x && Reachable(dag.edges, x, n.id)
    ensures n.inputFrom != []
  {
    var p :| IsWalk(dag.edges, p) && p[0] == x && p[|p| - 1] == n.id;
    assert |p| > 1;
    var e := Edge(p[|p| - 2], p[|p| - 1]);
    assert e in dag.edges;
    var m :| m in dag.nodes && m.id == e.to && e.from in m.inputFrom;
    DistinctNodes(dag.nodes, n, m);
  }

  /** Where the run stands when the first `i` of `fs` have failed and the others are all that runs. */
  ghost predicate Falling(dag: Dag, limit: int, s: Sched, fs: seq<string>, i: nat)
    requires i <= |fs|
  {
    && Consistent(dag, limit, s)
    && Settle(dag, limit, s).inFlight == Elements(fs[i..])
    && FailedWithin(s.states, Fallen(dag, fs, i))
    && (forall f :: f in fs ==> !DidSucceed(s.states, f))
  }

  /** A blocked end node never runs. */
  lemma BlockedStaysOut(dag: Dag, limit: int, s: Sched, fs: seq<string>, i: nat, e: DagNode)
    requires SoundDag(dag) && Quiet(dag, fs) && i <= |fs| && Falling(dag, limit, s, fs, i)
    requires e in dag.nodes && IsEnd(dag, e.id) && Blocked(dag, Elements(fs), e.id)
    ensures !DidSucceed(s.states, e.id) && e.id !in s.states && |s.states| < |dag.nodes|
  {
    var b := Unsuccessful(dag, s.states);
    UnsuccessfulIsClosed(dag, limit, s, {});
    assert b - {} == b;
    assert Elements(fs) <= b;
    EndsStand(dag, fs, i, e);
    UnsettledExists(dag, s);
    assert e.id in Ids(dag.nodes) - s.states.Keys;
  }

  /** When all have failed the loop is left, and nobody knows. */
  lemma LastStop(dag: Dag, limit: int, s: Sched, fs: seq<string>)
    requires SoundDag(dag) && Quiet(dag, fs) && Falling(dag, limit, s, fs, |fs|)
    ensures ReportsSuccess(dag, Run(dag, limit, s, [])) && !EndNodesSucceeded(dag, Run(dag, limit, s, []))
  {
    var e :| e in dag.nodes && IsEnd(dag, e.id) && Blocked(dag, Elements(fs), e.id);
    BlockedStaysOut(dag, limit, s, fs, |fs|, e);
    StopStates(dag, limit, s, []);
    NoEndHasFallen(dag, limit, s, fs);
    SuccessesStay(dag, limit, s, e.id);
    assert Settle(dag, limit, s).inFlight == {};
  }

  lemma SuccessesStay(dag: Dag, limit: int, s: Sched, d: string)
    ensures DidSucceed(Settle(dag, limit, s).states, d) <==> DidSucceed(s.states, d)
  {
    SettledStates(dag, limit, s);
  }

  lemma NoEndHasFallen(dag: Dag, limit: int, s: Sched, fs: seq<string>)
    requires Quiet(dag, fs) && FailedWithin(s.states, Fallen(dag, fs, |fs|))
    ensures !EndNodeFailed(dag, Settle(dag, limit, s).states)
  {
    SettledFallen(dag, limit, s, fs, |fs|);
    forall n | n in dag.nodes && IsEnd(dag, n.id) ensures !DidFail(Settle(dag, limit, s).states, n.id) {
      EndsStand(dag, fs, |fs|, n);
    }
  }

  lemma SettledFallen(dag: Dag, limit: int, s: Sched, fs: seq<string>, i: nat)
    requires i <= |fs| && FailedWithin(s.states, Fallen(dag, fs, i))
    ensures FailedWithin(Settle(dag, limit, s).states, Elements(fs[..i]) + Doom(dag, fs[..i]))
  {
    SettleFailsWithin(dag, limit, s, Fallen(dag, fs, i));
    FallenSpreads(dag, fs, i);
  }

  lemma FallOne(dag: Dag, limit: int, s: Sched, fs: seq<string>, i: nat, c: Completion)
    requires SoundDag(dag) && Quiet(dag, fs) && i < |fs| < limit
    requires Falling(dag, limit, s, fs, i) && c == Completion(fs[i], Outcome(Failed, None))
    ensures var u := Absorb(Settle(dag, limit, s), c);
            Next(dag, limit, s, c) == Some(u) && Falling(dag, limit, u, fs, i + 1)
  {
    var t := Settle(dag, limit, s);
    var u := Absorb(t, c);
    var e :| e in dag.nodes && IsEnd(dag, e.id) && Blocked(dag, Elements(fs), e.id);
    BlockedStaysOut(dag, limit, s, fs, i, e);
    assert fs[i..][0] == fs[i];
    FallOneFails(dag, limit, s, fs, i, c);
    FallenGoUnnoticed(dag, fs, i, u.states);
    IterationKeepsConsistent(dag, limit, s, c);
    FallOneRuns(dag, limit, s, fs, i, c);
  }

  lemma FallOneFails(dag: Dag, limit: int, s: Sched, fs: seq<string>, i: nat, c: Completion)
    requires DistinctIds(dag.nodes) && i < |fs| && Falling(dag, limit, s, fs, i)
    requires c == Completion(fs[i], Outcome(Failed, None)) && fs[i] in Settle(dag, limit, s).inFlight
    ensures var u := Absorb(Settle(dag, limit, s), c);
            FailedWithin(u.states, Fallen(dag, fs, i + 1)) && forall f :: f in fs ==> !DidSucceed(u.states, f)
  {
    var t := Settle(dag, limit, s);
    var u := Absorb(t, c);
    SettleKeepsTables(dag, limit, s);
    SettledFallen(dag, limit, s, fs, i);
    FallenSpreads(dag, fs, i);
    forall d | DidFail(u.states, d) ensures d in Fallen(dag, fs, i + 1) { AbsorbedFailures(t, c, d); }
    forall f | f in fs ensures !DidSucceed(u.states, f) {
      AbsorbedFailure(t, c);
      SuccessesStay(dag, limit, s, f);
    }
  }

  /** Nothing new starts after a failure, so one node fewer runs. */
  lemma FallOneRuns(dag: Dag, limit: int, s: Sched, fs: seq<string>, i: nat, c: Completion)
    requires DistinctIds(dag.nodes) && NoDuplicates(fs) && i < |fs| < limit
    requires Consistent(dag, limit, s) && Settle(dag, limit, s).inFlight == Elements(fs[i..])
    requires c == Completion(fs[i], Outcome(Failed, None)) && Consistent(dag, limit, Absorb(Settle(dag, limit, s), c))
    ensures Settle(dag, limit, Absorb(Settle(dag, limit, s), c)).inFlight == Elements(fs[i + 1..])
  {
    var t := Settle(dag, limit, s);
    var u := Absorb(t, c);
    RestOf(fs, i);
    RoomForFailures(fs, i, t.inFlight);
    LaunchesGrow(dag, limit, u);
    LaunchesAreViable(dag, limit, u);
    forall d ensures !CanStartNow(dag, u, d) { NoneStartsAfter(dag, limit, s, fs[i], c, d); }
  }

  lemma RestOf(fs: seq<string>, i: nat)
    requires NoDuplicates(fs) && i < |fs|
    ensures Elements(fs[i..]) - {fs[i]} == Elements(fs[i + 1..]) && fs[i] in Elements(fs[i..])
  {
    assert fs[i..] == [fs[i]] + fs[i + 1..];
    assert Elements(fs[i..]) == {fs[i]} + Elements(fs[i + 1..]);
    var rest := fs[i + 1..];
    forall k | 0 <= k < |rest| ensures rest[k] != fs[i] { assert rest[k] == fs[i + 1 + k]; }
  }

  lemma NoneStartsAfter(dag: Dag, limit: int, s: Sched, x: string, c: Completion, d: string)
    requires DistinctIds(dag.nodes) && Consistent(dag, limit, s) && |Settle(dag, limit, s).inFlight| < limit
    requires x in Settle(dag, limit, s).inFlight && c.id == x && c.outcome.state == Failed
    ensures !CanStartNow(dag, Absorb(Settle(dag, limit, s), c), d)
  {
    var t := Settle(dag, limit, s);
    var u := Absorb(t, c);
    RoomExhausts(dag, limit, s);
    SettleKeepsTables(dag, limit, s);
    AbsorbedFailure(t, c);
    forall n | n in dag.nodes && IsReady(n, u.states, u.inFlight) ensures Doomed(n, u.states) {
      FailingKeepsSuccesses(n.inputFrom, t.states, u.states);
    }
  }

  lemma {:induction false} FailRest(dag: Dag, limit: int, s: Sched, fs: seq<string>, i: nat)
    returns (script: seq<Completion>)
    requires SoundDag(dag) && Quiet(dag, fs) && i <= |fs| < limit && Falling(dag, limit, s, fs, i)
    ensures ReportsSuccess(dag, Run(dag, limit, s, script)) && !EndNodesSucceeded(dag, Run(dag, limit, s, script))
    decreases |fs| - i
  {
    if i == |fs| {
      script := [];
      LastStop(dag, limit, s, fs);
    } else {
      var c := Completion(fs[i], Outcome(Failed, None));
      FallOne(dag, limit, s, fs, i, c);
      var rest := FailRest(dag, limit, Absorb(Settle(dag, limit, s), c), fs, i + 1);
      script := [c] + rest;
      RunCons(dag, limit, s, c, rest);
    }
  }

  // ---------------------------------------------------------------- reaching that point

  /** With everything started that can be, the nodes left over are held back by those that run. */
  lemma LeftoversAreHeldBack(dag: Dag, t: Sched, b: set<string>)
    requires InputsKnown(dag) && Acyclic(InputEdges(dag)) && Exhausted(dag, t) && NoFailures(t.states)
    requires t.inFlight <= b && Closed(dag, b)
    ensures Ids(dag.nodes) - t.states.Keys <= b
  {
    var rest := Ids(dag.nodes) - t.states.Keys - b;
    if rest != {} {
      var u := AcyclicHasSource(InputEdges(dag), rest);
      var n :| n in dag.nodes && n.id == u;
      forall d | d in n.inputFrom && !DidSucceed(t.states, d) ensures d in b {
        InputEdgesMean(dag, d, u);
        assert Edge(d, u) in InputEdges(dag) && d in Ids(dag.nodes);
      }
      CountAgainst(n.inputFrom, t.states, b);
    } else {
      forall d | d in Ids(dag.nodes) && d !in t.states.Keys ensures d in b { assert d in b || d in rest; }
    }
  }

  /** Without failures the K-of-N pass settles nothing. */
  lemma SettlesNothing(dag: Dag, limit: int, s: Sched)
    requires KWithinInputs(dag) && NoFailures(s.states)
    ensures Settle(dag, limit, s).states == s.states
  {
    SettleWithoutFailures(dag, limit, s);
    SettledStates(dag, limit, s);
  }

  /** Once only failures-to-be run, all of them do. */
  lemma AllWillFall(dag: Dag, limit: int, s: Sched, fs: seq<string>, f: string)
    requires SoundDag(dag) && KWithinInputs(dag) && Quiet(dag, fs) && limit > |fs| && f in fs
    requires Consistent(dag, limit, s) && NoFailures(s.states) && f !in s.states
    requires Settle(dag, limit, s).inFlight <= Elements(fs)
    ensures f in Settle(dag, limit, s).inFlight
  {
    var t := Settle(dag, limit, s);
    if f !in t.inFlight {
      SettlesNothing(dag, limit, s);
      assert fs[0..] == fs;
      RoomForFailures(fs, 0, t.inFlight);
      RoomExhausts(dag, limit, s);
      InputEdgesAreEdges(dag);
      var b: set<string> :| Elements(fs) - {f} <= b && Closed(dag, b) && f !in b;
      assert f in Elements(fs);
      LeftoversAreHeldBack(dag, t, b);
    }
  }

  lemma CompleteOutside(dag: Dag, limit: int, s: Sched, fs: seq<string>, c: Completion)
    requires DistinctIds(dag.nodes) && KWithinInputs(dag) && Consistent(dag, limit, s) && NoFailures(s.states)
    requires |s.states| < |dag.nodes| && s.states.Keys !! Elements(fs)
    requires c.id in Settle(dag, limit, s).inFlight && c.id !in fs && c.outcome == Outcome(Completed, None)
    ensures var u := Absorb(Settle(dag, limit, s), c);
            && Next(dag, limit, s, c) == Some(u) && Consistent(dag, limit, u)
            && NoFailures(u.states) && u.states.Keys !! Elements(fs) && |u.states| > |s.states|
  {
    var t := Settle(dag, limit, s);
    IterationKeepsConsistent(dag, limit, s, c);
    SettlesNothing(dag, limit, s);
    AbsorbedSuccess(t, c, Elements(fs));
  }

  lemma AbsorbedSuccess(t: Sched, c: Completion, out: set<string>)
    requires NoFailures(t.states) && t.states.Keys !! out && c.id !in out && c.outcome.state == Completed
    ensures NoFailures(Absorb(t, c).states) && Absorb(t, c).states.Keys !! out
  {}

  lemma FallingStarts(dag: Dag, limit: int, s: Sched, fs: seq<string>)
    requires SoundDag(dag) && KWithinInputs(dag) && Quiet(dag, fs) && limit > |fs|
    requires Consistent(dag, limit, s) && NoFailures(s.states) && s.states.Keys !! Elements(fs)
    requires Settle(dag, limit, s).inFlight <= Elements(fs)
    ensures Falling(dag, limit, s, fs, 0)
  {
    AllRun(dag, limit, s, fs);
    forall f | f in fs ensures f !in s.states { assert f in Elements(fs); }
    assert fs[0..] == fs;
  }

  lemma AllRun(dag: Dag, limit: int, s: Sched, fs: seq<string>)
    requires SoundDag(dag) && KWithinInputs(dag) && Quiet(dag, fs) && limit > |fs|
    requires Consistent(dag, limit, s) && NoFailures(s.states) && s.states.Keys !! Elements(fs)
    requires Settle(dag, limit, s).inFlight <= Elements(fs)
    ensures Settle(dag, limit, s).inFlight == Elements(fs)
  {
    forall f | f in Elements(fs) ensures f in Settle(dag, limit, s).inFlight { AllWillFall(dag, limit, s, fs, f); }
  }

  lemma QuietIsUnsettled(dag: Dag, s: Sched, fs: seq<string>)
    requires DistinctIds(dag.nodes) && KWithinInputs(dag) && Quiet(dag, fs)
    requires s.states.Keys <= Ids(dag.nodes) && s.states.Keys !! Elements(fs)
    ensures |s.states| < |dag.nodes|
  {
    if fs == [] {
      NothingIsCutOff(dag);
    } else {
      UnsettledExists(dag, s);
      assert fs[0] in Elements(fs);
      assert fs[0] in Ids(dag.nodes) - s.states.Keys;
    }
  }

  lemma NothingIsCutOff(dag: Dag)
    requires KWithinInputs(dag)
    ensures Closed(dag, {})
  {
    forall n | n in dag.nodes ensures !CutOff(n, {}) { CountNone(n.inputFrom); }
  }

  lemma {:induction false} CountNone(inputs: seq<string>)
    ensures CountIn(inputs, {}) == 0
  {
    if inputs != [] { CountNone(inputs[1..]); }
  }

  /** Completes everything that is not to fail, then fails the rest in order. */
  lemma {:induction false} QuietRun(dag: Dag, limit: int, s: Sched, fs: seq<string>) returns (script: seq<Completion>)
    requires SoundDag(dag) && KWithinInputs(dag) && Quiet(dag, fs) && limit > |fs|
    requires Consistent(dag, limit, s) && NoFailures(s.states) && s.states.Keys !! Elements(fs)
    ensures ReportsSuccess(dag, Run(dag, limit, s, script)) && !EndNodesSucceeded(dag, Run(dag, limit, s, script))
    decreases |dag.nodes| - |s.states|
  {
    var t := Settle(dag, limit, s);
    if t.inFlight <= Elements(fs) {
      FallingStarts(dag, limit, s, fs);
      script := FailRest(dag, limit, s, fs, 0);
    } else {
      var y :| y in t.inFlight && y !in Elements(fs);
      var c := Completion(y, Outcome(Completed, None));
      QuietIsUnsettled(dag, s, fs);
      CompleteOutside(dag, limit, s, fs, c);
      var rest := QuietRun(dag, limit, Absorb(t, c), fs);
      script := [c] + rest;
      RunCons(dag, limit, s, c, rest);
    }
  }

  /** Quiet failures are misreported as soon as one more node may run than fails. */
  lemma QuietFailuresMisreport(dag: Dag, limit: int, fs: seq<string>)
    requires SoundDag(dag) && KWithinInputs(dag) && Quiet(dag, fs) && limit > |fs|
    ensures !Trustworthy(dag, limit)
  {
    IdleIsConsistent(dag, limit);
    var script := QuietRun(dag, limit, IDLE, fs);
  }

  lemma QuietLeavesRoom(dag: Dag, fs: seq<string>)
    requires DistinctIds(dag.nodes) && Quiet(dag, fs)
    ensures |fs| < |dag.nodes|
  {
    var e :| e in dag.nodes && IsEnd(dag, e.id) && Blocked(dag, Elements(fs), e.id);
    assert e.id !in Elements(fs) by { assert e.id in Elements(fs) ==> e.id in fs; }
    DistinctCount(fs);
    IdCount(dag.nodes);
    SubsetSize(Elements(fs) + {e.id}, Ids(dag.nodes));
  }

  lemma {:induction false} DistinctCount(fs: seq<string>)
    requires NoDuplicates(fs)
    ensures |Elements(fs)| == |fs|
  {
    if fs != [] {
      var last, prior := fs[|fs| - 1], fs[..|fs| - 1];
      DistinctCount(prior);
      assert fs == prior + [last];
      assert Elements(fs) == Elements(prior) + {last};
      assert last !in prior;
    }
  }

  /**
   The exact condition for every K of N, with room for all nodes at once: a reported success always means that the end
   nodes succeeded if and only if no sequence of failures is quiet. That it suffices holds for every limit.
   */
  lemma TrustworthyExactlyWhenNothingIsQuiet(dag: Dag, limit: int)
    requires SoundDag(dag) && KWithinInputs(dag) && limit >= 1 && limit >= |dag.nodes|
    ensures Trustworthy(dag, limit) <==> forall fs :: !Quiet(dag, fs)
  {
    InputEdgesAreEdges(dag);
    if forall fs :: !Quiet(dag, fs) {
      WithoutQuietFailuresSuccessIsReal(dag, limit);
    } else {
      var fs :| Quiet(dag, fs);
      QuietLeavesRoom(dag, fs);
      QuietFailuresMisreport(dag, limit, fs);
    }
  }

  // ---------------------------------------------------------------- conditions that are easy to check

  /** Failures that leave every end node enough direct inputs block no end node. */
  ghost predicate Robust(dag: Dag) {
    forall f: set<string> :: f <= Ids(dag.nodes) && LeavesEnds(dag, f) ==> !BlocksAnEnd(dag, f)
  }

  ghost predicate LeavesEnds(dag: Dag, f: set<string>) {
    forall n :: n in dag.nodes && IsEnd(dag, n.id) ==> n.id !in f && !CutOff(n, f)
  }

  ghost predicate BlocksAnEnd(dag: Dag, f: set<string>) {
    exists n :: n in dag.nodes && IsEnd(dag, n.id) && Blocked(dag, f, n.id)
  }

  /** For every K and every limit, a robust graph can be trusted. */
  lemma RobustMeansTrust(dag: Dag, limit: int)
    requires DistinctIds(dag.nodes) && InputsKnown(dag) && Acyclic(InputEdges(dag)) && limit >= 1 && Robust(dag)
    ensures Trustworthy(dag, limit)
  {
    forall fs ensures !Quiet(dag, fs) {
      if Quiet(dag, fs) { QuietLeavesEnds(dag, fs); }
    }
    WithoutQuietFailuresSuccessIsReal(dag, limit);
  }

  lemma QuietLeavesEnds(dag: Dag, fs: seq<string>)
    requires Quiet(dag, fs)
    ensures LeavesEnds(dag, Elements(fs)) && BlocksAnEnd(dag, Elements(fs))
  {
    DoomFromKnown(dag, fs);
    forall n | n in dag.nodes && IsEnd(dag, n.id) ensures n.id !in Elements(fs) && !CutOff(n, Elements(fs)) {
      assert n.id in Elements(fs) ==> n.id in fs;
      CountGrows(n.inputFrom, Elements(fs), Known(dag, fs) + Elements(fs));
      assert CutOff(n, Known(dag, fs) + Elements(fs)) ==> n.id in Layer(dag, Known(dag, fs) + Elements(fs));
    }
  }

  /** Every node that is not an end node feeds an end node that needs all of its inputs. */
  ghost predicate StrictlyShielded(dag: Dag) {
    forall x :: x in Ids(dag.nodes) && !IsEnd(dag, x) ==> FeedsStrictEnd(dag, x)
  }

  ghost predicate FeedsStrictEnd(dag: Dag, x: string) {
    exists e :: e in dag.nodes && IsEnd(dag, e.id) && x in e.inputFrom && Required(e) == |e.inputFrom|
  }

  /** That is enough too, whatever the K of the others. */
  lemma StrictShieldMeansTrust(dag: Dag, limit: int)
    requires DistinctIds(dag.nodes) && InputsKnown(dag) && Acyclic(InputEdges(dag)) && limit >= 1
    requires KWithinInputs(dag) && StrictlyShielded(dag)
    ensures Trustworthy(dag, limit)
  {
    forall fs ensures !Quiet(dag, fs) {
      if Quiet(dag, fs) {
        if fs == [] {
          NothingIsCutOff(dag);
        } else {
          assert fs[0] in Elements(fs) && fs[0] in fs;
          var e :| e in dag.nodes && IsEnd(dag, e.id) && fs[0] in e.inputFrom && Required(e) == |e.inputFrom|;
          QuietLeavesEnds(dag, fs);
          OneCounts(e.inputFrom, Elements(fs), fs[0]);
        }
      }
    }
    WithoutQuietFailuresSuccessIsReal(dag, limit);
  }

  lemma {:induction false} OneCounts(inputs: seq<string>, b: set<string>, d: string)
    requires d in inputs && d in b
    ensures CountIn(inputs, b) >= 1
  {
    if inputs[0] != d { OneCounts(inputs[1..], b, d); }
  }

  // ---------------------------------------------------------------- a K-of-N graph that misreports

  /** `e` needs one of `a` and `b`, and `b` needs `a`. */
  ghost predicate IsTriangle(dag: Dag, a: DagNode, b: DagNode, e: DagNode) {
    && dag.nodes == [a, b, e] && a.id != b.id && b.id != e.id && a.id != e.id
    && a.inputFrom == [] && b.inputFrom == [a.id] && e.inputFrom == [a.id, b.id]
    && a.minRequired == 0 && b.minRequired == 0 && e.minRequired == 1
    && dag.edges == [Edge(a.id, b.id), Edge(a.id, e.id), Edge(b.id, e.id)]
  }

  lemma TriangleMembers(dag: Dag, a: DagNode, b: DagNode, e: DagNode)
    requires IsTriangle(dag, a, b, e)
    ensures (forall n :: n in dag.nodes <==> n == a || n == b || n == e) && Ids(dag.nodes) == {a.id, b.id, e.id}
    ensures forall x :: x in dag.edges <==> x == Edge(a.id, b.id) || x == Edge(a.id, e.id) || x == Edge(b.id, e.id)
    ensures IsEnd(dag, e.id) && !IsEnd(dag, a.id) && !IsEnd(dag, b.id)
  {
    assert dag.nodes[0] == a && dag.nodes[1] == b && dag.nodes[2] == e;
    assert dag.edges[0] == Edge(a.id, b.id) && dag.edges[1] == Edge(a.id, e.id) && dag.edges[2] == Edge(b.id, e.id);
  }

  lemma TriangleIsSound(dag: Dag, a: DagNode, b: DagNode, e: DagNode)
    requires IsTriangle(dag, a, b, e)
    ensures SoundDag(dag) && KWithinInputs(dag)
  {
    TriangleMembers(dag, a, b, e);
    TriangleIsAcyclic(dag, a, b, e);
    TriangleAgrees(dag, a, b, e);
  }

  lemma TriangleIsShielded(dag: Dag, a: DagNode, b: DagNode, e: DagNode)
    requires IsTriangle(dag, a, b, e)
    ensures Shielded(dag)
  {
    TriangleMembers(dag, a, b, e);
    assert e in dag.nodes;
  }

  lemma TriangleIsAcyclic(dag: Dag, a: DagNode, b: DagNode, e: DagNode)
    requires IsTriangle(dag, a, b, e)
    ensures Acyclic(dag.edges)
  {
    TriangleMembers(dag, a, b, e);
    var order := [a.id, b.id, e.id];
    assert order[0] == a.id && order[1] == b.id && order[2] == e.id;
    assert Elements(order) == {a.id, b.id, e.id};
    forall x | x in dag.edges ensures Before(order, x.from, x.to) {}
    OrderExcludesCycles({a.id, b.id, e.id}, dag.edges, order);
  }

  lemma TriangleAgrees(dag: Dag, a: DagNode, b: DagNode, e: DagNode)
    requires IsTriangle(dag, a, b, e)
    ensures EdgesAgree(dag)
  {
    TriangleMembers(dag, a, b, e);
    forall x: Edge ensures x in dag.edges <==> exists n :: n in dag.nodes && n.id == x.to && x.from in n.inputFrom {
      if x in dag.edges {
        var n := if x.to == b.id then b else e;
        assert n in dag.nodes && n.id == x.to && x.from in n.inputFrom;
      }
      if n: DagNode :| n in dag.nodes && n.id == x.to && x.from in n.inputFrom {
        assert x == Edge(x.from, x.to);
      }
    }
  }

  lemma CountTwo(x: string, y: string, b: set<string>)
    ensures CountIn([x], b) == if x in b then 1 else 0
    ensures CountIn([x, y], b) == (if x in b then 1 else 0) + if y in b then 1 else 0
  {
    assert [x][1..] == [] && [x, y][1..] == [y] && [y][1..] == [];
    assert CountIn([y], b) == if y in b then 1 else 0;
  }

  lemma TriangleIsQuiet(dag: Dag, a: DagNode, b: DagNode, e: DagNode, fs: seq<string>)
    requires IsTriangle(dag, a, b, e) && fs == [a.id]
    ensures Quiet(dag, fs)
  {
    TriangleMembers(dag, a, b, e);
    TriangleIsSound(dag, a, b, e);
    NothingIsCutOff(dag);
    assert Elements(fs) == {a.id} && Elements(fs) - {a.id} == {} && fs[..0] == [];
    CountTwo(a.id, b.id, {});
    CountTwo(a.id, b.id, {a.id});
    DoomFromKnown(dag, fs);
    assert Layer(dag, {}) == {};
    assert Known(dag, fs) + Elements(fs) == {a.id};
    assert e.id !in Layer(dag, {a.id}) by { assert !CutOff(e, {a.id}); }
    TriangleBlocks(dag, a, b, e);
  }

  lemma TriangleBlocks(dag: Dag, a: DagNode, b: DagNode, e: DagNode)
    requires IsTriangle(dag, a, b, e)
    ensures Blocked(dag, {a.id}, e.id)
  {
    TriangleMembers(dag, a, b, e);
    forall c: set<string> | {a.id} <= c && Closed(dag, c) ensures e.id in c {
      CountTwo(a.id, b.id, c);
      assert CutOff(b, c);
    }
  }

  /** Such a graph is shielded in the sense that suffices where all inputs are needed, and yet it misreports. */
  lemma TriangleMisreports(dag: Dag, a: DagNode, b: DagNode, e: DagNode, limit: int)
    requires IsTriangle(dag, a, b, e) && limit >= 2
    ensures Shielded(dag) && !Trustworthy(dag, limit)
  {
    TriangleIsSound(dag, a, b, e);
    TriangleIsShielded(dag, a, b, e);
    TriangleIsQuiet(dag, a, b, e, [a.id]);
    QuietFailuresMisreport(dag, limit, [a.id]);
  }

  lemma TrianglesExist() returns (dag: Dag, a: DagNode, b: DagNode, e: DagNode)
    ensures IsTriangle(dag, a, b, e)
  {
    a, b, e := StepNode("a", []), StepNode("b", ["a"]), StepNode("e", ["a", "b"]).(minRequired := 1);
    assert "a"[0] != "b"[0] && "b"[0] != "e"[0] && "a"[0] != "e"[0];
    dag := Dag([a, b, e], [Edge("a", "b"), Edge("a", "e"), Edge("b", "e")]);
  }
}
