/**
 Epoch fencing of cluster Anchors, for any number of guards and frames, and highest-epoch resolution of a cluster.
 */
module EpochGuards {
  import opened Common

  datatype Event = Failover(successor: string, epoch: int) | QuorumLost(quorum: int, available: int)

  datatype Guard = Guard(nid: string, epoch: int, active: bool, degraded: bool, fenced: bool, events: seq<Event>)

  datatype Verdict = Admitted | EpochFenced | NotLeader

  /** The inbound stamp of a frame: an absent epoch means 1. */
  function Inbound(epoch: Option<int>): int { epoch.GetOr(1) }

  function Check(g: Guard, epoch: Option<int>, write: bool, sender: Option<string>): (Guard, Verdict) {
    if Inbound(epoch) > g.epoch then
      (g.(active := false, fenced := true, events := g.events + [Failover(sender.GetOr(""), Inbound(epoch))]),
       EpochFenced)
    else if write && (!g.active || g.degraded) then (g, NotLeader)
    else (g, Admitted)
  }

  function TakeOver(g: Guard, epoch: int): Guard {
    if epoch <= g.epoch then g
    else Guard(g.nid, epoch, true, false, false, g.events + [Failover(g.nid, epoch)])
  }

  /** `AnchorEpochGuard`. */
  class AnchorEpochGuard {
    const nid: string
    var ownEpoch: int
    var active: bool
    var degraded: bool
    var fenced: bool
    var events: seq<Event>

    ghost function Now(): Guard
      reads this
    {
      Guard(nid, ownEpoch, active, degraded, fenced, events)
    }

    constructor (nid: string, ownEpoch: int, active: bool)
      ensures Now() == Guard(nid, ownEpoch, active, false, false, [])
    {
      this.nid, this.ownEpoch, this.active, degraded, fenced, events := nid, ownEpoch, active, false, false, [];
    }

    method CheckInbound(epoch: Option<int>, write: bool, sender: Option<string>) returns (v: Verdict)
      modifies this
      ensures (Now(), v) == Check(old(Now()), epoch, write, sender)
    {
      var inbound := if epoch.None? then 1 else epoch.value;
      if inbound > ownEpoch {
        active, fenced := false, true;
        events := events + [Failover(sender.GetOr(""), inbound)];
        return EpochFenced;
      }
      if write && (!active || degraded) { return NotLeader; }
      v := Admitted;
    }

    method OnQuorumLost(quorum: int, available: int)
      modifies this
      ensures Now() == old(Now()).(degraded := true, events := old(events) + [QuorumLost(quorum, available)])
    {
      degraded := true;
      events := events + [QuorumLost(quorum, available)];
    }

    method OnQuorumRestored()
      modifies this
      ensures Now() == old(Now()).(degraded := false)
    {
      degraded := false;
    }

    /** Refused, with nothing changed, unless the epoch strictly increases. */
    method OnTakeOwnership(epoch: int) returns (ok: bool)
      modifies this
      ensures ok == (epoch > old(ownEpoch)) && Now() == TakeOver(old(Now()), epoch)
    {
      if epoch <= ownEpoch { return false; }
      ownEpoch, active, degraded, fenced := epoch, true, false, false;
      events := events + [Failover(nid, epoch)];
      ok := true;
    }
  }

  // ---------------------------------------------------------------- a cluster of guards

  /** `top` is the highest epoch anybody has owned so far. */
  datatype Cluster = Cluster(guards: map<string, Guard>, top: int, writes: seq<Write>)

  /** A topology write that was admitted, by whom, under which own epoch, and with which stamp. */
  datatype Write = Write(anchor: string, epoch: int, stamp: int)

  datatype Action =
    | Deliver(target: string, stamp: Option<int>, write: bool, sender: Option<string>)
    | LoseQuorum(target: string, quorum: int, available: int)
    | RestoreQuorum(target: string)
    | Promote(target: string, epoch: int)

  function Step(c: Cluster, a: Action): Cluster {
    if a.target !in c.guards then c
    else
      var g := c.guards[a.target];
      match a
      case Deliver(_, stamp, write, sender) =>
        var (next, v) := Check(g, stamp, write, sender);
        c.(guards := c.guards[a.target := next],
           writes := if write && v == Admitted then c.writes + [Write(a.target, g.epoch, Inbound(stamp))] else c.writes)
      case LoseQuorum(_, q, n) =>
        c.(guards := c.guards[a.target := g.(degraded := true, events := g.events + [QuorumLost(q, n)])])
      case RestoreQuorum(_) => c.(guards := c.guards[a.target := g.(degraded := false)])
      case Promote(_, epoch) => c.(guards := c.guards[a.target := TakeOver(g, epoch)], top := Max(c.top, epoch))
  }

  function Run(c: Cluster, actions: seq<Action>): Cluster
    decreases |actions|
  {
    if actions == [] then c else Run(Step(c, actions[0]), actions[1..])
  }

  /** The documented duty of whoever promotes: use an epoch above every one before it. */
  predicate PromotesAbove(c: Cluster, actions: seq<Action>)
    decreases |actions|
  {
    actions != [] ==>
      && (actions[0].Promote? ==> actions[0].epoch > c.top)
      && PromotesAbove(Step(c, actions[0]), actions[1..])
  }

  /** At most one Anchor is active, nothing is above `top`, and no write has been admitted yet. */
  ghost predicate Starts(c: Cluster) {
    && c.writes == []
    && (forall a :: a in c.guards ==> c.guards[a].epoch <= c.top && (c.guards[a].fenced ==> !c.guards[a].active))
    && (forall a, b :: a in c.guards && b in c.guards && c.guards[a].active && c.guards[b].active ==> a == b)
  }

  /** `owner` says who may ever have been active at an epoch. */
  ghost predicate Owned(c: Cluster, owner: map<int, string>) {
    && (forall a :: a in c.guards ==> c.guards[a].epoch <= c.top)
    && (forall a :: a in c.guards && c.guards[a].active ==> c.guards[a].epoch in owner && owner[c.guards[a].epoch] == a)
    && (forall a :: a in c.guards && c.guards[a].fenced ==> !c.guards[a].active)
    && (forall e :: e in owner ==> e <= c.top)
    && (forall i :: 0 <= i < |c.writes| ==>
          c.writes[i].epoch in owner && owner[c.writes[i].epoch] == c.writes[i].anchor &&
            c.writes[i].stamp <= c.writes[i].epoch)
  }

  lemma StepKeepsOwned(c: Cluster, a: Action, owner: map<int, string>) returns (next: map<int, string>)
    requires Owned(c, owner) && (a.Promote? ==> a.epoch > c.top)
    ensures Owned(Step(c, a), next)
  {
    next := if a.Promote? && a.target in c.guards then owner[a.epoch := a.target] else owner;
  }

  lemma {:induction false} EveryRunIsOwned(c: Cluster, actions: seq<Action>, owner: map<int, string>)
    returns (last: map<int, string>)
    requires Owned(c, owner) && PromotesAbove(c, actions)
    ensures Owned(Run(c, actions), last)
    decreases |actions|
  {
    if actions == [] {
      last := owner;
    } else {
      var next := StepKeepsOwned(c, actions[0], owner);
      last := EveryRunIsOwned(Step(c, actions[0]), actions[1..], next);
    }
  }

  /**
   Fencing safety: over any run from a cluster with at most one active Anchor, active Anchors have pairwise distinct
   epochs, no two Anchors ever admit a topology write under one epoch, and a write stamped `e` is never
   admitted by an Anchor that owns an epoch below `e`.
   */
  lemma OneWriterPerEpoch(c: Cluster, actions: seq<Action>)
    requires Starts(c) && PromotesAbove(c, actions)
    ensures var last := Run(c, actions);
            && (forall a, b ::
                  a in last.guards && b in last.guards && a != b && last.guards[a].active && last.guards[b].active ==>
                    last.guards[a].epoch != last.guards[b].epoch)
            && (forall i, j ::
                  0 <= i < |last.writes| && 0 <= j < |last.writes| && last.writes[i].epoch == last.writes[j].epoch ==>
                    last.writes[i].anchor == last.writes[j].anchor)
            && (forall i :: 0 <= i < |last.writes| ==> last.writes[i].stamp <= last.writes[i].epoch)
  {
    var owner: map<int, string> := map[];
    if a :| a in c.guards && c.guards[a].active { owner := map[c.guards[a].epoch := a]; }
    assert Owned(c, owner);
    var last := EveryRunIsOwned(c, actions, owner);
  }

  /** A fenced Anchor admits no write until it takes ownership again. */
  lemma {:induction false} FencedStaysSilent(c: Cluster, actions: seq<Action>, a: string)
    requires a in c.guards && c.guards[a].fenced && !c.guards[a].active
    requires forall i :: 0 <= i < |actions| && actions[i].target == a ==> !actions[i].Promote?
    ensures |Run(c, actions).writes| >= |c.writes|
    ensures forall i :: |c.writes| <= i < |Run(c, actions).writes| ==> Run(c, actions).writes[i].anchor != a
    decreases |actions|
  {
    if actions != [] {
      var next := Step(c, actions[0]);
      assert actions[0].target == a ==> !actions[0].Promote?;
      assert forall i :: 0 <= i < |actions[1..]| ==> actions[1..][i] == actions[i + 1];
      FencedStaysSilent(next, actions[1..], a);
      WritesGrow(next, actions[1..]);
    }
  }

  lemma {:induction false} WritesGrow(c: Cluster, actions: seq<Action>)
    ensures c.writes <= Run(c, actions).writes
    decreases |actions|
  {
    if actions != [] { WritesGrow(Step(c, actions[0]), actions[1..]); }
  }

  /** Without that duty two Anchors write under one epoch: each compares a new epoch only with its own. */
  lemma ReusedEpochSplits()
    ensures var idle := Guard("", 1, false, false, false, []);
            var c := Cluster(map["a" := idle, "b" := idle], 1, []);
            var w := (t: string) => Deliver(t, Some(2), true, None);
            Starts(c) &&
            Run(c, [Promote("a", 2), Promote("b", 2), w("a"), w("b")]).writes == [Write("a", 2, 2), Write("b", 2, 2)]
  {
    var idle := Guard("", 1, false, false, false, []);
    var c := Cluster(map["a" := idle, "b" := idle], 1, []);
    var w := (t: string) => Deliver(t, Some(2), true, None);
    var c1 := Step(c, Promote("a", 2));
    var c2 := Step(c1, Promote("b", 2));
    var c3 := Step(c2, w("a"));
    var c4 := Step(c3, w("b"));
    assert c4.writes == [Write("a", 2, 2), Write("b", 2, 2)];
    calc {
      Run(c, [Promote("a", 2), Promote("b", 2), w("a"), w("b")]);
      Run(c1, [Promote("b", 2), w("a"), w("b")]);
      Run(c2, [w("a"), w("b")]);
      Run(c3, [w("b")]);
      Run(c4, []);
    }
  }

  /** Any frame of a newer owner, read or write, fences the old one at once. */
  lemma NewerFrameFences(c: Cluster, a: string, epoch: Option<int>, write: bool, sender: Option<string>)
    requires a in c.guards && Inbound(epoch) > c.guards[a].epoch
    ensures var next := Step(c, Deliver(a, epoch, write, sender));
            next.guards[a].fenced && !next.guards[a].active && next.guards[a].epoch == c.guards[a].epoch &&
              next.writes == c.writes
  {}

  /** A frame without an epoch counts as one of epoch 1. */
  lemma AbsentStampIsOne(g: Guard, write: bool, sender: Option<string>)
    ensures Check(g, None, write, sender) == Check(g, Some(1), write, sender)
  {}

  /** Being fenced and taking over are each told once, with the owner and epoch they are due to. */
  lemma EventsTell(g: Guard, stamp: int, write: bool, sender: Option<string>, epoch: int)
    ensures var next := Check(g, Some(stamp), write, sender).0;
            next.events == g.events + if stamp > g.epoch then [Failover(sender.GetOr(""), stamp)] else []
    ensures TakeOver(g, epoch).events == g.events + if epoch > g.epoch then [Failover(g.nid, epoch)] else []
    ensures TakeOver(g, epoch).epoch == Max(g.epoch, epoch)
  {}

  /** What a guard answers: fenced by anything newer, silent on writes while it does not lead or lacks its quorum. */
  lemma AnswersExactlyWhen(g: Guard, stamp: int, write: bool, sender: Option<string>)
    ensures var v := Check(g, Some(stamp), write, sender).1;
            && (v == EpochFenced <==> g.epoch < stamp)
            && (v == NotLeader <==> stamp <= g.epoch && write && !(g.active && !g.degraded))
            && (v == Admitted <==> stamp <= g.epoch && (write ==> g.active && !g.degraded))
  {}

  // ---------------------------------------------------------------- highest-epoch resolution

  datatype Member = Member(nid: string, cluster: string, epoch: Option<int>)

  datatype Resolution = NoName | NoMember | Owner(member: Member) | SplitBrain(epoch: int)

  function Matching(members: seq<Member>, cluster: string): seq<Member> {
    if members == [] then []
    else (if members[0].cluster == cluster then [members[0]] else []) + Matching(members[1..], cluster)
  }

  function Top(members: seq<Member>): int
    requires members != []
  {
    if |members| == 1 then Inbound(members[0].epoch) else Max(Inbound(members[0].epoch), Top(members[1..]))
  }

  function AtEpoch(members: seq<Member>, epoch: int): seq<Member> {
    if members == [] then []
    else (if Inbound(members[0].epoch) == epoch then [members[0]] else []) + AtEpoch(members[1..], epoch)
  }

  /** `resolve_cluster_from`. */
  function Resolve(members: seq<Member>, cluster: string): Resolution {
    var matching := Matching(members, cluster);
    if cluster == "" then NoName
    else if matching == [] then NoMember
    else
      var leaders := AtEpoch(matching, Top(matching));
      if |leaders| == 1 then Owner(leaders[0]) else SplitBrain(Top(matching))
  }

  lemma {:induction false} MatchingCounts(members: seq<Member>, cluster: string, m: Member)
    ensures multiset(Matching(members, cluster))[m] == if m.cluster == cluster then multiset(members)[m] else 0
  {
    if members != [] {
      MatchingCounts(members[1..], cluster, m);
      assert members == [members[0]] + members[1..];
    }
  }

  lemma {:induction false} AtEpochCounts(members: seq<Member>, epoch: int, m: Member)
    ensures multiset(AtEpoch(members, epoch))[m] == if Inbound(m.epoch) == epoch then multiset(members)[m] else 0
  {
    if members != [] {
      AtEpochCounts(members[1..], epoch, m);
      assert members == [members[0]] + members[1..];
    }
  }

  lemma {:induction false} TopIsMax(members: seq<Member>)
    requires members != []
    ensures forall m :: m in members ==> Inbound(m.epoch) <= Top(members)
    ensures exists m :: m in members && Inbound(m.epoch) == Top(members)
  {
    if |members| > 1 {
      TopIsMax(members[1..]);
      assert members == [members[0]] + members[1..];
      assert members[0] in members;
      var m :| m in members[1..] && Inbound(m.epoch) == Top(members[1..]);
      assert m in members;
    } else {
      assert members[0] in members;
    }
  }

  lemma SameTop(a: seq<Member>, b: seq<Member>)
    requires a != [] && multiset(a) == multiset(b)
    ensures b != [] && Top(a) == Top(b)
  {
    assert |multiset(a)| == |multiset(b)|;
    TopIsMax(a);
    TopIsMax(b);
    assert forall m :: m in a <==> m in multiset(a);
    assert forall m :: m in b <==> m in multiset(b);
  }

  /** The order in which members are listed does not matter. */
  lemma ResolutionIgnoresOrder(a: seq<Member>, b: seq<Member>, cluster: string)
    requires multiset(a) == multiset(b)
    ensures Resolve(a, cluster) == Resolve(b, cluster)
  {
    var x, y := Matching(a, cluster), Matching(b, cluster);
    forall m ensures multiset(x)[m] == multiset(y)[m] {
      MatchingCounts(a, cluster, m);
      MatchingCounts(b, cluster, m);
    }
    assert multiset(x) == multiset(y);
    assert |multiset(x)| == |x| && |multiset(y)| == |y|;
    if x != [] {
      SameTop(x, y);
      var p, q := AtEpoch(x, Top(x)), AtEpoch(y, Top(y));
      forall m ensures multiset(p)[m] == multiset(q)[m] {
        AtEpochCounts(x, Top(x), m);
        AtEpochCounts(y, Top(y), m);
      }
      assert multiset(p) == multiset(q);
      assert |multiset(p)| == |p| && |multiset(q)| == |q|;
      if |p| == 1 {
        assert p == [p[0]] && q == [q[0]];
        assert p[0] in multiset(p) && p[0] in multiset(q);
      }
    }
  }

  /** No other member of `members` reaches `m`'s epoch. */
  ghost predicate Above(members: seq<Member>, m: Member) {
    forall o :: o in members && o != m ==> Inbound(o.epoch) < Inbound(m.epoch)
  }

  lemma LeadersAreTheMaximum(x: seq<Member>, m: Member)
    requires x != []
    ensures AtEpoch(x, Top(x)) == [m] <==> multiset(x)[m] == 1 && Above(x, m)
  {
    TopIsMax(x);
    if AtEpoch(x, Top(x)) == [m] { SoleLeaderIsAbove(x, m); }
    if multiset(x)[m] == 1 && Above(x, m) { AboveIsSoleLeader(x, m); }
  }

  lemma SoleLeaderIsAbove(x: seq<Member>, m: Member)
    requires x != [] && AtEpoch(x, Top(x)) == [m]
    ensures multiset(x)[m] == 1 && Above(x, m)
  {
    TopIsMax(x);
    AtEpochCounts(x, Top(x), m);
    assert multiset([m])[m] == 1;
    forall o | o in x && o != m ensures Inbound(o.epoch) < Inbound(m.epoch) {
      AtEpochCounts(x, Top(x), o);
      assert o in multiset(x);
      assert multiset([m])[o] == 0;
    }
  }

  lemma AboveIsSoleLeader(x: seq<Member>, m: Member)
    requires x != [] && multiset(x)[m] == 1 && Above(x, m)
    ensures AtEpoch(x, Top(x)) == [m]
  {
    AboveIsTop(x, m);
    var p := AtEpoch(x, Top(x));
    forall o: Member ensures multiset(p)[o] == multiset{m}[o] {
      AtEpochCounts(x, Top(x), o);
      assert o in x <==> o in multiset(x);
    }
    assert multiset(p) == multiset{m};
    OneElement(p, m);
  }

  lemma AboveIsTop(x: seq<Member>, m: Member)
    requires x != [] && multiset(x)[m] == 1 && Above(x, m)
    ensures Inbound(m.epoch) == Top(x)
  {
    TopIsMax(x);
    assert m in multiset(x);
    assert m in x;
  }

  lemma OneElement<T>(p: seq<T>, m: T)
    requires multiset(p) == multiset{m}
    ensures p == [m]
  {
    assert |multiset(p)| == |p| == 1;
    assert p[0] in multiset(p);
  }

  /** The owner is the single member of the cluster at its highest epoch; anything tied there is a split. */
  lemma OwnerIsUniqueMaximum(members: seq<Member>, cluster: string, m: Member)
    ensures Resolve(members, cluster) == Owner(m) <==>
              && cluster != "" && multiset(members)[m] == 1 && m.cluster == cluster
              && forall o :: o in members && o.cluster == cluster && o != m ==> Inbound(o.epoch) < Inbound(m.epoch)
  {
    var x := Matching(members, cluster);
    forall o: Member ensures o in x <==> o in members && o.cluster == cluster {
      MatchingCounts(members, cluster, o);
      assert o in x <==> o in multiset(x);
      assert o in members <==> o in multiset(members);
    }
    MatchingCounts(members, cluster, m);
    if x == [] {
      assert multiset(x)[m] == 0;
    } else {
      LeadersAreTheMaximum(x, m);
      var p := AtEpoch(x, Top(x));
      assert p == [m] <==> |p| == 1 && p[0] == m;
      assert Above(x, m) <==> forall o :: o in members && o.cluster == cluster && o != m ==>
             Inbound(o.epoch) < Inbound(m.epoch);
    }
  }

  /** Otherwise: no name, no member, or a split at the highest epoch there is. */
  lemma UnresolvedExactlyWhen(members: seq<Member>, cluster: string)
    ensures Resolve(members, cluster) == NoName <==> cluster == ""
    ensures Resolve(members, cluster) == NoMember <==>
              cluster != "" && forall m :: m in members ==> m.cluster != cluster
    ensures Resolve(members, cluster).SplitBrain? ==>
              var top := Resolve(members, cluster).epoch;
              && (exists m :: m in members && m.cluster == cluster && Inbound(m.epoch) == top)
              && (forall m :: m in members && m.cluster == cluster ==> Inbound(m.epoch) <= top)
  {
    var x := Matching(members, cluster);
    forall o: Member ensures o in x <==> o in members && o.cluster == cluster {
      MatchingCounts(members, cluster, o);
      assert o in x <==> o in multiset(x);
      assert o in members <==> o in multiset(members);
    }
    if x == [] {
      assert forall m :: m in members && m.cluster == cluster ==> m in x;
    } else {
      assert x[0] in x;
      TopIsMax(x);
    }
  }
}
