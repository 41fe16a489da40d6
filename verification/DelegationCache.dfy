/**
 The cache of cluster owners kept for delegations. A lookup is read, fetched and stored in three separate steps, so
 other calls can fall between them; the model lets any number of lookups be under way at once.
 */
module DelegationCache {
  import opened Common

  datatype Info = Info(nid: string, epoch: int)

  /** `ClusterDelegationResolver`, each call taken as one step; `found` is what the injected lookup would answer. */
  class ClusterDelegationResolver {
    var active: map<string, Info>

    constructor ()
      ensures active == map[]
    {
      active := map[];
    }

    /** None for the missing cluster name that the source rejects. */
    method ResolveActive(cluster: string, found: Option<Info>) returns (r: Option<Option<Info>>)
      modifies this
      ensures r.None? <==> cluster == ""
      ensures r.Some? ==> r.value == if cluster in old(active) then Some(old(active)[cluster]) else found
      ensures active ==
              if cluster == "" || cluster in old(active) || found.None? then old(active)
              else old(active)[cluster := found.value]
      ensures r.Some? ==>
              active == Apply(Apply(Cache(old(active), map[]), Miss(0, cluster, found)), Store(0)).active
    {
      if cluster == "" { return None; }
      if cluster in active { return Some(Some(active[cluster])); }
      if found.Some? { active := active[cluster := found.value]; }
      r := Some(found);
    }

    method OnAnchorFailover(cluster: string, nid: string, epoch: int) returns (r: Option<bool>)
      modifies this
      ensures r.None? <==> cluster == "" || nid == ""
      ensures r.Some? ==> r.value == (cluster in old(active) ==> epoch > old(active)[cluster].epoch)
      ensures active == if r == Some(true) then old(active)[cluster := Info(nid, epoch)] else old(active)
      ensures r.Some? ==> active == Apply(Cache(old(active), map[]), Failover(cluster, nid, epoch)).active
    {
      if cluster == "" || nid == "" { return None; }
      if cluster in active && epoch <= active[cluster].epoch { return Some(false); }
      active := active[cluster := Info(nid, epoch)];
      r := Some(true);
    }

    method Invalidate(cluster: string)
      modifies this
      ensures active == old(active) - {cluster}
      ensures active == Apply(Cache(old(active), map[]), Step.Invalidate(cluster)).active
    {
      active := active - {cluster};
    }
  }

  // ---------------------------------------------------------------- interleaved calls

  /** `fetched` holds, per caller, an answer that has been looked up and not yet stored. */
  datatype Cache = Cache(active: map<string, Info>, fetched: map<nat, (string, Info)>)

  datatype Step =
    | Miss(caller: nat, cluster: string, found: Option<Info>)
    | Store(caller: nat)
    | Failover(cluster: string, nid: string, epoch: int)
    | Invalidate(cluster: string)

  function Apply(c: Cache, s: Step): Cache {
    match s
    case Miss(caller, cluster, found) =>
      if cluster in c.active || found.None? then c else c.(fetched := c.fetched[caller := (cluster, found.value)])
    case Store(caller) =>
      if caller !in c.fetched then c
      else Cache(c.active[c.fetched[caller].0 := c.fetched[caller].1], c.fetched - {caller})
    case Failover(cluster, nid, epoch) =>
      if cluster in c.active && epoch <= c.active[cluster].epoch then c
      else c.(active := c.active[cluster := Info(nid, epoch)])
    case Invalidate(cluster) => c.(active := c.active - {cluster})
  }

  /** The cache before step `n` of a run. */
  function At(c: Cache, steps: seq<Step>, n: nat): Cache
    requires n <= |steps|
  {
    if n == 0 then c else Apply(At(c, steps, n - 1), steps[n - 1])
  }

  ghost predicate Regresses(c: Cache, next: Cache) {
    exists k :: k in c.active && k in next.active && next.active[k].epoch < c.active[k].epoch
  }

  // ---------------------------------------------------------------- which schedules lose an epoch

  /** Step `i` is a lookup of cluster `k` that missed the cache and was answered with `info`. */
  predicate Fetches(c: Cache, steps: seq<Step>, i: nat, caller: nat, k: string, info: Info)
    requires i < |steps|
  {
    steps[i] == Miss(caller, k, Some(info)) && k !in At(c, steps, i).active
  }

  predicate BelongsTo(s: Step, caller: nat) { (s.Miss? || s.Store?) && s.caller == caller }

  /** Step `j` stores what `caller` fetched at step `i`; a caller does one lookup at a time. */
  predicate Stores(c: Cache, steps: seq<Step>, i: nat, j: nat, caller: nat, k: string, info: Info)
    requires i < j < |steps|
  {
    && Fetches(c, steps, i, caller, k, info) && steps[j] == Store(caller)
    && forall m :: i < m < j ==> !BelongsTo(steps[m], caller)
  }

  /** Step `m` is a store, and what it writes. */
  function Written(c: Cache, steps: seq<Step>, m: nat): Option<(string, Info)>
    requires m < |steps|
  {
    if steps[m].Store? && steps[m].caller in At(c, steps, m).fetched then Some(At(c, steps, m).fetched[steps[m].caller])
    else None
  }

  /** Step `m` brings the epoch of `k` above `epoch`, whatever it was. */
  predicate Overtakes(c: Cache, steps: seq<Step>, m: nat, k: string, epoch: int)
    requires m < |steps|
  {
    || (steps[m].Failover? && steps[m].cluster == k && steps[m].epoch > epoch)
    || (Written(c, steps, m).Some? && Written(c, steps, m).value.0 == k && Written(c, steps, m).value.1.epoch > epoch)
  }

  /** Step `m` drops the entry of `k`, or writes one that is not above `epoch`. */
  predicate Undoes(c: Cache, steps: seq<Step>, m: nat, k: string, epoch: int)
    requires m < |steps|
  {
    || steps[m] == Invalidate(k)
    || (Written(c, steps, m).Some? && Written(c, steps, m).value.0 == k && Written(c, steps, m).value.1.epoch <= epoch)
  }

  /** Strictly between `i` and `n` some step overtook the answer, and no later one undid that. */
  ghost predicate Overtaken(c: Cache, steps: seq<Step>, i: nat, n: nat, k: string, epoch: int)
    requires n <= |steps|
  {
    exists m :: i < m < n && Overtakes(c, steps, m, k, epoch) && Lasts(c, steps, m, n, k, epoch)
  }

  /** No step after `m` and before `n` undoes it. */
  ghost predicate Lasts(c: Cache, steps: seq<Step>, m: nat, n: nat, k: string, epoch: int)
    requires n <= |steps|
  {
    forall q :: m < q < n ==> !Undoes(c, steps, q, k, epoch)
  }

  predicate HoldsAbove(c: Cache, k: string, epoch: int) { k in c.active && c.active[k].epoch > epoch }

  /** One step changes whether the cache is above an epoch exactly as `Overtakes` and `Undoes` say. */
  lemma StepAgainstEpoch(c: Cache, steps: seq<Step>, m: nat, k: string, epoch: int)
    requires m < |steps|
    ensures HoldsAbove(At(c, steps, m + 1), k, epoch) <==>
              Overtakes(c, steps, m, k, epoch) ||
              (HoldsAbove(At(c, steps, m), k, epoch) && !Undoes(c, steps, m, k, epoch))
  {}

  lemma {:induction false} AboveExactlyWhenOvertaken(c: Cache, steps: seq<Step>, i: nat, n: nat, k: string, epoch: int)
    requires i < n <= |steps| && !HoldsAbove(At(c, steps, i + 1), k, epoch)
    ensures HoldsAbove(At(c, steps, n), k, epoch) <==> Overtaken(c, steps, i, n, k, epoch)
    decreases n
  {
    if n > i + 1 {
      var m := n - 1;
      AboveExactlyWhenOvertaken(c, steps, i, m, k, epoch);
      StepAgainstEpoch(c, steps, m, k, epoch);
      OvertakenStep(c, steps, i, m, k, epoch);
    }
  }

  lemma OvertakenStep(c: Cache, steps: seq<Step>, i: nat, m: nat, k: string, epoch: int)
    requires i < m < |steps|
    ensures Overtaken(c, steps, i, m + 1, k, epoch) <==>
              Overtakes(c, steps, m, k, epoch) ||
              (Overtaken(c, steps, i, m, k, epoch) && !Undoes(c, steps, m, k, epoch))
  {
    if Overtakes(c, steps, m, k, epoch) {
      assert Lasts(c, steps, m, m + 1, k, epoch);
    }
    if Overtaken(c, steps, i, m, k, epoch) && !Undoes(c, steps, m, k, epoch) {
      var p :| i < p < m && Overtakes(c, steps, p, k, epoch) && Lasts(c, steps, p, m, k, epoch);
      assert Lasts(c, steps, p, m + 1, k, epoch);
    }
    if Overtaken(c, steps, i, m + 1, k, epoch) && !Overtakes(c, steps, m, k, epoch) {
      var p :| i < p < m + 1 && Overtakes(c, steps, p, k, epoch) && Lasts(c, steps, p, m + 1, k, epoch);
      assert p < m && Lasts(c, steps, p, m, k, epoch) && !Undoes(c, steps, m, k, epoch);
    }
  }

  /** Until its caller stores it, a fetched answer is kept as it was. */
  lemma {:induction false} AnswerIsKept(c: Cache, steps: seq<Step>, i: nat, n: nat, caller: nat, k: string, info: Info)
    requires i < n <= |steps| && Fetches(c, steps, i, caller, k, info)
    requires forall m :: i < m < n ==> !BelongsTo(steps[m], caller)
    ensures caller in At(c, steps, n).fetched && At(c, steps, n).fetched[caller] == (k, info)
    decreases n
  {
    if n > i + 1 { AnswerIsKept(c, steps, i, n - 1, caller, k, info); }
  }

  /**
   A store makes a cached epoch go back exactly when, strictly between the lookup and the store, some step wrote that
   cluster with a greater epoch than the answer, and no later step invalidated it or overwrote it with one that is not.
   */
  lemma StoreRegressesExactlyWhenOvertaken(c: Cache, steps: seq<Step>, i: nat, j: nat, caller: nat, k: string,
                                           info: Info)
    requires i < j < |steps| && Stores(c, steps, i, j, caller, k, info)
    ensures Regresses(At(c, steps, j), At(c, steps, j + 1)) <==> Overtaken(c, steps, i, j, k, info.epoch)
  {
    AnswerIsKept(c, steps, i, j, caller, k, info);
    AboveExactlyWhenOvertaken(c, steps, i, j, k, info.epoch);
    var now, next := At(c, steps, j), At(c, steps, j + 1);
    assert next.active == now.active[k := info];
    if HoldsAbove(now, k, info.epoch) { assert k in now.active && k in next.active; }
  }

  /** Nothing is pending at first, and a caller does not start a lookup while it has an answer to store. */
  ghost predicate Sequential(c: Cache, steps: seq<Step>) {
    && c.fetched == map[]
    && forall n :: 0 <= n < |steps| ==> StartsFree(c, steps, n)
  }

  predicate StartsFree(c: Cache, steps: seq<Step>, n: nat)
    requires n < |steps|
  {
    steps[n].Miss? ==> steps[n].caller !in At(c, steps, n).fetched
  }

  /** An answer becomes pending by a lookup of its caller, and stays as it is while others act. */
  lemma PendingStep(c: Cache, s: Step, caller: nat)
    requires caller in Apply(c, s).fetched && (s.Miss? ==> s.caller !in c.fetched)
    ensures BelongsTo(s, caller) ==>
              s.Miss? && s.found.Some? && s.cluster !in c.active &&
                Apply(c, s).fetched[caller] == (s.cluster, s.found.value)
    ensures !BelongsTo(s, caller) ==> caller in c.fetched && Apply(c, s).fetched[caller] == c.fetched[caller]
  {}

  /** Where a pending answer comes from. */
  lemma {:induction false} PendingWasFetched(c: Cache, steps: seq<Step>, n: nat, caller: nat) returns (i: nat)
    requires n <= |steps| && Sequential(c, steps) && caller in At(c, steps, n).fetched
    ensures var (k, info) := At(c, steps, n).fetched[caller];
            i < n && Fetches(c, steps, i, caller, k, info) && forall m :: i < m < n ==> !BelongsTo(steps[m], caller)
    decreases n
  {
    assert StartsFree(c, steps, n - 1);
    PendingStep(At(c, steps, n - 1), steps[n - 1], caller);
    if BelongsTo(steps[n - 1], caller) {
      i := n - 1;
    } else {
      i := PendingWasFetched(c, steps, n - 1, caller);
    }
  }

  /** No store comes after a step that overtook its answer. */
  ghost predicate InTime(c: Cache, steps: seq<Step>) {
    forall i, j, caller, k, info :: 0 <= i < j < |steps| && Stores(c, steps, i, j, caller, k, info) ==>
      !Overtaken(c, steps, i, j, k, info.epoch)
  }

  ghost predicate NeverRegresses(c: Cache, steps: seq<Step>) {
    forall n :: 0 <= n < |steps| ==> !Regresses(At(c, steps, n), At(c, steps, n + 1))
  }

  /** Only the store of a pending answer can lower an epoch. */
  lemma OnlyStoresRegress(c: Cache, s: Step)
    requires Regresses(c, Apply(c, s))
    ensures s.Store? && s.caller in c.fetched
  {}

  /** The cache is monotonic over a whole run exactly when no store comes after a step that overtook its answer. */
  lemma MonotonicExactlyWhenInTime(c: Cache, steps: seq<Step>)
    requires Sequential(c, steps)
    ensures NeverRegresses(c, steps) <==> InTime(c, steps)
  {
    if NeverRegresses(c, steps) {
      forall i, j, caller, k, info | 0 <= i < j < |steps| && Stores(c, steps, i, j, caller, k, info)
        ensures !Overtaken(c, steps, i, j, k, info.epoch)
      {
        StoreRegressesExactlyWhenOvertaken(c, steps, i, j, caller, k, info);
      }
    }
    if InTime(c, steps) {
      forall j | 0 <= j < |steps| ensures !Regresses(At(c, steps, j), At(c, steps, j + 1)) {
        StepInTime(c, steps, j);
      }
    }
  }

  lemma StepInTime(c: Cache, steps: seq<Step>, j: nat)
    requires Sequential(c, steps) && InTime(c, steps) && j < |steps|
    ensures !Regresses(At(c, steps, j), At(c, steps, j + 1))
  {
    var now := At(c, steps, j);
    if Regresses(now, At(c, steps, j + 1)) {
      OnlyStoresRegress(now, steps[j]);
      var caller := steps[j].caller;
      var i := PendingWasFetched(c, steps, j, caller);
      var (k, info) := now.fetched[caller];
      assert Stores(c, steps, i, j, caller, k, info);
      StoreRegressesExactlyWhenOvertaken(c, steps, i, j, caller, k, info);
    }
  }

  /** Then a cluster that is not invalidated keeps its entry, and its epoch never drops. */
  lemma {:induction false} EpochsNeverDrop(c: Cache, steps: seq<Step>, k: string, n: nat)
    requires Sequential(c, steps) && InTime(c, steps) && n <= |steps| && k in c.active
    requires forall i :: 0 <= i < n ==> steps[i] != Invalidate(k)
    ensures k in At(c, steps, n).active && At(c, steps, n).active[k].epoch >= c.active[k].epoch
    decreases n
  {
    if n > 0 {
      EpochsNeverDrop(c, steps, k, n - 1);
      StepInTime(c, steps, n - 1);
      StepKeepsEntry(At(c, steps, n - 1), steps[n - 1], k);
    }
  }

  lemma StepKeepsEntry(c: Cache, s: Step, k: string)
    requires k in c.active && s != Invalidate(k) && !Regresses(c, Apply(c, s))
    ensures k in Apply(c, s).active && Apply(c, s).active[k].epoch >= c.active[k].epoch
  {}

  /** Calls that run undivided: every miss is followed at once by its own store. */
  predicate Atomic(steps: seq<Step>) {
    forall i :: 0 <= i < |steps| && steps[i].Miss? ==> i + 1 < |steps| && steps[i + 1] == Store(steps[i].caller)
  }

  /** Undivided calls are always in time, so the cache is then monotonic. */
  lemma AtomicIsInTime(c: Cache, steps: seq<Step>)
    requires Atomic(steps)
    ensures InTime(c, steps)
  {
    forall i, j, caller, k, info | 0 <= i < j < |steps| && Stores(c, steps, i, j, caller, k, info)
      ensures !Overtaken(c, steps, i, j, k, info.epoch)
    {
      assert BelongsTo(steps[i + 1], caller);
      assert j == i + 1;
    }
  }

  /** A failover that falls between a lookup and its store is forgotten. */
  lemma FailoverCanBeForgotten(c: Cache, steps: seq<Step>)
    requires c == Cache(map[], map[]) &&
             steps == [Miss(0, "c", Some(Info("old", 1))), Failover("c", "new", 2), Store(0)]
    ensures At(c, steps, 2).active == map["c" := Info("new", 2)] && At(c, steps, 3).active == map["c" := Info("old", 1)]
  {
    assert At(c, steps, 1) == Cache(map[], map[0 := ("c", Info("old", 1))]);
    assert At(c, steps, 2) == Cache(map["c" := Info("new", 2)], map[0 := ("c", Info("old", 1))]);
  }
}
