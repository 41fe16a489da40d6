/** The task lease table of the NOP runtime profile: claims, renewals and terminal marks. */
module LeaseTable {
  import opened Common

  datatype Op =
    | Claim(task: string, runner: string, seconds: int)
    | Renew(task: string, runner: string, seconds: int)
    | MarkTerminal(dedupKey: string, nodeId: string)
    | IsTerminal(dedupKey: string, nodeId: string)

  datatype Event = Event(at: int, op: Op)

  datatype Outcome = Granted | Reclaimed | Conflict | Recorded | Terminal | Pending

  datatype Lease = Lease(runner: string, expiresAt: int)

  datatype Table = Table(leases: map<string, Lease>, terminal: set<string>)

  function LeaseSeconds(requested: int): int { Min(600, Max(10, requested)) }

  function TerminalKey(op: Op): string
    requires op.MarkTerminal? || op.IsTerminal?
  {
    op.dedupKey + "\0" + op.nodeId
  }

  function Decide(t: Table, e: Event): Outcome {
    match e.op
    case Claim(task, runner, _) =>
      if task !in t.leases then Granted
      else if t.leases[task].expiresAt <= e.at then Reclaimed
      else if t.leases[task].runner == runner then Granted
      else Conflict
    case Renew(task, runner, _) =>
      if task in t.leases && t.leases[task].expiresAt > e.at && t.leases[task].runner == runner then Granted
      else Conflict
    case MarkTerminal(_, _) => Recorded
    case IsTerminal(_, _) => if TerminalKey(e.op) in t.terminal then Terminal else Pending
  }

  predicate Grants(o: Outcome) { o == Granted || o == Reclaimed }

  function Expiry(e: Event): int
    requires e.op.Claim? || e.op.Renew?
  {
    e.at + LeaseSeconds(e.op.seconds)
  }

  function Apply(t: Table, e: Event): Table {
    if Grants(Decide(t, e)) then t.(leases := t.leases[e.op.task := Lease(e.op.runner, Expiry(e))])
    else if e.op.MarkTerminal? then t.(terminal := t.terminal + {TerminalKey(e.op)})
    else t
  }

  /** The table after the first `k` events. */
  function TableAfter(events: seq<Event>, k: nat): Table
    requires k <= |events|
  {
    if k == 0 then Table(map[], {}) else Apply(TableAfter(events, k - 1), events[k - 1])
  }

  function OutcomeAt(events: seq<Event>, k: nat): Outcome
    requires k < |events|
  {
    Decide(TableAfter(events, k), events[k])
  }

  /** `_evaluate_lease`. */
  method Evaluate(events: seq<Event>) returns (outcomes: seq<Outcome>)
    ensures |outcomes| == |events|
    ensures forall k :: 0 <= k < |events| ==> outcomes[k] == OutcomeAt(events, k)
  {
    var leases: map<string, Lease>, terminal: set<string> := map[], {};
    outcomes := [];
    for k := 0 to |events|
      invariant Table(leases, terminal) == TableAfter(events, k)
      invariant |outcomes| == k && forall i :: 0 <= i < k ==> outcomes[i] == OutcomeAt(events, i)
    {
      var e := events[k];
      match e.op
      case Claim(task, runner, seconds) =>
        if task in leases && leases[task].expiresAt > e.at {
          if leases[task].runner == runner {
            leases := leases[task := Lease(runner, e.at + Min(600, Max(10, seconds)))];
            outcomes := outcomes + [Granted];
          } else {
            outcomes := outcomes + [Conflict];
          }
        } else {
          outcomes := outcomes + [if task in leases then Reclaimed else Granted];
          leases := leases[task := Lease(runner, e.at + Min(600, Max(10, seconds)))];
        }
      case Renew(task, runner, seconds) =>
        if task in leases && leases[task].expiresAt > e.at && leases[task].runner == runner {
          leases := leases[task := Lease(runner, e.at + Min(600, Max(10, seconds)))];
          outcomes := outcomes + [Granted];
        } else {
          outcomes := outcomes + [Conflict];
        }
      case MarkTerminal(_, _) =>
        terminal := terminal + {TerminalKey(e.op)};
        outcomes := outcomes + [Recorded];
      case IsTerminal(_, _) =>
        outcomes := outcomes + [if TerminalKey(e.op) in terminal then Terminal else Pending];
    }
  }

  // ---------------------------------------------------------------- exclusion over the whole history

  /** Event `i` granted `task` to `runner`. */
  predicate GrantedTo(events: seq<Event>, i: nat, task: string, runner: string)
    requires i < |events|
  {
    Grants(OutcomeAt(events, i)) && events[i].op.task == task && events[i].op.runner == runner
  }

  /** When the latest lease `runner` was granted on `task` in the first `k` events runs out. */
  function LatestExpiry(events: seq<Event>, k: nat, task: string, runner: string): Option<int>
    requires k <= |events|
  {
    if k == 0 then None
    else if GrantedTo(events, k - 1, task, runner) then Some(Expiry(events[k - 1]))
    else LatestExpiry(events, k - 1, task, runner)
  }

  predicate TimesNeverDecrease(events: seq<Event>) {
    forall i, j :: 0 <= i <= j < |events| ==> events[i].at <= events[j].at
  }

  /** The table holds the latest lease of its holder; everybody else's has run out by `now`. */
  ghost predicate Tracks(events: seq<Event>, k: nat, task: string, runner: string, now: int)
    requires k <= |events|
  {
    var t := TableAfter(events, k);
    var latest := LatestExpiry(events, k, task, runner);
    && (latest.Some? ==>
          && task in t.leases
          && (if t.leases[task].runner == runner then latest.value == t.leases[task].expiresAt
              else latest.value <= now))
    && (task in t.leases && t.leases[task].runner == runner ==> latest.Some?)
  }

  lemma {:induction false} TableTracksHistory(events: seq<Event>, k: nat, task: string, runner: string, now: int)
    requires k <= |events| && TimesNeverDecrease(events)
    requires forall i :: 0 <= i < k ==> events[i].at <= now
    ensures Tracks(events, k, task, runner, now)
  {
    if k > 0 { TableTracksHistory(events, k - 1, task, runner, events[k - 1].at); }
  }

  /** Somebody other than `runner` holds an unexpired lease on `task` before event `k`. */
  ghost predicate HeldByAnother(events: seq<Event>, k: nat, task: string, runner: string)
    requires k < |events|
  {
    exists other :: other != runner && HoldsLease(events, k, task, other)
  }

  /** The latest lease of `runner` on `task` is still running at event `k`. */
  ghost predicate HoldsLease(events: seq<Event>, k: nat, task: string, runner: string)
    requires k < |events|
  {
    LatestExpiry(events, k, task, runner).Some? && LatestExpiry(events, k, task, runner).value > events[k].at
  }

  /**
   Mutual exclusion: a claim is refused exactly when another runner's latest lease is still running, a renewal
   succeeds exactly when the runner's own is, so a grant never overlaps another runner's lease, and every
   grant lasts between 10 and 600 seconds.
   */
  lemma LeasesExclude(events: seq<Event>, k: nat)
    requires k < |events| && TimesNeverDecrease(events)
    requires events[k].op.Claim? || events[k].op.Renew?
    ensures var e := events[k];
            && (e.op.Claim? ==>
                  (OutcomeAt(events, k) == Conflict <==> HeldByAnother(events, k, e.op.task, e.op.runner)))
            && (e.op.Renew? ==> (Grants(OutcomeAt(events, k)) <==> HoldsLease(events, k, e.op.task, e.op.runner)))
            && (Grants(OutcomeAt(events, k)) ==> !HeldByAnother(events, k, e.op.task, e.op.runner))
            && (Grants(OutcomeAt(events, k)) ==>
                  LatestExpiry(events, k + 1, e.op.task, e.op.runner) == Some(Expiry(e)) &&
                  e.at + 10 <= Expiry(e) <= e.at + 600)
  {
    var e := events[k];
    var t := TableAfter(events, k);
    forall other | HoldsLease(events, k, e.op.task, other)
      ensures e.op.task in t.leases &&
              t.leases[e.op.task] == Lease(other, LatestExpiry(events, k, e.op.task, other).value)
    {
      TableTracksHistory(events, k, e.op.task, other, e.at);
    }
    if e.op.task in t.leases { TableTracksHistory(events, k, e.op.task, t.leases[e.op.task].runner, e.at); }
  }

  /** A lease lasts as long as was asked for, but at least 10 and at most 600 seconds. */
  lemma ExpiryMeans(e: Event)
    requires e.op.Claim? || e.op.Renew?
    ensures Expiry(e) == e.at + if e.op.seconds < 10 then 10 else if e.op.seconds > 600 then 600 else e.op.seconds
  {}

  /** A decision, on the lease in the table. */
  lemma DecisionMeans(t: Table, e: Event)
    requires e.op.Claim? || e.op.Renew?
    ensures var runs := e.op.task in t.leases && t.leases[e.op.task].expiresAt > e.at;
            var own := runs && t.leases[e.op.task].runner == e.op.runner;
            && (e.op.Claim? ==> (Decide(t, e) == Conflict <==> runs && !own))
            && (e.op.Claim? ==> (Decide(t, e) == Reclaimed <==> e.op.task in t.leases && !runs))
            && (e.op.Renew? ==> (Grants(Decide(t, e)) <==> own))
            && Decide(t, e) in {Granted, Reclaimed, Conflict}
  {}

  lemma HolderOf(events: seq<Event>, k: nat, task: string, runner: string)
    requires k < |events| && TimesNeverDecrease(events)
    ensures HoldsLease(events, k, task, runner) <==>
              var leases := TableAfter(events, k).leases;
              task in leases && leases[task].runner == runner && leases[task].expiresAt > events[k].at
  {
    TableTracksHistory(events, k, task, runner, events[k].at);
  }

  /** A terminal query answers terminal exactly when that key was marked before, so a mark is never lost. */
  lemma {:induction false} TerminalMeansMarked(events: seq<Event>, k: nat, key: string)
    requires k <= |events|
    ensures key in TableAfter(events, k).terminal <==>
              exists i :: 0 <= i < k && events[i].op.MarkTerminal? && TerminalKey(events[i].op) == key
  {
    if k > 0 { TerminalMeansMarked(events, k - 1, key); }
  }

  /** The first `k` events granted the task to somebody. */
  ghost predicate WasLeased(events: seq<Event>, k: nat, task: string)
    requires k <= |events|
  {
    exists i :: 0 <= i < k && Grants(OutcomeAt(events, i)) && events[i].op.task == task
  }

  lemma {:induction false} LeaseStays(events: seq<Event>, i: nat, k: nat)
    requires i < k <= |events| && Grants(OutcomeAt(events, i))
    ensures events[i].op.task in TableAfter(events, k).leases
    decreases k
  {
    if i < k - 1 { LeaseStays(events, i, k - 1); }
  }

  lemma {:induction false} LeaseWasGranted(events: seq<Event>, k: nat, task: string) returns (i: nat)
    requires k <= |events| && task in TableAfter(events, k).leases
    ensures i < k && Grants(OutcomeAt(events, i)) && events[i].op.task == task
    decreases k
  {
    if task in TableAfter(events, k - 1).leases { i := LeaseWasGranted(events, k - 1, task); } else { i := k - 1; }
  }

  /** A claim takes over exactly a task that was leased before and that nobody, the claimer included, still holds. */
  lemma ReclaimedExactlyWhen(events: seq<Event>, k: nat)
    requires k < |events| && TimesNeverDecrease(events) && events[k].op.Claim?
    ensures OutcomeAt(events, k) == Reclaimed <==>
              && WasLeased(events, k, events[k].op.task)
              && forall r :: !HoldsLease(events, k, events[k].op.task, r)
    ensures OutcomeAt(events, k) in {Granted, Reclaimed, Conflict}
  {
    var e, t := events[k], TableAfter(events, k);
    DecisionMeans(t, e);
    forall r ensures HoldsLease(events, k, e.op.task, r) ==> OutcomeAt(events, k) != Reclaimed {
      HolderOf(events, k, e.op.task, r);
    }
    if OutcomeAt(events, k) == Reclaimed {
      var i := LeaseWasGranted(events, k, e.op.task);
    } else if WasLeased(events, k, e.op.task) {
      var i :| 0 <= i < k && Grants(OutcomeAt(events, i)) && events[i].op.task == e.op.task;
      LeaseStays(events, i, k);
      HolderOf(events, k, e.op.task, t.leases[e.op.task].runner);
    }
  }

  /** A query answers terminal exactly when a mark with the same key and node came before it. */
  lemma QueryExactlyWhen(events: seq<Event>, k: nat)
    requires k < |events| && events[k].op.IsTerminal?
    ensures OutcomeAt(events, k) == (if exists i :: MarkedAt(events, i, k) then Terminal else Pending)
  {
    TerminalMeansMarked(events, k, TerminalKey(events[k].op));
    if i :| 0 <= i < k && events[i].op.MarkTerminal? && TerminalKey(events[i].op) == TerminalKey(events[k].op) {
      assert MarkedAt(events, i, k);
    }
  }

  /** Event `i` marked what event `k` asks about: the two keys, joined by a NUL, are the same text. */
  predicate MarkedAt(events: seq<Event>, i: int, k: nat)
    requires k < |events| && events[k].op.IsTerminal?
  {
    && 0 <= i < k && events[i].op.MarkTerminal?
    && events[i].op.dedupKey + "\0" + events[i].op.nodeId == events[k].op.dedupKey + "\0" + events[k].op.nodeId
  }
}
