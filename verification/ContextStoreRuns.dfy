/**
 What holds over every run of the LLM context store.

 A run is a sequence of commands with arbitrary clock readings and arbitrary context id draws. The
 one thing assumed of the environment is that a reservation id drawn for a new reservation is not
 the id of a reservation that is still running (the source draws random UUIDs).
 */
module ContextStoreRuns {
  import opened Common
  import opened ContextStore

  // ---------------------------------------------------------------- the linked-table invariant

  predicate ReservationLinked(s: State, id: string)
    requires id in s.reservations
  {
    var v := s.reservations[id];
    && v.id == id
    && v.request.op != Release
    && KeyOf(v.request) in s.idempotency
    && s.idempotency[KeyOf(v.request)].Busy?
    && s.idempotency[KeyOf(v.request)].reservationId == id
    && s.idempotency[KeyOf(v.request)].requestId == v.request.requestId
    && (!Allocates(v.request.op) ==>
          && v.request.contextId.Some?
          && v.request.contextId.value in s.contexts
          && Locks(s.contexts[v.request.contextId.value], v))
  }

  /** An append or reset reservation holds its entry: locked by it, live, owned, and at its base version. */
  predicate Locks(e: Entry, v: Reservation) {
    && e.reservationId == Some(v.id)
    && e.state == Active
    && e.owner == v.request.owner
    && Some(e.version) == v.request.baseVersion
  }

  predicate EntryLinked(s: State, id: string)
    requires id in s.contexts
  {
    var e := s.contexts[id];
    e.reservationId.Some? ==>
      && e.reservationId.value in s.reservations
      && !Allocates(s.reservations[e.reservationId.value].request.op)
      && s.reservations[e.reservationId.value].request.contextId == Some(id)
  }

  predicate OutcomeLinked(s: State, k: IdemKey)
    requires k in s.idempotency
  {
    s.idempotency[k].Busy? ==>
      && s.idempotency[k].reservationId in s.reservations
      && KeyOf(s.reservations[s.idempotency[k].reservationId].request) == k
  }

  ghost predicate Linked(s: State) {
    && (forall id :: id in s.reservations ==> ReservationLinked(s, id))
    && (forall id :: id in s.contexts ==> EntryLinked(s, id))
    && (forall k :: k in s.idempotency ==> OutcomeLinked(s, k))
  }

  ghost predicate WithinQuota(o: Options, s: State) {
    forall owner :: |Live(s, owner)| + |Pending(s, owner)| <= Max(0, o.maxContexts)
  }

  lemma SweepKeepsLinks(o: Options, s: State, now: int)
    requires Linked(s)
    ensures Linked(Sweep(o, s, now))
  {
    var t := Sweep(o, s, now);
    forall id | id in t.reservations ensures ReservationLinked(t, id) {
      assert ReservationLinked(s, id);
    }
    forall id | id in t.contexts ensures EntryLinked(t, id) {
      assert EntryLinked(s, id);
    }
    forall k | k in t.idempotency ensures OutcomeLinked(t, k) {
      assert OutcomeLinked(s, k);
    }
  }

  lemma BookKeepsLinks(o: Options, s: State, r: Request, t1: int, t2: int, newId: string)
    requires Linked(s) && Refusal(o, s, r).None? && newId !in s.reservations
    ensures Linked(Book(o, s, NewReservation(o, s, r, t1, newId), t2))
  {
    BookedReservations(o, s, r, t1, t2, newId);
    BookedEntries(o, s, r, t1, t2, newId);
    var t := Book(o, s, NewReservation(o, s, r, t1, newId), t2);
    forall k | k in t.idempotency ensures OutcomeLinked(t, k) {
      if k in s.idempotency { assert OutcomeLinked(s, k); }
    }
  }

  lemma BookedReservations(o: Options, s: State, r: Request, t1: int, t2: int, newId: string)
    requires Linked(s) && Refusal(o, s, r).None? && newId !in s.reservations
    ensures var t := Book(o, s, NewReservation(o, s, r, t1, newId), t2);
            forall id :: id in t.reservations ==> ReservationLinked(t, id)
  {
    var t := Book(o, s, NewReservation(o, s, r, t1, newId), t2);
    forall id | id in t.reservations ensures ReservationLinked(t, id) {
      if id != newId { assert ReservationLinked(s, id); }
    }
  }

  lemma BookedEntries(o: Options, s: State, r: Request, t1: int, t2: int, newId: string)
    requires Linked(s) && Refusal(o, s, r).None? && newId !in s.reservations
    ensures var t := Book(o, s, NewReservation(o, s, r, t1, newId), t2);
            forall id :: id in t.contexts ==> EntryLinked(t, id)
  {
    var t := Book(o, s, NewReservation(o, s, r, t1, newId), t2);
    forall id | id in t.contexts ensures EntryLinked(t, id) {
      assert EntryLinked(s, id);
    }
  }

  /** Two running reservations never share an idempotency key. */
  lemma KeysAreExclusive(s: State, a: string, b: string)
    requires Linked(s) && a in s.reservations && b in s.reservations
    requires KeyOf(s.reservations[a].request) == KeyOf(s.reservations[b].request)
    ensures a == b
  {
    assert ReservationLinked(s, a) && ReservationLinked(s, b);
  }

  lemma CommitKeepsLinks(o: Options, s: State, v: Reservation, assistant: Message, t0: int, t1: int, f: nat -> string)
    requires Linked(s)
    ensures Linked(Commit(o, s, v, assistant, t0, t1, f).0)
  {
    var (t, out) := Commit(o, s, v, assistant, t0, t1, f);
    if out.Ok? {
      assert ReservationLinked(s, v.id);
      if Allocates(v.request.op) { NextContextIdIsUnused(s, f, 0); }
      forall id | id in t.reservations ensures ReservationLinked(t, id) {
        assert ReservationLinked(s, id);
        if KeyOf(s.reservations[id].request) == KeyOf(v.request) { KeysAreExclusive(s, id, v.id); }
      }
      forall id | id in t.contexts ensures EntryLinked(t, id) {
        if id in s.contexts { assert EntryLinked(s, id); }
      }
      forall k | k in t.idempotency ensures OutcomeLinked(t, k) {
        if k in s.idempotency { assert OutcomeLinked(s, k); }
      }
    }
  }

  /** A drawn context id is well formed and names no retained context. */
  lemma {:induction false} NextContextIdIsUnused(s: State, f: nat -> string, i: nat)
    requires i <= 8
    ensures NextContextId(s, f, i).Ok? ==>
              NextContextId(s, f, i).value !in s.contexts && IsContextId(NextContextId(s, f, i).value)
    decreases 8 - i
  {
    if i < 8 { NextContextIdIsUnused(s, f, i + 1); }
  }

  lemma AbortKeepsLinks(o: Options, s: State, v: Reservation, code: Option<string>, t0: int, t1: int)
    requires Linked(s)
    ensures Linked(Abort(o, s, v, code, t0, t1).0)
  {
    if IsActive(s, v) {
      DroppedReservations(o, s, v, code, t0);
      DroppedRest(o, s, v, code, t0);
      SweepKeepsLinks(o, Dropped(o, s, v, code, t0), t1);
    }
  }

  lemma DroppedReservations(o: Options, s: State, v: Reservation, code: Option<string>, t0: int)
    requires Linked(s) && IsActive(s, v)
    ensures var t := Dropped(o, s, v, code, t0);
            forall id :: id in t.reservations ==> ReservationLinked(t, id)
  {
    var t := Dropped(o, s, v, code, t0);
    forall id | id in t.reservations ensures ReservationLinked(t, id) {
      assert ReservationLinked(s, id);
      if KeyOf(s.reservations[id].request) == KeyOf(v.request) { KeysAreExclusive(s, id, v.id); }
    }
  }

  lemma DroppedRest(o: Options, s: State, v: Reservation, code: Option<string>, t0: int)
    requires Linked(s) && IsActive(s, v)
    ensures var t := Dropped(o, s, v, code, t0);
            && (forall id :: id in t.contexts ==> EntryLinked(t, id))
            && (forall k :: k in t.idempotency ==> OutcomeLinked(t, k))
  {
    var t := Dropped(o, s, v, code, t0);
    assert ReservationLinked(s, v.id);
    forall id | id in t.contexts ensures EntryLinked(t, id) {
      assert EntryLinked(s, id);
    }
    forall k | k in t.idempotency ensures OutcomeLinked(t, k) {
      if k in s.idempotency { assert OutcomeLinked(s, k); }
    }
  }

  lemma ReleaseKeepsLinks(o: Options, s: State, owner: Owner, id: string, base: int, key: string, t1: int, t2: int)
    requires Linked(s)
    ensures Linked(ReleaseOn(o, s, owner, id, base, key, t1, t2).0)
  {
    var t := ReleaseOn(o, s, owner, id, base, key, t1, t2).0;
    forall r | r in t.reservations ensures ReservationLinked(t, r) {
      assert ReservationLinked(s, r);
    }
    forall c | c in t.contexts ensures EntryLinked(t, c) {
      assert EntryLinked(s, c);
    }
    forall k | k in t.idempotency ensures OutcomeLinked(t, k) {
      if k in s.idempotency { assert OutcomeLinked(s, k); }
    }
  }

  // ---------------------------------------------------------------- the quota

  lemma SweepKeepsQuota(o: Options, s: State, now: int)
    requires WithinQuota(o, s)
    ensures WithinQuota(o, Sweep(o, s, now))
  {
    var t := Sweep(o, s, now);
    forall owner ensures |Live(t, owner)| + |Pending(t, owner)| <= Max(0, o.maxContexts) {
      SubsetSize(Live(t, owner), Live(s, owner));
      assert Pending(t, owner) == Pending(s, owner);
    }
  }

  lemma BookKeepsQuota(o: Options, s: State, r: Request, t1: int, t2: int, newId: string)
    requires WithinQuota(o, s) && Refusal(o, s, r).None? && newId !in s.reservations
    ensures WithinQuota(o, Book(o, s, NewReservation(o, s, r, t1, newId), t2))
  {
    var v := NewReservation(o, s, r, t1, newId);
    var t := Book(o, s, v, t2);
    if Allocates(r.op) { RoomLeft(o, s, r); }
    forall owner ensures |Live(t, owner)| + |Pending(t, owner)| <= Max(0, o.maxContexts) {
      BookedCount(o, s, v, t2, owner);
    }
  }

  lemma RoomLeft(o: Options, s: State, r: Request)
    requires Refusal(o, s, r).None? && Allocates(r.op)
    ensures !QuotaFull(o, s, r.owner)
  {}

  lemma BookedCount(o: Options, s: State, v: Reservation, now: int, owner: Owner)
    requires v.id !in s.reservations
    requires !Allocates(v.request.op) ==> v.request.contextId.GetOr("") in s.contexts
    ensures var t := Book(o, s, v, now);
            |Live(t, owner)| + |Pending(t, owner)| ==
              |Live(s, owner)| + |Pending(s, owner)| +
              if v.request.owner == owner && Allocates(v.request.op) then 1 else 0
  {
    BookedSets(o, s, v, now, owner);
  }

  lemma BookedSets(o: Options, s: State, v: Reservation, now: int, owner: Owner)
    requires v.id !in s.reservations
    requires !Allocates(v.request.op) ==> v.request.contextId.GetOr("") in s.contexts
    ensures Live(Book(o, s, v, now), owner) == Live(s, owner)
    ensures Pending(Book(o, s, v, now), owner) ==
              Pending(s, owner) + if v.request.owner == owner && Allocates(v.request.op) then {v.id} else {}
    ensures v.id !in Pending(s, owner)
  {}

  lemma CommitKeepsQuota(o: Options, s: State, v: Reservation, assistant: Message, t0: int, t1: int, f: nat -> string)
    requires Linked(s) && WithinQuota(o, s)
    ensures WithinQuota(o, Commit(o, s, v, assistant, t0, t1, f).0)
  {
    var (t, out) := Commit(o, s, v, assistant, t0, t1, f);
    if out.Ok? {
      forall owner ensures |Live(t, owner)| + |Pending(t, owner)| <= Max(0, o.maxContexts) {
        CommittedSets(o, s, v, assistant, t0, t1, f, owner);
      }
    }
  }

  lemma LiveAfterPut(s: State, t: State, id: string, e: Entry, owner: Owner)
    requires t.contexts == s.contexts[id := e]
    ensures Live(t, owner) ==
              if e.owner == owner && e.state == Active then Live(s, owner) + {id} else Live(s, owner) - {id}
  {}

  lemma PendingAfterDrop(s: State, t: State, id: string, owner: Owner)
    requires t.reservations == s.reservations - {id}
    ensures Pending(t, owner) == Pending(s, owner) - {id}
  {}

  /** A create or fork commit turns one pending unit of its owner into one live one. */
  lemma CommittedSets(o: Options, s: State, v: Reservation, assistant: Message, t0: int, t1: int,
                      f: nat -> string, owner: Owner)
    requires Linked(s) && Commit(o, s, v, assistant, t0, t1, f).1.Ok?
    ensures var t := Commit(o, s, v, assistant, t0, t1, f).0;
            |Live(t, owner)| + |Pending(t, owner)| == |Live(s, owner)| + |Pending(s, owner)|
  {
    assert ReservationLinked(s, v.id);
    var (t, out) := Commit(o, s, v, assistant, t0, t1, f);
    var id := out.value.contextId;
    LiveAfterPut(s, t, id, t.contexts[id], owner);
    PendingAfterDrop(s, t, v.id, owner);
    assert v.id in Pending(s, owner) <==> Allocates(v.request.op) && owner == v.request.owner;
    if Allocates(v.request.op) {
      NextContextIdIsUnused(s, f, 0);
      assert id !in Live(s, owner);
    } else {
      assert id in Live(s, owner) <==> owner == v.request.owner;
    }
  }

  lemma AbortKeepsQuota(o: Options, s: State, v: Reservation, code: Option<string>, t0: int, t1: int)
    requires WithinQuota(o, s)
    ensures WithinQuota(o, Abort(o, s, v, code, t0, t1).0)
  {
    if IsActive(s, v) {
      var t := Dropped(o, s, v, code, t0);
      forall owner ensures |Live(t, owner)| + |Pending(t, owner)| <= Max(0, o.maxContexts) {
        DroppedSets(o, s, v, code, t0, owner);
      }
      SweepKeepsQuota(o, t, t1);
    }
  }

  lemma DroppedSets(o: Options, s: State, v: Reservation, code: Option<string>, t0: int, owner: Owner)
    ensures Live(Dropped(o, s, v, code, t0), owner) == Live(s, owner)
    ensures |Pending(Dropped(o, s, v, code, t0), owner)| <= |Pending(s, owner)|
  {
    SubsetSize(Pending(Dropped(o, s, v, code, t0), owner), Pending(s, owner));
  }

  lemma ReleaseKeepsQuota(o: Options, s: State, owner: Owner, id: string, base: int, key: string, t1: int, t2: int)
    requires WithinQuota(o, s)
    ensures WithinQuota(o, ReleaseOn(o, s, owner, id, base, key, t1, t2).0)
  {
    var t := ReleaseOn(o, s, owner, id, base, key, t1, t2).0;
    forall w ensures |Live(t, w)| + |Pending(t, w)| <= Max(0, o.maxContexts) {
      SubsetSize(Live(t, w), Live(s, w));
      assert Pending(t, w) == Pending(s, w);
    }
  }

  // ---------------------------------------------------------------- runs and their history

  datatype Command =
    | DoReserve(request: Request, t0: int, t1: int, t2: int, newId: string)
    | DoCommit(handle: Reservation, assistant: Message, t0: int, t1: int, factory: nat -> string)
    | DoAbort(handle: Reservation, code: Option<string>, t0: int, t1: int)
    | DoRelease(owner: Owner, contextId: string, base: int, key: string, t0: int, t1: int, t2: int)
    | DoSweep(t0: int)  // sweep_expired, status and snapshot change nothing else

  /** One committed mutation. `reservedAt` is how much history existed when it was reserved. */
  datatype Record = Record(
    contextId: string, op: Operation, key: IdemKey, owner: Owner, binding: Binding, turn: seq<Message>,
    parentId: Option<string>, reservedAt: nat)

  datatype Trace = Trace(state: State, log: seq<Record>, reservedAt: map<string, nat>)

  const START := Trace(EMPTY, [], map[])

  function CommitRecord(v: Reservation, id: string, assistant: Message, at: nat): Record {
    Record(id, v.request.op, KeyOf(v.request), v.request.owner, v.request.binding, Turn(v, assistant), v.parentId, at)
  }

  /** A release is logged only when it happens, not when a recorded receipt is handed out again. */
  ghost predicate ReleaseHappens(o: Options, s: State, c: Command)
    requires c.DoRelease?
  {
    && ReleaseContext(o, s, c.owner, c.contextId, c.base, c.key, c.t0, c.t1, c.t2).1.Ok?
    && ReleaseKey(c.owner, c.key) !in Sweep(o, s, c.t0).idempotency
  }

  ghost function Step(o: Options, tr: Trace, c: Command): Trace {
    match c
    case DoReserve(r, t0, t1, t2, newId) =>
      var (t, out) := Reserve(o, tr.state, r, t0, t1, t2, newId);
      Trace(t, tr.log, if out.Ok? then tr.reservedAt[newId := |tr.log|] else tr.reservedAt)
    case DoCommit(v, a, t0, t1, f) =>
      var (t, out) := Commit(o, tr.state, v, a, t0, t1, f);
      var at := if v.id in tr.reservedAt then tr.reservedAt[v.id] else 0;
      Trace(t, if out.Ok? then tr.log + [CommitRecord(v, out.value.contextId, a, at)] else tr.log, tr.reservedAt)
    case DoAbort(v, code, t0, t1) =>
      Trace(Abort(o, tr.state, v, code, t0, t1).0, tr.log, tr.reservedAt)
    case DoRelease(owner, id, base, key, t0, t1, t2) =>
      Trace(ReleaseContext(o, tr.state, owner, id, base, key, t0, t1, t2).0,
        if ReleaseHappens(o, tr.state, c)
        then tr.log + [Record(id, Release, ReleaseKey(owner, key), owner,
                              Sweep(o, tr.state, t0).contexts[id].binding, [], None, 0)]
        else tr.log,
        tr.reservedAt)
    case DoSweep(t0) => Trace(Sweep(o, tr.state, t0), tr.log, tr.reservedAt)
  }

  ghost function Run(o: Options, tr: Trace, cs: seq<Command>): Trace
    decreases |cs|
  {
    if cs == [] then tr else Run(o, Step(o, tr, cs[0]), cs[1..])
  }

  /** Drawn reservation ids do not clash with a running reservation. */
  ghost predicate FreshIds(o: Options, tr: Trace, cs: seq<Command>)
    decreases |cs|
  {
    cs != [] ==>
      && (cs[0].DoReserve? ==> cs[0].newId !in tr.state.reservations)
      && FreshIds(o, Step(o, tr, cs[0]), cs[1..])
  }

  // ---------------------------------------------------------------- replay

  datatype View = View(owner: Owner, version: int, released: bool, binding: Binding, transcript: seq<Message>)

  /** What the history alone says about a context; no store state is consulted. */
  function Replay(log: seq<Record>, id: string): Option<View>
    decreases |log|
  {
    if log == [] then None
    else
      var prior := log[..|log| - 1];
      var r := log[|log| - 1];
      if r.contextId != id then Replay(prior, id)
      else match r.op
        case Create => Some(View(r.owner, 1, false, r.binding, r.turn))
        case Fork =>
          (match Replay(log[..Min(r.reservedAt, |prior|)], r.parentId.GetOr(""))
           case Some(parent) => Some(View(r.owner, 1, false, r.binding, parent.transcript + r.turn))
           case None => None)
        case Append =>
          (match Replay(prior, id)
           case Some(w) => Some(w.(version := w.version + 1, transcript := w.transcript + r.turn))
           case None => None)
        case Reset =>
          (match Replay(prior, id)
           case Some(w) => Some(w.(version := w.version + 1, binding := r.binding, transcript := r.turn))
           case None => None)
        case Release =>
          (match Replay(prior, id)
           case Some(w) => Some(w.(version := w.version + 1, released := true))
           case None => None)
  }

  function ViewOf(e: Entry): View { View(e.owner, e.version, e.state == Released, e.binding, e.transcript) }

  /** A fork reservation holds the parent's transcript at exactly the version it names. */
  predicate ForkPinned(tr: Trace, id: string)
    requires id in tr.state.reservations
  {
    var v := tr.state.reservations[id];
    v.request.op == Fork ==>
      && id in tr.reservedAt && tr.reservedAt[id] <= |tr.log|
      && v.parentId.Some? && v.parentVersion.Some?
      && v.parentId == v.request.contextId && v.parentVersion == v.request.baseVersion
      && var w := Replay(tr.log[..tr.reservedAt[id]], v.parentId.value);
         && w.Some? && !w.value.released
         && w.value.owner == v.request.owner
         && w.value.version == v.parentVersion.value
         && w.value.transcript == v.baseTranscript
  }

  ghost predicate Faithful(tr: Trace) {
    && (forall id :: id in tr.state.contexts ==> Replay(tr.log, id) == Some(ViewOf(tr.state.contexts[id])))
    && (forall id :: id in tr.state.reservations ==> ForkPinned(tr, id))
  }

  ghost predicate Good(o: Options, tr: Trace) {
    Linked(tr.state) && WithinQuota(o, tr.state) && Faithful(tr)
  }

  lemma ReplayIgnoresOthers(log: seq<Record>, r: Record, id: string)
    requires r.contextId != id
    ensures Replay(log + [r], id) == Replay(log, id)
  {
    assert (log + [r])[..|log|] == log;
  }

  lemma SweepKeepsFaithful(o: Options, tr: Trace, now: int)
    requires Faithful(tr)
    ensures Faithful(tr.(state := Sweep(o, tr.state, now)))
  {
    var next := tr.(state := Sweep(o, tr.state, now));
    forall id | id in next.state.reservations ensures ForkPinned(next, id) {
      assert ForkPinned(tr, id);
    }
  }

  lemma BookKeepsFaithful(o: Options, tr: Trace, r: Request, t1: int, t2: int, newId: string)
    requires Faithful(tr) && Refusal(o, tr.state, r).None?
    ensures Faithful(Trace(Book(o, tr.state, NewReservation(o, tr.state, r, t1, newId), t2), tr.log,
                           tr.reservedAt[newId := |tr.log|]))
  {
    var v := NewReservation(o, tr.state, r, t1, newId);
    var next := Trace(Book(o, tr.state, v, t2), tr.log, tr.reservedAt[newId := |tr.log|]);
    forall id | id in next.state.reservations ensures ForkPinned(next, id) {
      if id == newId {
        assert tr.log[..|tr.log|] == tr.log;
      } else {
        assert ForkPinned(tr, id);
      }
    }
  }

  lemma AddRecordKeepsPins(tr: Trace, t: State, r: Record)
    requires Faithful(tr)
    requires forall id :: id in t.reservations ==>
             id in tr.state.reservations && t.reservations[id] == tr.state.reservations[id]
    ensures forall id :: id in t.reservations ==> ForkPinned(Trace(t, tr.log + [r], tr.reservedAt), id)
  {
    forall id | id in t.reservations ensures ForkPinned(Trace(t, tr.log + [r], tr.reservedAt), id) {
      assert ForkPinned(tr, id);
      if t.reservations[id].request.op == Fork {
        assert (tr.log + [r])[..tr.reservedAt[id]] == tr.log[..tr.reservedAt[id]];
      }
    }
  }

  lemma BirthReplays(log: seq<Record>, v: Reservation, id: string, a: Message, at: nat, now: int)
    requires Allocates(v.request.op)
    requires v.request.op == Fork ==>
               && at <= |log|
               && var w := Replay(log[..at], v.parentId.GetOr(""));
                  w.Some? && w.value.transcript == v.baseTranscript
    ensures Replay(log + [CommitRecord(v, id, a, at)], id) == Some(ViewOf(Born(v, a, now)))
  {
    var all := log + [CommitRecord(v, id, a, at)];
    if v.request.op == Fork {
      assert all[..at] == log[..at];
    } else {
      assert [] + Turn(v, a) == Turn(v, a);
    }
  }

  lemma GrowthReplays(log: seq<Record>, e: Entry, v: Reservation, id: string, a: Message, at: nat, now: int)
    requires v.request.op == Append || v.request.op == Reset
    requires e.state == Active && Replay(log, id) == Some(ViewOf(e))
    ensures Replay(log + [CommitRecord(v, id, a, at)], id) == Some(ViewOf(Grown(e, v, a, now)))
  {
    assert (log + [CommitRecord(v, id, a, at)])[..|log|] == log;
  }

  lemma CommitKeepsFaithful(o: Options, tr: Trace, c: Command)
    requires Linked(tr.state) && Faithful(tr) && c.DoCommit?
    ensures Faithful(Step(o, tr, c))
  {
    var (t, out) := Commit(o, tr.state, c.handle, c.assistant, c.t0, c.t1, c.factory);
    if out.Ok? {
      var v := c.handle;
      var id := out.value.contextId;
      assert ReservationLinked(tr.state, v.id) && ForkPinned(tr, v.id);
      var at := if v.id in tr.reservedAt then tr.reservedAt[v.id] else 0;
      var r := CommitRecord(v, id, c.assistant, at);
      AddRecordKeepsPins(tr, t, r);
      if Allocates(v.request.op) {
        BirthReplays(tr.log, v, id, c.assistant, at, c.t0);
      } else {
        GrowthReplays(tr.log, tr.state.contexts[id], v, id, c.assistant, at, c.t0);
      }
      forall x | x in t.contexts ensures Replay(tr.log + [r], x) == Some(ViewOf(t.contexts[x])) {
        if x != id { ReplayIgnoresOthers(tr.log, r, x); }
      }
    }
  }

  lemma ReleaseKeepsFaithful(o: Options, tr: Trace, c: Command)
    requires Faithful(tr) && c.DoRelease?
    ensures Faithful(Step(o, tr, c))
  {
    var swept := tr.(state := Sweep(o, tr.state, c.t0));
    SweepKeepsFaithful(o, tr, c.t0);
    if ReleaseHappens(o, tr.state, c) {
      var e := swept.state.contexts[c.contextId];
      var r := Record(c.contextId, Release, ReleaseKey(c.owner, c.key), c.owner, e.binding, [], None, 0);
      var next := Step(o, tr, c).state;
      assert next.contexts == swept.state.contexts[c.contextId := ReleasedEntry(o, e, c.t1)];
      ReleasedReplays(o, swept, next, c.contextId, r, c.t1);
    }
  }

  lemma ReleasedReplays(o: Options, tr: Trace, t: State, id: string, r: Record, now: int)
    requires Faithful(tr) && id in tr.state.contexts && r.op == Release && r.contextId == id
    requires t.reservations == tr.state.reservations
    requires t.contexts == tr.state.contexts[id := ReleasedEntry(o, tr.state.contexts[id], now)]
    ensures Faithful(Trace(t, tr.log + [r], tr.reservedAt))
  {
    AddRecordKeepsPins(tr, t, r);
    assert (tr.log + [r])[..|tr.log|] == tr.log;
    forall x | x in t.contexts ensures Replay(tr.log + [r], x) == Some(ViewOf(t.contexts[x])) {
      if x != id { ReplayIgnoresOthers(tr.log, r, x); }
    }
  }

  lemma AbortKeepsFaithful(o: Options, tr: Trace, c: Command)
    requires Faithful(tr) && c.DoAbort?
    ensures Faithful(Step(o, tr, c))
  {
    var v := c.handle;
    if IsActive(tr.state, v) {
      var next := tr.(state := Dropped(o, tr.state, v, c.code, c.t0));
      forall id | id in next.state.reservations ensures ForkPinned(next, id) {
        assert ForkPinned(tr, id);
      }
      SweepKeepsFaithful(o, next, c.t1);
    }
  }

  lemma StepKeepsGood(o: Options, tr: Trace, c: Command)
    requires Good(o, tr) && (c.DoReserve? ==> c.newId !in tr.state.reservations)
    ensures Good(o, Step(o, tr, c))
  {
    match c
    case DoReserve(r, t0, t1, t2, newId) =>
      var swept := Sweep(o, tr.state, t0);
      SweepKeepsLinks(o, tr.state, t0);
      SweepKeepsQuota(o, tr.state, t0);
      SweepKeepsFaithful(o, tr, t0);
      if Refusal(o, swept, r).None? {
        BookKeepsLinks(o, swept, r, t1, t2, newId);
        BookKeepsQuota(o, swept, r, t1, t2, newId);
        BookKeepsFaithful(o, tr.(state := swept), r, t1, t2, newId);
      }
    case DoCommit(v, a, t0, t1, f) =>
      CommitKeepsLinks(o, tr.state, v, a, t0, t1, f);
      CommitKeepsQuota(o, tr.state, v, a, t0, t1, f);
      CommitKeepsFaithful(o, tr, c);
    case DoAbort(v, code, t0, t1) =>
      AbortKeepsLinks(o, tr.state, v, code, t0, t1);
      AbortKeepsQuota(o, tr.state, v, code, t0, t1);
      AbortKeepsFaithful(o, tr, c);
    case DoRelease(owner, id, base, key, t0, t1, t2) =>
      SweepKeepsLinks(o, tr.state, t0);
      SweepKeepsQuota(o, tr.state, t0);
      ReleaseKeepsLinks(o, Sweep(o, tr.state, t0), owner, id, base, key, t1, t2);
      ReleaseKeepsQuota(o, Sweep(o, tr.state, t0), owner, id, base, key, t1, t2);
      ReleaseKeepsFaithful(o, tr, c);
    case DoSweep(t0) =>
      SweepKeepsLinks(o, tr.state, t0);
      SweepKeepsQuota(o, tr.state, t0);
      SweepKeepsFaithful(o, tr, t0);
  }

  /**
   Main result: after any run, the tables are linked, no owner exceeds the quota, and every retained
   context is exactly the replay of the committed history.
   */
  lemma {:induction false} EveryRunIsGood(o: Options, tr: Trace, cs: seq<Command>)
    requires Good(o, tr) && FreshIds(o, tr, cs)
    ensures Good(o, Run(o, tr, cs))
    decreases |cs|
  {
    if cs != [] {
      StepKeepsGood(o, tr, cs[0]);
      EveryRunIsGood(o, Step(o, tr, cs[0]), cs[1..]);
    }
  }

  /** The same from an empty store. */
  lemma EveryReachableStoreIsGood(o: Options, cs: seq<Command>)
    requires FreshIds(o, START, cs)
    ensures Good(o, Run(o, START, cs))
  {
    forall owner ensures |Live(EMPTY, owner)| + |Pending(EMPTY, owner)| <= Max(0, o.maxContexts) {
      assert Live(EMPTY, owner) == {} && Pending(EMPTY, owner) == {};
    }
    EveryRunIsGood(o, START, cs);
  }

  // ---------------------------------------------------------------- consequences

  /**
   In a linked store the only ways a commit can fail are a handle that is not running and, for create
   and fork, an id factory that fails: an append or reset never loses its context or its version.
   */
  lemma CommitFailsOnlyOn(o: Options, s: State, v: Reservation, a: Message, t0: int, t1: int, f: nat -> string)
    requires Linked(s)
    ensures Commit(o, s, v, a, t0, t1, f).1.Ok? <==>
              IsActive(s, v) && (Allocates(v.request.op) ==> NextContextId(s, f, 0).Ok?)
    ensures Commit(o, s, v, a, t0, t1, f).1.Ok? && !Allocates(v.request.op) ==>
              Some(Commit(o, s, v, a, t0, t1, f).1.value.version - 1) == v.request.baseVersion
  {
    if IsActive(s, v) { assert ReservationLinked(s, v.id); }
  }

  /** An abort never changes what a context says, and frees exactly the context it had locked. */
  lemma AbortChangesNoContent(o: Options, s: State, v: Reservation, code: Option<string>, t0: int, t1: int)
    requires Linked(s)
    ensures var t := Abort(o, s, v, code, t0, t1).0;
            forall id :: id in t.contexts ==>
              && id in s.contexts
              && t.contexts[id].version == s.contexts[id].version
              && t.contexts[id].transcript == s.contexts[id].transcript
              && t.contexts[id].binding == s.contexts[id].binding
              && t.contexts[id].owner == s.contexts[id].owner
              && (s.contexts[id].reservationId == Some(v.id) && IsActive(s, v) ==> t.contexts[id].reservationId.None?)
              && (s.contexts[id].reservationId != Some(v.id) ==>
                    t.contexts[id].reservationId == s.contexts[id].reservationId)
  {
    var t := Abort(o, s, v, code, t0, t1).0;
    forall id | id in t.contexts
      ensures id in s.contexts
      ensures s.contexts[id].reservationId == Some(v.id) && IsActive(s, v) ==> t.contexts[id].reservationId.None?
    {
      assert EntryLinked(s, id);
    }
  }

  /** A key reads as running exactly while a reservation holds it. */
  lemma KeyStatusIsAccurate(o: Options, s: State, owner: Owner, key: string, t: int)
    requires Linked(s)
    ensures var r := KeyStatus(o, s, owner, key, t).1;
            r.Ok? && r.value.Running? <==>
              exists id :: id in s.reservations &&
                KeyOf(s.reservations[id].request) == IdemKey(owner, CompleteAction, key)
                           && r == Ok(Running(s.reservations[id].request.requestId))
  {
    var k := IdemKey(owner, CompleteAction, key);
    if id :| id in s.reservations && KeyOf(s.reservations[id].request) == k { assert ReservationLinked(s, id); }
    if k in s.idempotency && s.idempotency[k].Busy? {
      assert OutcomeLinked(s, k);
      assert ReservationLinked(s, s.idempotency[k].reservationId);
    }
  }

  /** A context reads as running exactly while an append or reset reservation holds it, and names that request. */
  lemma ContextStatusIsAccurate(s: State, owner: Owner, id: string)
    requires Linked(s) && "" !in s.reservations && IsContextId(id) && id in s.contexts && s.contexts[id].owner == owner
    ensures var r := ContextStatus(s, owner, id).value;
            && ContextStatus(s, owner, id).Ok?
            && (r.RunningOn? <==> exists v :: v in s.reservations && Mutates(s.reservations[v], id))
            && (r.RunningOn? ==>
                  r.version == s.contexts[id].version &&
                  forall v :: v in s.reservations && Mutates(s.reservations[v], id) ==>
                  r.runningRequest == Some(s.reservations[v].request.requestId))
  {
    assert EntryLinked(s, id);
    forall v | v in s.reservations && Mutates(s.reservations[v], id) ensures s.contexts[id].reservationId == Some(v) {
      assert ReservationLinked(s, v);
    }
  }

  /** An append or reset of the context. */
  predicate Mutates(v: Reservation, id: string) { !Allocates(v.request.op) && v.request.contextId == Some(id) }

  /** Every clock reading a command sweeps with. */
  function SweepTimes(c: Command): set<int> {
    match c
    case DoCommit(_, _, _, _, _) => {}
    case DoAbort(_, _, _, t1) => {t1}
    case DoReserve(_, t0, _, _, _) => {t0}
    case DoRelease(_, _, _, _, t0, _, _) => {t0}
    case DoSweep(t0) => {t0}
  }

  ghost predicate Retains(cs: seq<Command>, until: int) {
    forall i, t :: 0 <= i < |cs| && t in SweepTimes(cs[i]) ==> t < until
  }

  /** The outcome of `k` is untouched, and at most one record is added, for another key. */
  ghost predicate Spares(tr: Trace, next: Trace, k: IdemKey) {
    && k in tr.state.idempotency && k in next.state.idempotency && next.state.idempotency[k] == tr.state.idempotency[k]
    && (next.log == tr.log || exists r: Record :: r.key != k && next.log == tr.log + [r])
  }

  lemma StepKeepsOutcome(o: Options, tr: Trace, c: Command, k: IdemKey)
    requires Linked(tr.state) && k in tr.state.idempotency && !tr.state.idempotency[k].Busy?
    requires forall t :: t in SweepTimes(c) ==> t < tr.state.idempotency[k].retainUntil
    ensures Spares(tr, Step(o, tr, c), k)
  {
    match c
    case DoCommit(v, a, t0, t1, f) =>
      if IsActive(tr.state, v) { assert ReservationLinked(tr.state, v.id); }
    case DoAbort(v, code, t0, t1) =>
      assert t1 in SweepTimes(c);
      if IsActive(tr.state, v) { assert ReservationLinked(tr.state, v.id); }
    case DoReserve(r, t0, t1, t2, newId) =>
      assert t0 in SweepTimes(c);
    case DoRelease(owner, id, base, key, t0, t1, t2) =>
      assert t0 in SweepTimes(c);
      ReleaseKeepsOutcome(o, tr, c, k);
    case DoSweep(t0) =>
      assert t0 in SweepTimes(c);
  }

  lemma ReleaseKeepsOutcome(o: Options, tr: Trace, c: Command, k: IdemKey)
    requires c.DoRelease? && k in tr.state.idempotency && !tr.state.idempotency[k].Busy?
    requires c.t0 < tr.state.idempotency[k].retainUntil
    ensures Spares(tr, Step(o, tr, c), k)
  {
    assert k in Sweep(o, tr.state, c.t0).idempotency;
  }

  /**
   At most one mutation per owner and idempotency key while its outcome is retained: from a recorded
   outcome, no continuation whose sweeps stay before `retainUntil` logs that key again.
   */
  lemma {:induction false} KeyMutatesAtMostOnce(o: Options, tr: Trace, cs: seq<Command>, k: IdemKey)
    requires Good(o, tr) && FreshIds(o, tr, cs)
    requires k in tr.state.idempotency && !tr.state.idempotency[k].Busy?
    requires Retains(cs, tr.state.idempotency[k].retainUntil)
    ensures var last := Run(o, tr, cs);
            && k in last.state.idempotency && last.state.idempotency[k] == tr.state.idempotency[k]
            && |tr.log| <= |last.log|
            && forall i :: |tr.log| <= i < |last.log| ==> last.log[i].key != k
    decreases |cs|
  {
    if cs != [] {
      var next := Step(o, tr, cs[0]);
      assert forall t :: t in SweepTimes(cs[0]) ==> t < tr.state.idempotency[k].retainUntil;
      StepKeepsOutcome(o, tr, cs[0], k);
      StepKeepsGood(o, tr, cs[0]);
      RetainsLater(cs, tr.state.idempotency[k].retainUntil);
      KeyMutatesAtMostOnce(o, next, cs[1..], k);
      LogGrows(o, next, cs[1..]);
      AddedAreOthers(tr.log, next.log, Run(o, next, cs[1..]).log, k);
    }
  }

  lemma RetainsLater(cs: seq<Command>, until: int)
    requires Retains(cs, until) && cs != []
    ensures Retains(cs[1..], until)
  {
    forall i, t | 0 <= i < |cs[1..]| && t in SweepTimes(cs[1..][i]) ensures t < until {
      assert cs[1..][i] == cs[i + 1];
    }
  }

  lemma AddedAreOthers(log: seq<Record>, next: seq<Record>, last: seq<Record>, k: IdemKey)
    requires next == log || exists r: Record :: r.key != k && next == log + [r]
    requires |next| <= |last| && last[..|next|] == next
    requires forall i :: |next| <= i < |last| ==> last[i].key != k
    ensures |log| <= |last| && forall i :: |log| <= i < |last| ==> last[i].key != k
  {
    forall i | |log| <= i < |last| ensures last[i].key != k {
      if i < |next| { assert last[..|next|][i] == next[i]; }
    }
  }

  /** History is append-only. */
  lemma {:induction false} LogGrows(o: Options, tr: Trace, cs: seq<Command>)
    ensures |tr.log| <= |Run(o, tr, cs).log| && Run(o, tr, cs).log[..|tr.log|] == tr.log
    decreases |cs|
  {
    if cs != [] {
      var next := Step(o, tr, cs[0]);
      assert next.log[..|tr.log|] == tr.log;
      LogGrows(o, next, cs[1..]);
      var last := Run(o, next, cs[1..]).log;
      assert last[..|tr.log|] == last[..|next.log|][..|tr.log|];
    }
  }

  // ---------------------------------------------------------------- leases

  /** The clock readings of a command, in the order the source takes them. */
  function Readings(c: Command): seq<int> {
    match c
    case DoReserve(_, t0, t1, t2, _) => [t0, t1, t2]
    case DoCommit(_, _, t0, t1, _) => [t0, t1]
    case DoAbort(_, _, t0, t1) => [t0, t1]
    case DoRelease(_, _, _, _, t0, t1, t2) => [t0, t1, t2]
    case DoSweep(t0) => [t0]
  }

  function LastReading(c: Command): int { Readings(c)[|Readings(c)| - 1] }

  predicate ReadsAfter(now: int, c: Command) {
    var ts := Readings(c);
    now <= ts[0] && forall i :: 0 < i < |ts| ==> ts[i - 1] <= ts[i]
  }

  /** The clock never runs backwards during the run. */
  predicate Monotone(now: int, cs: seq<Command>)
    decreases |cs|
  {
    cs != [] ==> ReadsAfter(now, cs[0]) && Monotone(LastReading(cs[0]), cs[1..])
  }

  function FinalReading(now: int, cs: seq<Command>): int
    decreases |cs|
  {
    if cs == [] then now else FinalReading(LastReading(cs[0]), cs[1..])
  }

  function LongestTtl(o: Options): int { Max(1, o.maxTtlSeconds) }

  predicate EntryLeased(o: Options, e: Entry, now: int) {
    && e.ttlSeconds <= LongestTtl(o)
    && (e.state == Active ==>
          && e.expiresAt.Some?
          && e.expiresAt.value <= now + Seconds(LongestTtl(o))
          && (e.ttlSeconds == 0 ==> e.expiresAt.value <= now))
  }

  predicate ReservationLeased(o: Options, v: Reservation) {
    v.ttlSeconds.Some? && v.ttlSeconds.value <= LongestTtl(o)
  }

  ghost predicate Leased(o: Options, s: State, now: int) {
    && (forall id :: id in s.contexts ==> EntryLeased(o, s.contexts[id], now))
    && (forall id :: id in s.reservations ==> ReservationLeased(o, s.reservations[id]))
  }

  lemma NewReservationIsLeased(o: Options, s: State, r: Request, t0: int, t1: int, newId: string)
    requires Leased(o, s, t0) && t0 <= t1
    requires Refusal(o, Sweep(o, s, t0), r).None?
    ensures ReservationLeased(o, NewReservation(o, Sweep(o, s, t0), r, t1, newId))
  {
    if r.op != Create {
      var e := Sweep(o, s, t0).contexts[r.contextId.value];
      assert e == Aged(o, s.contexts[r.contextId.value], t0) && EntryLeased(o, s.contexts[r.contextId.value], t0);
      assert e.state == Active && e.expiresAt.value > t0 && e.ttlSeconds != 0;
    }
  }

  lemma LeasesAge(o: Options, s: State, now: int, later: int)
    requires Leased(o, s, now) && now <= later
    ensures Leased(o, s, later)
  {
    forall id | id in s.contexts ensures EntryLeased(o, s.contexts[id], later) {
      assert EntryLeased(o, s.contexts[id], now);
    }
  }

  lemma SweepKeepsLeases(o: Options, s: State, now: int, t: int)
    requires Leased(o, s, now)
    ensures Leased(o, Sweep(o, s, t), now)
  {
    forall id | id in Sweep(o, s, t).contexts ensures EntryLeased(o, Sweep(o, s, t).contexts[id], now) {
      assert EntryLeased(o, s.contexts[id], now);
    }
  }

  lemma ReserveKeepsLeases(o: Options, s: State, r: Request, t0: int, t1: int, t2: int, newId: string)
    requires Leased(o, s, t0) && t0 <= t1
    ensures Leased(o, Reserve(o, s, r, t0, t1, t2, newId).0, t0)
  {
    var swept := Sweep(o, s, t0);
    SweepKeepsLeases(o, s, t0, t0);
    if Refusal(o, swept, r).None? {
      NewReservationIsLeased(o, s, r, t0, t1, newId);
      var t := Reserve(o, s, r, t0, t1, t2, newId).0;
      forall id | id in t.contexts ensures EntryLeased(o, t.contexts[id], t0) {
        assert EntryLeased(o, swept.contexts[id], t0);
      }
      forall id | id in t.reservations ensures ReservationLeased(o, t.reservations[id]) {
        if id != newId { assert ReservationLeased(o, swept.reservations[id]); }
      }
    }
  }

  lemma CommitKeepsLeases(o: Options, s: State, v: Reservation, a: Message, t0: int, t1: int, f: nat -> string)
    requires Leased(o, s, t0)
    ensures Leased(o, Commit(o, s, v, a, t0, t1, f).0, t0)
  {
    var (t, out) := Commit(o, s, v, a, t0, t1, f);
    if out.Ok? {
      assert ReservationLeased(o, s.reservations[v.id]);
      forall id | id in t.contexts ensures EntryLeased(o, t.contexts[id], t0) {
        if id in s.contexts { assert EntryLeased(o, s.contexts[id], t0); }
      }
    }
  }

  lemma StepKeepsLeases(o: Options, tr: Trace, c: Command, now: int)
    requires Leased(o, tr.state, now) && ReadsAfter(now, c)
    ensures now <= LastReading(c)
    ensures Leased(o, Step(o, tr, c).state, LastReading(c))
  {
    var ts := Readings(c);
    assert ts[0] <= LastReading(c) by { if |ts| == 3 { assert ts[0] <= ts[1] <= ts[2]; } }
    LeasesAge(o, tr.state, now, ts[0]);
    match c
    case DoReserve(r, t0, t1, t2, newId) =>
      assert ts[0] <= ts[1] <= ts[2];
      ReserveKeepsLeases(o, tr.state, r, t0, t1, t2, newId);
      LeasesAge(o, Step(o, tr, c).state, t0, t2);
    case DoCommit(v, a, t0, t1, f) =>
      CommitKeepsLeases(o, tr.state, v, a, t0, t1, f);
      LeasesAge(o, Step(o, tr, c).state, t0, t1);
    case DoAbort(v, code, t0, t1) =>
      LeasesAge(o, tr.state, t0, t1);
      if IsActive(tr.state, v) {
        SweepKeepsLeases(o, Dropped(o, tr.state, v, code, t0), t1, t1);
      }
    case DoRelease(owner, id, base, key, t0, t1, t2) =>
      SweepKeepsLeases(o, tr.state, t0, t0);
      LeasesAge(o, Sweep(o, tr.state, t0), t0, t2);
    case DoSweep(t0) =>
      SweepKeepsLeases(o, tr.state, t0, t0);
  }

  /**
   While the clock does not run backwards, every active context carries an expiry, at most
   `max(1, max_ttl_seconds)` seconds ahead, whatever sequence of creates, forks, appends and resets
   produced it. Sweeping at or after that instant therefore always retires it.
   */
  lemma {:induction false} LeasesNeverVanish(o: Options, tr: Trace, cs: seq<Command>, now: int)
    requires Leased(o, tr.state, now) && Monotone(now, cs)
    ensures Leased(o, Run(o, tr, cs).state, FinalReading(now, cs))
    decreases |cs|
  {
    if cs != [] {
      StepKeepsLeases(o, tr, cs[0], now);
      LeasesNeverVanish(o, Step(o, tr, cs[0]), cs[1..], LastReading(cs[0]));
    }
  }
}
