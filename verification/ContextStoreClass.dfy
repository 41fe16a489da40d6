/**
 The in-memory store itself: three tables updated step by step, each public method proved to perform
 exactly the transition that `ContextStore` defines. The lock of the source makes every method atomic.
 */
module ContextStoreClass {
  import opened Common
  import opened ContextStore

  class InMemoryContextStore {
    const options: Options
    var contexts: map<string, Entry>
    var idempotency: map<IdemKey, Outcome>
    var reservations: map<string, Reservation>

    ghost function Now(): State
      reads this
    {
      State(contexts, idempotency, reservations)
    }

    constructor (o: Options)
      ensures options == o && Now() == EMPTY
    {
      options := o;
      contexts, idempotency, reservations := map[], map[], map[];
    }

    method ExpireEntry(id: string, now: int) returns (did: bool)
      requires id in contexts
      modifies `contexts
      ensures contexts == old(contexts)[id := Aged(options, old(contexts)[id], now)]
      ensures did == Lapses(old(contexts)[id], now)
    {
      var entry := contexts[id];
      did := entry.state == Active && entry.reservationId.None? && entry.expiresAt.Some? &&
        entry.expiresAt.value <= now;
      if did {
        contexts := contexts[id := entry.(state := Expired, expiresAt := None,
          tombstoneUntil := Some(now + Seconds(options.tombstoneSeconds)))];
      }
    }

    method ExpireContexts(now: int) returns (changed: nat)
      modifies `contexts
      ensures contexts == AgedAll(options, old(contexts), {}, now)
      ensures changed == 0 <==> NoneLapsed(old(contexts), {}, now)
    {
      changed := 0;
      var todo := contexts.Keys;
      while todo != {}
        invariant todo <= old(contexts.Keys) && contexts == AgedAll(options, old(contexts), todo, now)
        invariant changed == 0 <==> NoneLapsed(old(contexts), todo, now)
        decreases |todo|
      {
        var id :| id in todo;
        AgedStep(options, old(contexts), todo, id, now);
        var did := ExpireEntry(id, now);
        todo := todo - {id};
        if did { changed := changed + 1; }
      }
    }

    /** `_sweep`: expire, then drop old tombstones, then forget old outcomes; returns how much changed. */
    method SweepTables(now: int) returns (changed: nat)
      modifies this
      ensures Now() == Sweep(options, old(Now()), now)
      ensures changed == 0 <==> Now() == old(Now())
    {
      changed := ExpireContexts(now);
      AgeingShows(options, old(contexts), now);
      var gone := set id | id in contexts && IsGone(contexts[id], now);
      contexts := contexts - gone;
      var forgotten := set k | k in idempotency && IsForgotten(idempotency[k], now);
      idempotency := idempotency - forgotten;
      changed := changed + |gone| + |forgotten|;
    }

    method CountLive(owner: Owner) returns (live: nat)
      ensures live == |Live(Now(), owner)|
    {
      var todo := contexts.Keys;
      ghost var all := Live(Now(), owner);
      live := 0;
      assert all - todo == {};
      while todo != {}
        invariant todo <= contexts.Keys && live == |all - todo|
        decreases |todo|
      {
        var id :| id in todo;
        OneLess(all, todo, id);
        todo := todo - {id};
        if contexts[id].owner == owner && contexts[id].state == Active { live := live + 1; }
      }
      assert all - todo == all;
    }

    method CountPending(owner: Owner) returns (pending: nat)
      ensures pending == |Pending(Now(), owner)|
    {
      var todo := reservations.Keys;
      ghost var all := Pending(Now(), owner);
      pending := 0;
      assert all - todo == {};
      while todo != {}
        invariant todo <= reservations.Keys && pending == |all - todo|
        decreases |todo|
      {
        var id :| id in todo;
        OneLess(all, todo, id);
        todo := todo - {id};
        if reservations[id].request.owner == owner && Allocates(reservations[id].request.op) { pending := pending + 1; }
      }
      assert all - todo == all;
    }

    /** `_ensure_allocation_available`. */
    method AllocationAvailable(owner: Owner) returns (ok: bool)
      ensures ok == !QuotaFull(options, Now(), owner)
    {
      var live := CountLive(owner);
      var pending := CountPending(owner);
      ok := live + pending < options.maxContexts;
    }

    /** `reserve`; `t0`, `t1` and `t2` are its clock readings and `newId` the UUID it draws. */
    method TryReserve(r: Request, t0: int, t1: int, t2: int, newId: string)
      returns (out: Result<Reservation, Error>)
      modifies this
      ensures (Now(), out) == Reserve(options, old(Now()), r, t0, t1, t2, newId)
    {
      var _ := SweepTables(t0);
      if Validate(r).Some? { return Err(Validate(r).value); }
      if r.op !in options.supported { return Err(Fail(OperationUnsupported)); }
      if KeyOf(r) in idempotency { return Err(Fail(IdempotencyConflict)); }
      var v: Reservation;
      if r.op == Create {
        var ok := AllocationAvailable(r.owner);
        if !ok { return Err(Fail(LimitExceeded)); }
        v := Reservation(newId, r, options.fingerprint(r.binding), [],
          Some(ClampTtl(options, r.ttlSeconds.GetOr(options.defaultTtlSeconds))), None, None);
      } else {
        var id := r.contextId.GetOr("");
        var denied := Denied(State(contexts, idempotency, reservations), r.owner, id);
        if denied.Some? { return Err(denied.value); }
        var entry := contexts[id];
        if entry.reservationId.Some? || Some(entry.version) != r.baseVersion {
          return Err(StoreError(VersionConflict, Some(entry.version)));
        }
        if (r.op == Append || r.op == Fork) && entry.fingerprint != options.fingerprint(r.binding) {
          return Err(Fail(BindingMismatch));
        }
        if r.op == Fork {
          var ok := AllocationAvailable(r.owner);
          if !ok { return Err(Fail(LimitExceeded)); }
        }
        var ttl := EffectiveTtl(options, r, entry, t1);
        v := Reservation(newId, r, options.fingerprint(r.binding), entry.transcript, ttl,
          if r.op == Fork then Some(id) else None, if r.op == Fork then Some(entry.version) else None);
        if r.op != Fork {
          contexts := contexts[id := entry.(reservationId := Some(newId))];
        }
      }
      reservations := reservations[newId := v];
      idempotency := idempotency[KeyOf(r) := Busy(r.requestId, newId, t2 + options.idempotencyTtl)];
      out := Ok(v);
    }

    /** Draws context ids until one is unused; `factory(i)` is what the i-th draw yields. */
    method DrawContextId(factory: nat -> string) returns (out: Result<string, Error>)
      ensures out == NextContextId(Now(), factory, 0)
    {
      for i := 0 to 8
        invariant NextContextId(Now(), factory, 0) == NextContextId(Now(), factory, i)
      {
        var id := factory(i);
        if !IsContextId(id) { return Err(Fail(ParamsInvalid)); }
        if id !in contexts { return Ok(id); }
      }
      out := Err(ContextIdCollisions);
    }

    method TryCommit(v: Reservation, assistant: Message, t0: int, t1: int, factory: nat -> string)
      returns (out: Result<Receipt, Error>)
      modifies this
      ensures (Now(), out) == Commit(options, old(Now()), v, assistant, t0, t1, factory)
    {
      if v.id !in reservations || reservations[v.id] != v { return Err(ReservationNotActive); }
      var r := v.request;
      var expiry := if v.ttlSeconds.Some? then Some(t0 + Seconds(v.ttlSeconds.value)) else None;
      var id: string, version: int;
      if r.op == Create || r.op == Fork {
        var drawn := DrawContextId(factory);
        if drawn.Err? { return Err(drawn.error); }
        id, version := drawn.value, 1;
        var transcript := if r.op == Fork then v.baseTranscript else [];
        transcript := transcript + (r.messages + [assistant]);
        contexts := contexts[id := Entry(r.owner, 1, Active, r.binding, v.fingerprint, transcript,
          v.ttlSeconds.GetOr(0), expiry, None, None)];
      } else {
        id := r.contextId.GetOr("");
        if id !in contexts { return Err(Fail(NotFound)); }
        var entry := contexts[id];
        version := entry.version + 1;
        entry := entry.(version := version, state := Active, reservationId := None, expiresAt := expiry,
          ttlSeconds := v.ttlSeconds.GetOr(0));
        if r.op == Reset {
          entry := entry.(binding := r.binding, fingerprint := v.fingerprint, transcript := r.messages + [assistant]);
        } else {
          entry := entry.(transcript := entry.transcript + (r.messages + [assistant]));
        }
        contexts := contexts[id := entry];
      }
      var receipt := Receipt(id, version, r.op, Active, expiry, v.parentId, v.parentVersion);
      idempotency := idempotency[KeyOf(r) :=
        Completed(receipt, Some(r.requestId), None, None, t1 + options.idempotencyTtl)];
      reservations := reservations - {v.id};
      out := Ok(receipt);
    }

    method TryAbort(v: Reservation, code: Option<string>, t0: int, t1: int) returns (out: Option<Error>)
      modifies this
      ensures (Now(), out) == Abort(options, old(Now()), v, code, t0, t1)
    {
      if v.id !in reservations || reservations[v.id] != v { return Some(ReservationNotActive); }
      var id := v.request.contextId.GetOr("");
      if id in contexts && contexts[id].reservationId == Some(v.id) {
        contexts := contexts[id := contexts[id].(reservationId := None)];
      }
      reservations := reservations - {v.id};
      idempotency := idempotency[KeyOf(v.request) := Failed(v.request.requestId, code, t0 + options.idempotencyTtl)];
      var _ := SweepTables(t1);
      out := None;
    }

    method TryRelease(owner: Owner, id: string, base: int, key: string, t0: int, t1: int, t2: int)
      returns (out: Result<Receipt, Error>)
      modifies this
      ensures (Now(), out) == ReleaseContext(options, old(Now()), owner, id, base, key, t0, t1, t2)
    {
      var _ := SweepTables(t0);
      if Release !in options.supported { return Err(Fail(OperationUnsupported)); }
      if !IsContextId(id) { return Err(Fail(ParamsInvalid)); }
      if IsBlank(key) { return Err(Fail(ParamsInvalid)); }
      var k := IdemKey(owner, ReleaseAction, key);
      if k in idempotency {
        var prior := idempotency[k];
        if prior.Completed? && prior.contextId == Some(id) && prior.baseVersion == Some(base) {
          return Ok(prior.receipt);
        }
        return Err(Fail(IdempotencyConflict));
      }
      var denied := Denied(State(contexts, idempotency, reservations), owner, id);
      if denied.Some? { return Err(denied.value); }
      var entry := contexts[id];
      if entry.reservationId.Some? || entry.version != base {
        return Err(StoreError(VersionConflict, Some(entry.version)));
      }
      entry := entry.(version := entry.version + 1, state := Released, expiresAt := None,
        tombstoneUntil := Some(t1 + Seconds(options.tombstoneSeconds)));
      contexts := contexts[id := entry];
      var receipt := Receipt(id, entry.version, Release, Released, None, None, None);
      idempotency := idempotency[k := Completed(receipt, None, Some(id), Some(base), t2 + options.idempotencyTtl)];
      out := Ok(receipt);
    }

    method StatusByContext(owner: Owner, id: string, t0: int) returns (out: Result<Status, Error>)
      modifies this
      ensures Now() == Sweep(options, old(Now()), t0)
      ensures out == ContextStatus(Now(), owner, id)
    {
      var _ := SweepTables(t0);
      if !IsContextId(id) { return Err(Fail(ParamsInvalid)); }
      if id !in contexts { return Err(Fail(NotFound)); }
      var entry := contexts[id];
      if entry.owner != owner { return Err(Fail(Forbidden)); }
      if entry.reservationId.Some? && entry.reservationId.value != "" {
        var active := entry.reservationId.value;
        var requestId := if active in reservations then Some(reservations[active].request.requestId) else None;
        return Ok(RunningOn(id, entry.version, entry.expiresAt, requestId));
      }
      out := Ok(Retained(id, entry.version, entry.state, entry.expiresAt));
    }

    method StatusByKey(owner: Owner, key: string, t0: int, t1: int) returns (out: Result<Status, Error>)
      modifies this
      ensures (Now(), out) == KeyStatus(options, Sweep(options, old(Now()), t0), owner, key, t1)
    {
      var _ := SweepTables(t0);
      var k := IdemKey(owner, CompleteAction, key);
      if k !in idempotency { return Err(Fail(NotFound)); }
      var outcome := idempotency[k];
      match outcome
      case Busy(requestId, _, _) => return Ok(Running(requestId));
      case Failed(requestId, code, _) => return Ok(FailedWith(requestId, code));
      case Completed(receipt, _, _, _, _) =>
        if receipt.contextId in contexts {
          out := StatusByContext(owner, receipt.contextId, t1);
        } else {
          out := Ok(Retained(receipt.contextId, receipt.version, receipt.state, receipt.expiresAt));
        }
    }
  }

  /** The table with every entry aged but those in `todo`. */
  ghost function AgedAll(o: Options, before: map<string, Entry>, todo: set<string>, now: int): map<string, Entry> {
    map id | id in before :: if id in todo then before[id] else Aged(o, before[id], now)
  }

  ghost predicate NoneLapsed(before: map<string, Entry>, todo: set<string>, now: int) {
    forall id :: id in before && id !in todo ==> !Lapses(before[id], now)
  }

  lemma AgedStep(o: Options, before: map<string, Entry>, todo: set<string>, id: string, now: int)
    requires id in todo && id in before
    ensures AgedAll(o, before, todo, now)[id] == before[id]
    ensures AgedAll(o, before, todo - {id}, now) == AgedAll(o, before, todo, now)[id := Aged(o, before[id], now)]
    ensures NoneLapsed(before, todo - {id}, now) <==> NoneLapsed(before, todo, now) && !Lapses(before[id], now)
  {}

  lemma AgeingShows(o: Options, before: map<string, Entry>, now: int)
    ensures AgedAll(o, before, {}, now) == before <==> NoneLapsed(before, {}, now)
  {
    if id :| id in before && Lapses(before[id], now) {
      assert AgedAll(o, before, {}, now)[id].state != before[id].state;
    }
  }

  lemma OneLess(all: set<string>, todo: set<string>, id: string)
    requires id in todo
    ensures |all - (todo - {id})| == |all - todo| + if id in all then 1 else 0
  {
    assert all - (todo - {id}) == if id in all then (all - todo) + {id} else all - todo;
  }
}
