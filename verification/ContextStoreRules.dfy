/**
 When the LLM context store grants a reservation, which error it gives otherwise, and for how long it remembers.

 The rules are stated on the committed history and on what is retained at the instant of the call. They name neither
 the checks of `ContextStore` nor its sweep.
 */
module ContextStoreRules {
  import opened Common
  import opened ContextStore
  import opened ContextStoreRuns

  // ---------------------------------------------------------------- fingerprints

  /** Every fingerprint kept is that of the binding kept beside it. */
  ghost predicate Fingerprinted(o: Options, s: State) {
    && (forall id :: id in s.contexts ==> s.contexts[id].fingerprint == o.fingerprint(s.contexts[id].binding))
    && (forall id :: id in s.reservations ==>
          s.reservations[id].fingerprint == o.fingerprint(s.reservations[id].request.binding))
  }

  lemma SweepKeepsFingerprints(o: Options, s: State, t: int)
    requires Fingerprinted(o, s)
    ensures Fingerprinted(o, Sweep(o, s, t))
  {}

  lemma ReserveKeepsFingerprints(o: Options, s: State, r: Request, t0: int, t1: int, t2: int, newId: string)
    requires Fingerprinted(o, s)
    ensures Fingerprinted(o, Reserve(o, s, r, t0, t1, t2, newId).0)
  {
    SweepKeepsFingerprints(o, s, t0);
    var swept := Sweep(o, s, t0);
    if Refusal(o, swept, r).None? {
      assert NewReservation(o, swept, r, t1, newId).fingerprint == o.fingerprint(r.binding);
    }
  }

  lemma CommitKeepsFingerprints(o: Options, s: State, v: Reservation, a: Message, t0: int, t1: int, f: nat -> string)
    requires Fingerprinted(o, s)
    ensures Fingerprinted(o, Commit(o, s, v, a, t0, t1, f).0)
  {}

  lemma ReleaseKeepsFingerprints(o: Options, s: State, owner: Owner, id: string, base: int, key: string,
                                 t1: int, t2: int)
    requires Fingerprinted(o, s)
    ensures Fingerprinted(o, ReleaseOn(o, s, owner, id, base, key, t1, t2).0)
  {}

  lemma StepKeepsFingerprints(o: Options, tr: Trace, c: Command)
    requires Fingerprinted(o, tr.state)
    ensures Fingerprinted(o, Step(o, tr, c).state)
  {
    match c
    case DoReserve(r, t0, t1, t2, newId) => ReserveKeepsFingerprints(o, tr.state, r, t0, t1, t2, newId);
    case DoCommit(v, a, t0, t1, f) => CommitKeepsFingerprints(o, tr.state, v, a, t0, t1, f);
    case DoAbort(v, code, t0, t1) =>
      if IsActive(tr.state, v) { SweepKeepsFingerprints(o, Dropped(o, tr.state, v, code, t0), t1); }
    case DoRelease(owner, id, base, key, t0, t1, t2) =>
      SweepKeepsFingerprints(o, tr.state, t0);
      ReleaseKeepsFingerprints(o, Sweep(o, tr.state, t0), owner, id, base, key, t1, t2);
    case DoSweep(t0) => SweepKeepsFingerprints(o, tr.state, t0);
  }

  /** After any run, the fingerprint of every retained context is that of its binding. */
  lemma {:induction false} EveryRunIsFingerprinted(o: Options, tr: Trace, cs: seq<Command>)
    requires Fingerprinted(o, tr.state)
    ensures Fingerprinted(o, Run(o, tr, cs).state)
    decreases |cs|
  {
    if cs != [] {
      StepKeepsFingerprints(o, tr, cs[0]);
      EveryRunIsFingerprinted(o, Step(o, tr, cs[0]), cs[1..]);
    }
  }

  // ---------------------------------------------------------------- well-formed requests

  predicate NamesContext(r: Request) {
    && r.contextId.Some? && r.baseVersion.Some?
    && 22 <= |r.contextId.value| <= 128
    && forall c :: c in r.contextId.value ==> 'A' <= c <= 'Z' || 'a' <= c <= 'z' || '0' <= c <= '9' || c in "_-"
  }

  /** A request the store takes up at all. */
  predicate HasShape(r: Request) {
    && r.op != Release
    && (exists c :: c in r.key && !IsSpace(c))
    && (r.ttlSeconds.Some? ==> r.ttlSeconds.value > 0)
    && (if r.op == Create then r.contextId.None? && r.baseVersion.None? else NamesContext(r))
    && (r.op != Fork ==> r.messages != [])
  }

  /** The role `system`, in any mixture of cases. */
  predicate IsSystem(m: Message) {
    |m.role| == 6 && forall i :: 0 <= i < 6 ==> m.role[i] in ["sS", "yY", "sS", "tT", "eE", "mM"][i]
  }

  /** A turn that continues a context brings no system messages. */
  predicate KeepsSystem(r: Request) {
    r.op == Append || r.op == Fork ==> forall m :: m in r.messages ==> !IsSystem(m)
  }

  lemma SystemRole(m: Message)
    ensures IsSystemRole(m.role) <==> IsSystem(m)
  {}

  lemma ShapeIsValidated(r: Request)
    ensures Validate(r) ==
            if !HasShape(r) then Some(Fail(ParamsInvalid))
            else if !KeepsSystem(r) then Some(Fail(BindingMismatch))
            else None
  {
    assert IsBlank(r.key) <==> !exists c :: c in r.key && !IsSpace(c);
    if r.contextId.Some? {
      var id := r.contextId.value;
      assert forall i :: 0 <= i < |id| ==> id[i] in id;
    }
    forall m | m in r.messages ensures IsSystemRole(m.role) <==> IsSystem(m) { SystemRole(m); }
  }

  // ---------------------------------------------------------------- what is retained at an instant

  /** The key has a running reservation, or an outcome that is still remembered. */
  predicate Taken(s: State, k: IdemKey, t: int) {
    k in s.idempotency && (s.idempotency[k].Busy? || t < s.idempotency[k].retainUntil)
  }

  /** Active, and held by a mutation or not yet past its expiry. */
  predicate AliveAt(e: Entry, t: int) {
    e.state == Active && (e.reservationId.Some? || e.expiresAt.None? || t < e.expiresAt.value)
  }

  /** The store still knows the context: alive, or within its tombstone time. */
  predicate KnownAt(o: Options, s: State, id: string, t: int) {
    id in s.contexts &&
    var e := s.contexts[id];
    if e.state == Active then AliveAt(e, t) || o.tombstoneSeconds > 0
    else e.tombstoneUntil.None? || t < e.tombstoneUntil.value
  }

  /** No append or reset of the context is running. */
  ghost predicate Free(s: State, id: string) {
    forall v :: v in s.reservations && s.reservations[v].request.op in {Append, Reset} ==>
      s.reservations[v].request.contextId != Some(id)
  }

  ghost predicate HasRoom(o: Options, s: State, owner: Owner, t: int) {
    var live := set id | id in s.contexts && s.contexts[id].owner == owner && AliveAt(s.contexts[id], t);
    var pending := set v | v in s.reservations && s.reservations[v].request.owner == owner
                           && s.reservations[v].request.op in {Create, Fork};
    |live| + |pending| < o.maxContexts
  }

  lemma RoomIsCounted(o: Options, s: State, owner: Owner, t: int)
    ensures QuotaFull(o, Sweep(o, s, t), owner) <==> !HasRoom(o, s, owner, t)
  {
    var live := set id | id in s.contexts && s.contexts[id].owner == owner && AliveAt(s.contexts[id], t);
    var pending := set v | v in s.reservations && s.reservations[v].request.owner == owner
                           && s.reservations[v].request.op in {Create, Fork};
    assert Live(Sweep(o, s, t), owner) == live;
    assert Pending(Sweep(o, s, t), owner) == pending;
  }

  lemma SweptContext(o: Options, s: State, id: string, t: int)
    ensures id in Sweep(o, s, t).contexts <==> KnownAt(o, s, id, t)
    ensures id in s.contexts && KnownAt(o, s, id, t) ==>
            var e, f := s.contexts[id], Sweep(o, s, t).contexts[id];
            && (f.state == Active <==> AliveAt(e, t))
            && (f.state == Released <==> e.state == Released)
            && f == e.(state := f.state, expiresAt := f.expiresAt, tombstoneUntil := f.tombstoneUntil)
  {}

  lemma FreeIsUnlocked(s: State, id: string)
    requires Linked(s) && id in s.contexts
    ensures Free(s, id) <==> s.contexts[id].reservationId.None?
  {
    assert EntryLinked(s, id);
    forall v | v in s.reservations && s.reservations[v].request.op in {Append, Reset}
               && s.reservations[v].request.contextId == Some(id)
      ensures s.contexts[id].reservationId.Some?
    {
      assert ReservationLinked(s, v);
    }
    if s.contexts[id].reservationId.Some? { assert ReservationLinked(s, s.contexts[id].reservationId.value); }
  }

  // ---------------------------------------------------------------- when a reservation is granted

  /** The request names a live, free context of its owner at the version that history gives it, under its binding. */
  ghost predicate Continues(o: Options, tr: Trace, r: Request, t: int)
    requires r.contextId.Some? && r.baseVersion.Some?
  {
    var id, view := r.contextId.value, Replay(tr.log, r.contextId.value);
    && id in tr.state.contexts && AliveAt(tr.state.contexts[id], t) && Free(tr.state, id)
    && view.Some? && view.value.owner == r.owner && view.value.version == r.baseVersion.value
    && (r.op == Append || r.op == Fork ==> o.fingerprint(view.value.binding) == o.fingerprint(r.binding))
  }

  ghost predicate Admissible(o: Options, tr: Trace, r: Request, t: int) {
    && HasShape(r) && KeepsSystem(r) && r.op in o.supported
    && !Taken(tr.state, IdemKey(r.owner, CompleteAction, r.key), t)
    && (r.op == Create || r.op == Fork ==> HasRoom(o, tr.state, r.owner, t))
    && (r.op != Create ==> Continues(o, tr, r, t))
  }

  /** What the check on a swept store sees of a context. */
  lemma Seen(o: Options, tr: Trace, id: string, t: int)
    requires Good(o, tr) && Fingerprinted(o, tr.state) && KnownAt(o, tr.state, id, t)
    ensures id in Sweep(o, tr.state, t).contexts && Replay(tr.log, id).Some?
    ensures var e, view := Sweep(o, tr.state, t).contexts[id], Replay(tr.log, id).value;
            && e.owner == view.owner && e.version == view.version && e.fingerprint == o.fingerprint(view.binding)
            && e.transcript == view.transcript
            && (e.state == Active <==> AliveAt(tr.state.contexts[id], t))
            && (e.state == Released <==> view.released)
            && (e.reservationId.None? <==> Free(tr.state, id))
  {
    SweptContext(o, tr.state, id, t);
    FreeIsUnlocked(tr.state, id);
    assert Replay(tr.log, id) == Some(ViewOf(tr.state.contexts[id]));
  }

  /** The checks on the named context, on history and what is retained. */
  ghost function ContextVerdict(o: Options, tr: Trace, r: Request, t: int): Option<Error>
    requires NamesContext(r)
  {
    var id, view := r.contextId.value, Replay(tr.log, r.contextId.value);
    if !KnownAt(o, tr.state, id, t) || view.None? then Some(Fail(NotFound))
    else if view.value.owner != r.owner then Some(Fail(Forbidden))
    else if view.value.released then Some(Fail(NotFound))
    else if !AliveAt(tr.state.contexts[id], t) then Some(StoreError(ContextExpired, Some(view.value.version)))
    else if !Free(tr.state, id) || view.value.version != r.baseVersion.value then
      Some(StoreError(VersionConflict, Some(view.value.version)))
    else if r.op != Reset && o.fingerprint(view.value.binding) != o.fingerprint(r.binding) then
      Some(Fail(BindingMismatch))
    else if r.op == Fork && !HasRoom(o, tr.state, r.owner, t) then Some(Fail(LimitExceeded))
    else None
  }

  /** What is assumed of the history of the context that a request names. */
  ghost predicate Told(o: Options, tr: Trace, r: Request, t: int) {
    r.contextId.Some? && KnownAt(o, tr.state, r.contextId.value, t) ==>
      var view := Replay(tr.log, r.contextId.value);
      view.Some? && (view.value.released ==> !AliveAt(tr.state.contexts[r.contextId.value], t))
  }

  lemma HistoryTells(o: Options, tr: Trace, r: Request, t: int)
    requires Good(o, tr) && Fingerprinted(o, tr.state)
    ensures Told(o, tr, r, t)
  {
    if r.contextId.Some? && KnownAt(o, tr.state, r.contextId.value, t) { Seen(o, tr, r.contextId.value, t); }
  }

  /** `swept` shows of context `id` what history says. */
  ghost predicate Shows(o: Options, tr: Trace, id: string, t: int, swept: State) {
    && (id in swept.contexts <==> KnownAt(o, tr.state, id, t))
    && (id in swept.contexts ==>
          && Replay(tr.log, id).Some?
          && var e, view := swept.contexts[id], Replay(tr.log, id).value;
             && e.owner == view.owner && e.version == view.version && e.fingerprint == o.fingerprint(view.binding)
             && (e.state == Active <==> AliveAt(tr.state.contexts[id], t))
             && (e.state == Released <==> view.released)
             && (e.reservationId.None? <==> Free(tr.state, id)))
  }

  lemma SweptShows(o: Options, tr: Trace, id: string, t: int)
    requires Good(o, tr) && Fingerprinted(o, tr.state)
    ensures Shows(o, tr, id, t, Sweep(o, tr.state, t))
  {
    SweptContext(o, tr.state, id, t);
    if KnownAt(o, tr.state, id, t) { Seen(o, tr, id, t); }
  }

  lemma ContextIsChecked(o: Options, tr: Trace, r: Request, t: int, swept: State)
    requires NamesContext(r) && Shows(o, tr, r.contextId.value, t, swept)
    requires QuotaFull(o, swept, r.owner) <==> !HasRoom(o, tr.state, r.owner, t)
    requires Validate(r).None? && r.op != Create && r.op in o.supported && KeyOf(r) !in swept.idempotency
    ensures Refusal(o, swept, r) == ContextVerdict(o, tr, r, t)
  {}

  /** The whole check, clause by clause. */
  ghost function Verdict(o: Options, tr: Trace, r: Request, t: int): Option<Error> {
    if !HasShape(r) then Some(Fail(ParamsInvalid))
    else if !KeepsSystem(r) then Some(Fail(BindingMismatch))
    else if r.op !in o.supported then Some(Fail(OperationUnsupported))
    else if Taken(tr.state, IdemKey(r.owner, CompleteAction, r.key), t) then Some(Fail(IdempotencyConflict))
    else if r.op != Create then ContextVerdict(o, tr, r, t)
    else if !HasRoom(o, tr.state, r.owner, t) then Some(Fail(LimitExceeded))
    else None
  }

  lemma VerdictIsRefusal(o: Options, tr: Trace, r: Request, t: int)
    requires Good(o, tr) && Fingerprinted(o, tr.state)
    ensures Refusal(o, Sweep(o, tr.state, t), r) == Verdict(o, tr, r, t)
  {
    var swept := Sweep(o, tr.state, t);
    ShapeIsValidated(r);
    assert KeyOf(r) in swept.idempotency <==> Taken(tr.state, IdemKey(r.owner, CompleteAction, r.key), t);
    RoomIsCounted(o, tr.state, r.owner, t);
    if Validate(r).None? && r.op in o.supported && KeyOf(r) !in swept.idempotency && r.op != Create {
      SweptShows(o, tr, r.contextId.value, t);
      ContextIsChecked(o, tr, r, t, swept);
    }
  }

  lemma VerdictMeans(o: Options, tr: Trace, r: Request, t: int)
    requires Told(o, tr, r, t)
    ensures Verdict(o, tr, r, t).None? <==> Admissible(o, tr, r, t)
  {}

  /** Main result: a reservation is granted exactly when the request is admissible. */
  lemma GrantedExactlyWhen(o: Options, tr: Trace, r: Request, t0: int, t1: int, t2: int, newId: string)
    requires Good(o, tr) && Fingerprinted(o, tr.state)
    ensures Reserve(o, tr.state, r, t0, t1, t2, newId).1.Ok? <==> Admissible(o, tr, r, t0)
  {
    VerdictIsRefusal(o, tr, r, t0);
    HistoryTells(o, tr, r, t0);
    VerdictMeans(o, tr, r, t0);
  }

  // ---------------------------------------------------------------- which error goes with which clause

  /** The request passes everything that does not depend on a context or on the quota. */
  ghost predicate Eligible(o: Options, s: State, r: Request, t: int) {
    HasShape(r) && KeepsSystem(r) && r.op in o.supported && !Taken(s, IdemKey(r.owner, CompleteAction, r.key), t)
  }

  /** The request names a context the store knows, which belongs to its owner. */
  ghost predicate Owns(o: Options, tr: Trace, r: Request, t: int) {
    && r.op != Create && r.contextId.Some? && KnownAt(o, tr.state, r.contextId.value, t)
    && Replay(tr.log, r.contextId.value).Some? && Replay(tr.log, r.contextId.value).value.owner == r.owner
  }

  /** And it is alive. */
  ghost predicate Reaches(o: Options, tr: Trace, r: Request, t: int) {
    Owns(o, tr, r, t) && AliveAt(tr.state.contexts[r.contextId.value], t)
  }

  /** And it is free, at the version the request is based on. */
  ghost predicate Fits(o: Options, tr: Trace, r: Request, t: int) {
    && Reaches(o, tr, r, t) && Free(tr.state, r.contextId.value)
    && Some(Replay(tr.log, r.contextId.value).value.version) == r.baseVersion
  }

  ghost function VersionNow(tr: Trace, r: Request): Option<int> {
    match Replay(tr.log, r.contextId.GetOr("")) case Some(view) => Some(view.version) case None => None
  }

  lemma VerdictOnContext(o: Options, tr: Trace, r: Request, t: int)
    requires Told(o, tr, r, t) && NamesContext(r) && r.op in {Append, Fork, Reset}
    ensures var id, out := r.contextId.value, ContextVerdict(o, tr, r, t);
            && (out == Some(Fail(NotFound)) <==>
                  || !KnownAt(o, tr.state, id, t)
                  || (Owns(o, tr, r, t) && Replay(tr.log, id).value.released))
            && (out == Some(Fail(Forbidden)) <==> KnownAt(o, tr.state, id, t) && !Owns(o, tr, r, t))
            && (out == Some(StoreError(ContextExpired, VersionNow(tr, r))) <==>
                  Owns(o, tr, r, t) && !Replay(tr.log, id).value.released && !Reaches(o, tr, r, t))
            && (out == Some(StoreError(VersionConflict, VersionNow(tr, r))) <==>
                  Reaches(o, tr, r, t) && !Fits(o, tr, r, t))
            && (out == Some(Fail(BindingMismatch)) <==> Fits(o, tr, r, t) && !Continues(o, tr, r, t))
            && (out == Some(Fail(LimitExceeded)) <==>
                  Continues(o, tr, r, t) && r.op == Fork && !HasRoom(o, tr.state, r.owner, t))
  {}

  /** Each error is given exactly when the clauses before it hold and its own does not. */
  lemma RefusedExactlyWhen(o: Options, tr: Trace, r: Request, t0: int, t1: int, t2: int, newId: string)
    requires Good(o, tr) && Fingerprinted(o, tr.state)
    ensures var out := Reserve(o, tr.state, r, t0, t1, t2, newId).1;
            && (out == Err(Fail(ParamsInvalid)) <==> !HasShape(r))
            && (out == Err(Fail(OperationUnsupported)) <==> HasShape(r) && KeepsSystem(r) && r.op !in o.supported)
            && (out == Err(Fail(IdempotencyConflict)) <==>
                  && HasShape(r) && KeepsSystem(r) && r.op in o.supported
                  && Taken(tr.state, IdemKey(r.owner, CompleteAction, r.key), t0))
            && (out == Err(Fail(BindingMismatch)) <==>
                  || (HasShape(r) && !KeepsSystem(r))
                  || (Eligible(o, tr.state, r, t0) && Fits(o, tr, r, t0) && !Continues(o, tr, r, t0)))
            && (out == Err(Fail(LimitExceeded)) <==>
                  && Eligible(o, tr.state, r, t0) && (r.op == Fork ==> Continues(o, tr, r, t0))
                  && r.op in {Create, Fork} && !HasRoom(o, tr.state, r.owner, t0))
    ensures var out := Reserve(o, tr.state, r, t0, t1, t2, newId).1;
            Eligible(o, tr.state, r, t0) && r.op != Create ==>
              var id := r.contextId.value;
              && (out == Err(Fail(NotFound)) <==>
                    || !KnownAt(o, tr.state, id, t0)
                    || (Owns(o, tr, r, t0) && Replay(tr.log, id).value.released))
              && (out == Err(Fail(Forbidden)) <==> KnownAt(o, tr.state, id, t0) && !Owns(o, tr, r, t0))
              && (out == Err(StoreError(ContextExpired, VersionNow(tr, r))) <==>
                    Owns(o, tr, r, t0) && !Replay(tr.log, id).value.released && !Reaches(o, tr, r, t0))
              && (out == Err(StoreError(VersionConflict, VersionNow(tr, r))) <==>
                    Reaches(o, tr, r, t0) && !Fits(o, tr, r, t0))
  {
    VerdictIsRefusal(o, tr, r, t0);
    HistoryTells(o, tr, r, t0);
    if HasShape(r) && r.op != Create { VerdictOnContext(o, tr, r, t0); }
  }

  // ---------------------------------------------------------------- what a reservation holds

  /** The time to live given to a reservation that continues the entry `e`. */
  ghost predicate LivesFor(o: Options, r: Request, e: Entry, now: int, ttl: Option<int>) {
    match r.ttlSeconds
    case Some(x) => ttl == Some(if x <= o.maxTtlSeconds then x else o.maxTtlSeconds)
    case None =>
      if r.op != Fork then ttl == if e.ttlSeconds == 0 then None else Some(e.ttlSeconds)
      else if e.expiresAt.None? then ttl == None
      else
        // The least positive number of whole seconds that does not cut the parent's life short.
        && ttl.Some? && ttl.value >= 1
        && e.expiresAt.value <= now + 1_000_000 * ttl.value
        && (ttl.value > 1 ==> now + 1_000_000 * (ttl.value - 1) < e.expiresAt.value)
  }

  lemma TtlMeans(o: Options, r: Request, e: Entry, now: int)
    requires r.op != Create
    ensures LivesFor(o, r, e, now, EffectiveTtl(o, r, e, now))
  {}

  /** A granted reservation holds the request, the transcript history gives the context, and a time to live. */
  lemma GrantedHolds(o: Options, tr: Trace, r: Request, t0: int, t1: int, t2: int, newId: string)
    requires Good(o, tr) && Fingerprinted(o, tr.state) && Admissible(o, tr, r, t0)
    ensures var (t, out) := Reserve(o, tr.state, r, t0, t1, t2, newId);
            && out.Ok? && out.value.id == newId && out.value.request == r
            && newId in t.reservations && t.reservations[newId] == out.value
            && t.idempotency[IdemKey(r.owner, CompleteAction, r.key)].Busy?
            && out.value.baseTranscript ==
               (if r.op == Create then [] else Replay(tr.log, r.contextId.value).value.transcript)
            && out.value.parentId == (if r.op == Fork then r.contextId else None)
            && out.value.parentVersion == (if r.op == Fork then r.baseVersion else None)
            && (r.op == Create ==>
                  out.value.ttlSeconds == Some(
                    var asked := if r.ttlSeconds.Some? then r.ttlSeconds.value else o.defaultTtlSeconds;
                    if asked <= o.maxTtlSeconds then asked else o.maxTtlSeconds))
            && (r.op != Create ==>
                  LivesFor(o, r, tr.state.contexts[r.contextId.value], t1, out.value.ttlSeconds))
  {
    GrantedExactlyWhen(o, tr, r, t0, t1, t2, newId);
    if r.op != Create {
      var id := r.contextId.value;
      Seen(o, tr, id, t0);
      SweptContext(o, tr.state, id, t0);
      assert Sweep(o, tr.state, t0).contexts[id] == tr.state.contexts[id];
      TtlMeans(o, r, tr.state.contexts[id], t1);
    }
  }

  /** A receipt says what history then says of the context, and whose turn it was. */
  lemma ReceiptIsAccurate(o: Options, tr: Trace, c: Command)
    requires Good(o, tr) && c.DoCommit?
    requires Commit(o, tr.state, c.handle, c.assistant, c.t0, c.t1, c.factory).1.Ok?
    ensures var log, v := Step(o, tr, c).log, c.handle;
            var receipt := Commit(o, tr.state, v, c.assistant, c.t0, c.t1, c.factory).1.value;
            && Replay(log, receipt.contextId).Some?
            && Replay(log, receipt.contextId).value.version == receipt.version
            && Replay(log, receipt.contextId).value.owner == v.request.owner
            && receipt.op == v.request.op && receipt.state == Active
            && (receipt.op in {Append, Reset} ==> Some(receipt.contextId) == v.request.contextId)
            && receipt.parentId == v.parentId && receipt.parentVersion == v.parentVersion
  {
    CommitKeepsFaithful(o, tr, c);
    assert ReservationLinked(tr.state, c.handle.id);
    var next := Step(o, tr, c);
    var id := Commit(o, tr.state, c.handle, c.assistant, c.t0, c.t1, c.factory).1.value.contextId;
    assert Replay(next.log, id) == Some(ViewOf(next.state.contexts[id]));
  }

  /** The committed context is active, unlocked, and lives for the reservation's time to live from the commit on. */
  lemma CommitSetsExpiry(o: Options, s: State, v: Reservation, a: Message, t0: int, t1: int, f: nat -> string)
    requires Commit(o, s, v, a, t0, t1, f).1.Ok?
    ensures var (t, out) := Commit(o, s, v, a, t0, t1, f);
            && out.value.contextId in t.contexts
            && var e := t.contexts[out.value.contextId];
               && e.state == Active && e.reservationId.None? && e.expiresAt == out.value.expiresAt
               && (v.ttlSeconds.Some? ==>
                     e.expiresAt == Some(t0 + 1_000_000 * v.ttlSeconds.value) && e.ttlSeconds == v.ttlSeconds.value)
               && (v.ttlSeconds.None? ==> e.expiresAt == None && e.ttlSeconds == 0)
  {}

  /** Draw `i` is a well-formed id that some context already has. */
  predicate Clashes(s: State, f: nat -> string, i: nat) { IsContextId(f(i)) && f(i) in s.contexts }

  /** The first of eight draws that does not clash decides: it is the id if it is well formed, and an error if not. */
  lemma {:induction false} DrawsExactly(s: State, f: nat -> string, i: nat)
    requires i <= 8
    ensures NextContextId(s, f, i) == Err(ContextIdCollisions) <==> forall j: nat :: i <= j < 8 ==> Clashes(s, f, j)
    ensures forall k: nat :: i <= k < 8 && !Clashes(s, f, k) && (forall j: nat :: i <= j < k ==> Clashes(s, f, j)) ==>
              NextContextId(s, f, i) == if IsContextId(f(k)) then Ok(f(k)) else Err(Fail(ParamsInvalid))
    decreases 8 - i
  {
    if i < 8 {
      DrawsExactly(s, f, i + 1);
      if !Clashes(s, f, i) { assert NextContextId(s, f, i) != Err(ContextIdCollisions); }
    }
  }

  // ---------------------------------------------------------------- how long outcomes are remembered

  /** The key a command records an outcome for, and the clock reading it is recorded at. */
  function Settled(c: Command): IdemKey
    requires c.DoCommit? || c.DoAbort? || c.DoRelease?
  {
    match c
    case DoCommit(v, _, _, _, _) => IdemKey(v.request.owner, CompleteAction, v.request.key)
    case DoAbort(v, _, _, _) => IdemKey(v.request.owner, CompleteAction, v.request.key)
    case DoRelease(owner, _, _, key, _, _, _) => IdemKey(owner, ReleaseAction, key)
  }

  function SettledAt(c: Command): int
    requires c.DoCommit? || c.DoAbort? || c.DoRelease?
  {
    match c
    case DoCommit(_, _, _, t1, _) => t1
    case DoAbort(_, _, t0, _) => t0
    case DoRelease(_, _, _, _, _, _, t2) => t2
  }

  /** The command takes effect; an abort also sweeps, at `t1`, and may forget its own outcome then. */
  ghost predicate TakesEffect(o: Options, s: State, c: Command) {
    match c
    case DoCommit(v, a, t0, t1, f) => Commit(o, s, v, a, t0, t1, f).1.Ok?
    case DoAbort(v, _, t0, t1) => IsActive(s, v) && t1 < t0 + o.idempotencyTtl
    case DoRelease(_, _, _, _, _, _, _) => ReleaseHappens(o, s, c)
    case _ => false
  }

  /** What is recorded. */
  ghost predicate Tells(o: Options, s: State, c: Command, x: Outcome) {
    match c
    case DoCommit(v, a, t0, t1, f) => x.Completed? && Ok(x.receipt) == Commit(o, s, v, a, t0, t1, f).1
    case DoAbort(v, code, _, _) => x.Failed? && x.requestId == v.request.requestId && x.errorCode == code
    case DoRelease(owner, id, base, key, t0, t1, t2) =>
      && x.Completed? && Ok(x.receipt) == ReleaseContext(o, s, owner, id, base, key, t0, t1, t2).1
      && x.contextId == Some(id) && x.baseVersion == Some(base)
    case _ => false
  }

  lemma EffectIsRecorded(o: Options, tr: Trace, c: Command)
    requires TakesEffect(o, tr.state, c)
    ensures var s := Step(o, tr, c).state;
            && Settled(c) in s.idempotency && Tells(o, tr.state, c, s.idempotency[Settled(c)])
            && s.idempotency[Settled(c)].retainUntil == SettledAt(c) + o.idempotencyTtl
  {}

  /**
   The outcome of a commit, an abort or a release is kept, as it was, by every continuation whose sweeps come before
   the idempotency time to live has passed, and nothing is committed under that key again. A sweep forgets it exactly
   from then on.
   */
  lemma OutcomeIsRemembered(o: Options, tr: Trace, c: Command, cs: seq<Command>)
    requires Good(o, tr) && TakesEffect(o, tr.state, c) && FreshIds(o, Step(o, tr, c), cs)
    requires Retains(cs, SettledAt(c) + o.idempotencyTtl)
    ensures var next, last, k := Step(o, tr, c), Run(o, Step(o, tr, c), cs), Settled(c);
            && k in last.state.idempotency && Tells(o, tr.state, c, last.state.idempotency[k])
            && (forall i :: |next.log| <= i < |last.log| ==> last.log[i].key != k)
            && (forall t :: Taken(last.state, k, t) <==> t < SettledAt(c) + o.idempotencyTtl)
  {
    EffectIsRecorded(o, tr, c);
    StepKeepsGood(o, tr, c);
    KeyMutatesAtMostOnce(o, Step(o, tr, c), cs, Settled(c));
  }

  // ---------------------------------------------------------------- how long contexts are remembered

  predicate Buried(s: State, id: string, until: int) {
    id in s.contexts && s.contexts[id].state != Active && s.contexts[id].tombstoneUntil == Some(until)
  }

  /** `t` still has the entry that `s` has. */
  predicate Leaves(s: State, t: State, id: string) {
    id in s.contexts && id in t.contexts && t.contexts[id] == s.contexts[id]
  }

  lemma SweepLeaves(o: Options, s: State, id: string, until: int, t: int)
    requires Buried(s, id, until) && t < until
    ensures Leaves(s, Sweep(o, s, t), id)
  {}

  lemma CommitLeaves(o: Options, s: State, v: Reservation, a: Message, t0: int, t1: int, f: nat -> string,
                     id: string, until: int)
    requires Linked(s) && Buried(s, id, until)
    ensures Leaves(s, Commit(o, s, v, a, t0, t1, f).0, id)
  {
    if IsActive(s, v) {
      assert ReservationLinked(s, v.id);
      NextContextIdIsUnused(s, f, 0);
    }
  }

  lemma DropLeaves(o: Options, s: State, v: Reservation, code: Option<string>, t0: int, id: string, until: int)
    requires Linked(s) && Buried(s, id, until)
    ensures Leaves(s, Dropped(o, s, v, code, t0), id)
  {
    assert EntryLinked(s, id);
    assert s.contexts[id].reservationId.None? || ReservationLinked(s, s.contexts[id].reservationId.value);
  }

  lemma ReserveLeaves(o: Options, s: State, r: Request, t0: int, t1: int, t2: int, newId: string,
                      id: string, until: int)
    requires Buried(s, id, until) && t0 < until
    ensures Leaves(s, Reserve(o, s, r, t0, t1, t2, newId).0, id)
  {
    SweepLeaves(o, s, id, until, t0);
  }

  lemma ReleaseLeaves(o: Options, s: State, owner: Owner, other: string, base: int, key: string, t1: int, t2: int,
                      id: string, until: int)
    requires Buried(s, id, until)
    ensures Leaves(s, ReleaseOn(o, s, owner, other, base, key, t1, t2).0, id)
  {}

  /** A context that is no longer active is left alone until its tombstone time is over. */
  lemma StepKeepsTombstone(o: Options, tr: Trace, c: Command, id: string, until: int)
    requires Linked(tr.state) && Buried(tr.state, id, until)
    requires forall t :: t in SweepTimes(c) ==> t < until
    ensures Leaves(tr.state, Step(o, tr, c).state, id)
  {
    var s := tr.state;
    match c
    case DoCommit(v, a, t0, t1, f) => CommitLeaves(o, s, v, a, t0, t1, f, id, until);
    case DoAbort(v, code, t0, t1) =>
      assert t1 in SweepTimes(c);
      DropLeaves(o, s, v, code, t0, id, until);
      SweepLeaves(o, Dropped(o, s, v, code, t0), id, until, t1);
    case DoReserve(r, t0, t1, t2, newId) =>
      assert t0 in SweepTimes(c);
      ReserveLeaves(o, s, r, t0, t1, t2, newId, id, until);
    case DoRelease(owner, other, base, key, t0, t1, t2) =>
      assert t0 in SweepTimes(c);
      SweepLeaves(o, s, id, until, t0);
      ReleaseLeaves(o, Sweep(o, s, t0), owner, other, base, key, t1, t2, id, until);
    case DoSweep(t0) =>
      assert t0 in SweepTimes(c);
      SweepLeaves(o, s, id, until, t0);
  }

  lemma {:induction false} TombstonesStay(o: Options, tr: Trace, cs: seq<Command>, id: string, until: int)
    requires Good(o, tr) && FreshIds(o, tr, cs) && Buried(tr.state, id, until) && Retains(cs, until)
    ensures Leaves(tr.state, Run(o, tr, cs).state, id)
    decreases |cs|
  {
    if cs != [] {
      assert forall t :: t in SweepTimes(cs[0]) ==> t < until;
      StepKeepsTombstone(o, tr, cs[0], id, until);
      StepKeepsGood(o, tr, cs[0]);
      RetainsLater(cs, until);
      TombstonesStay(o, Step(o, tr, cs[0]), cs[1..], id, until);
    }
  }

  /** A context that is no longer active is refused by its state until its tombstone time is over, then not found. */
  lemma BuriedIsRefused(o: Options, tr: Trace, id: string, until: int, r: Request,
                        t0: int, t1: int, t2: int, newId: string)
    requires Good(o, tr) && Fingerprinted(o, tr.state) && Buried(tr.state, id, until)
    requires Eligible(o, tr.state, r, t0) && r.op != Create && r.contextId == Some(id)
    requires r.owner == tr.state.contexts[id].owner
    ensures Reserve(o, tr.state, r, t0, t1, t2, newId).1 ==
            if t0 < until && tr.state.contexts[id].state == Expired
            then Err(StoreError(ContextExpired, Some(tr.state.contexts[id].version)))
            else Err(Fail(NotFound))
  {
    assert Replay(tr.log, id) == Some(ViewOf(tr.state.contexts[id]));
    VerdictIsRefusal(o, tr, r, t0);
  }

  /** That holds after every continuation whose sweeps come before the tombstone time is over. */
  lemma BuriedLater(o: Options, tr: Trace, cs: seq<Command>, id: string, until: int, r: Request,
                    t0: int, t1: int, t2: int, newId: string)
    requires Good(o, tr) && Fingerprinted(o, tr.state) && Buried(tr.state, id, until)
    requires FreshIds(o, tr, cs) && Retains(cs, until)
    requires Eligible(o, Run(o, tr, cs).state, r, t0) && r.op != Create && r.contextId == Some(id)
    requires r.owner == tr.state.contexts[id].owner
    ensures id in Run(o, tr, cs).state.contexts
    ensures Reserve(o, Run(o, tr, cs).state, r, t0, t1, t2, newId).1 ==
            if t0 < until && tr.state.contexts[id].state == Expired
            then Err(StoreError(ContextExpired, Some(tr.state.contexts[id].version)))
            else Err(Fail(NotFound))
  {
    TombstonesStay(o, tr, cs, id, until);
    EveryRunIsGood(o, tr, cs);
    EveryRunIsFingerprinted(o, tr, cs);
    BuriedIsRefused(o, Run(o, tr, cs), id, until, r, t0, t1, t2, newId);
  }

  /**
   A context that a sweep at `t` finds past its expiry answers its owner's requests with the expiry error, naming the
   version it had, for exactly the tombstone time after `t`, whatever happens meanwhile; then it is not found.
   */
  lemma ExpiryIsRemembered(o: Options, tr: Trace, id: string, t: int, cs: seq<Command>, r: Request,
                           t0: int, t1: int, t2: int, newId: string)
    requires Good(o, tr) && Fingerprinted(o, tr.state) && o.tombstoneSeconds > 0
    requires id in tr.state.contexts && tr.state.contexts[id].state == Active && !AliveAt(tr.state.contexts[id], t)
    requires FreshIds(o, Step(o, tr, DoSweep(t)), cs) && Retains(cs, t + 1_000_000 * o.tombstoneSeconds)
    requires var last := Run(o, Step(o, tr, DoSweep(t)), cs);
             Eligible(o, last.state, r, t0) && r.op != Create && r.contextId == Some(id)
             && r.owner == tr.state.contexts[id].owner
    ensures var last := Run(o, Step(o, tr, DoSweep(t)), cs);
            Reserve(o, last.state, r, t0, t1, t2, newId).1 ==
            if t0 < t + 1_000_000 * o.tombstoneSeconds
            then Err(StoreError(ContextExpired, Some(tr.state.contexts[id].version)))
            else Err(Fail(NotFound))
  {
    var next, until := Step(o, tr, DoSweep(t)), t + 1_000_000 * o.tombstoneSeconds;
    SweepBuries(o, tr.state, id, t);
    StepKeepsGood(o, tr, DoSweep(t));
    StepKeepsFingerprints(o, tr, DoSweep(t));
    BuriedLater(o, next, cs, id, until, r, t0, t1, t2, newId);
  }

  lemma SweepBuries(o: Options, s: State, id: string, t: int)
    requires o.tombstoneSeconds > 0 && id in s.contexts && s.contexts[id].state == Active && !AliveAt(s.contexts[id], t)
    ensures Buried(Sweep(o, s, t), id, t + 1_000_000 * o.tombstoneSeconds)
    ensures var e := Sweep(o, s, t).contexts[id];
            e.state == Expired && e.owner == s.contexts[id].owner && e.version == s.contexts[id].version
  {}

  /** While its tombstone lasts a released context is not found, whatever happens, and its id is not given out again. */
  lemma ReleaseIsFinal(o: Options, tr: Trace, c: Command, next: Trace, cs: seq<Command>, r: Request,
                       t0: int, t1: int, t2: int, newId: string)
    requires Good(o, tr) && Fingerprinted(o, tr.state) && c.DoRelease? && ReleaseHappens(o, tr.state, c)
    requires next == Step(o, tr, c)
    requires FreshIds(o, next, cs) && Retains(cs, c.t1 + 1_000_000 * o.tombstoneSeconds)
    requires Eligible(o, Run(o, next, cs).state, r, t0) && r.op != Create && r.contextId == Some(c.contextId)
    requires r.owner == c.owner
    ensures c.contextId in Run(o, next, cs).state.contexts
    ensures Reserve(o, Run(o, next, cs).state, r, t0, t1, t2, newId).1 == Err(Fail(NotFound))
  {
    ReleaseKeepsAll(o, tr, c);
    BuriedLater(o, next, cs, c.contextId, c.t1 + 1_000_000 * o.tombstoneSeconds, r, t0, t1, t2, newId);
  }

  lemma ReleaseKeepsAll(o: Options, tr: Trace, c: Command)
    requires Good(o, tr) && Fingerprinted(o, tr.state) && c.DoRelease? && ReleaseHappens(o, tr.state, c)
    ensures var next := Step(o, tr, c);
            && Good(o, next) && Fingerprinted(o, next.state)
            && Buried(next.state, c.contextId, c.t1 + 1_000_000 * o.tombstoneSeconds)
            && next.state.contexts[c.contextId].state == Released && next.state.contexts[c.contextId].owner == c.owner
  {
    ReleaseBuries(o, tr, c);
    StepKeepsGood(o, tr, c);
    StepKeepsFingerprints(o, tr, c);
  }

  lemma ReleaseBuries(o: Options, tr: Trace, c: Command)
    requires c.DoRelease? && ReleaseHappens(o, tr.state, c)
    ensures var s := Step(o, tr, c).state;
            && Buried(s, c.contextId, c.t1 + 1_000_000 * o.tombstoneSeconds)
            && s.contexts[c.contextId].state == Released && s.contexts[c.contextId].owner == c.owner
  {}

  // ---------------------------------------------------------------- when a release happens

  /** A release happens exactly for a well-formed request of the owner of a live, free context at its version. */
  lemma ReleasedExactlyWhen(o: Options, tr: Trace, c: Command)
    requires Good(o, tr) && Fingerprinted(o, tr.state) && c.DoRelease?
    ensures ReleaseHappens(o, tr.state, c) <==>
              && Release in o.supported && IsContextId(c.contextId) && (exists x :: x in c.key && !IsSpace(x))
              && !Taken(tr.state, IdemKey(c.owner, ReleaseAction, c.key), c.t0)
              && c.contextId in tr.state.contexts && AliveAt(tr.state.contexts[c.contextId], c.t0)
              && Free(tr.state, c.contextId)
              && Replay(tr.log, c.contextId).Some?
              && Replay(tr.log, c.contextId).value.owner == c.owner
              && Replay(tr.log, c.contextId).value.version == c.base
  {
    assert IsBlank(c.key) <==> !exists x :: x in c.key && !IsSpace(x);
    SweptContext(o, tr.state, c.contextId, c.t0);
    if KnownAt(o, tr.state, c.contextId, c.t0) { Seen(o, tr, c.contextId, c.t0); }
  }

  /** The request to release is one the store takes up, under a key that is not taken. */
  ghost predicate MayRelease(o: Options, tr: Trace, c: Command)
    requires c.DoRelease?
  {
    && Release in o.supported && IsContextId(c.contextId) && (exists x :: x in c.key && !IsSpace(x))
    && !Taken(tr.state, IdemKey(c.owner, ReleaseAction, c.key), c.t0)
  }

  /** Which answer a release gets that does not happen, under a fresh key. */
  lemma ReleaseRefusedExactlyWhen(o: Options, tr: Trace, c: Command)
    requires Good(o, tr) && Fingerprinted(o, tr.state) && c.DoRelease? && MayRelease(o, tr, c)
    ensures var out := ReleaseContext(o, tr.state, c.owner, c.contextId, c.base, c.key, c.t0, c.t1, c.t2).1;
            var known, view := KnownAt(o, tr.state, c.contextId, c.t0), Replay(tr.log, c.contextId);
            && (known ==> view.Some?)
            && (out == Err(Fail(NotFound)) <==> !known || (view.value.owner == c.owner && view.value.released))
            && (out == Err(Fail(Forbidden)) <==> known && view.value.owner != c.owner)
            && (known && view.value.owner == c.owner && !view.value.released ==>
                  var alive := AliveAt(tr.state.contexts[c.contextId], c.t0);
                  var fits := Free(tr.state, c.contextId) && view.value.version == c.base;
                  && (out == Err(StoreError(ContextExpired, Some(view.value.version))) <==> !alive)
                  && (out == Err(StoreError(VersionConflict, Some(view.value.version))) <==> alive && !fits)
                  && (out.Ok? <==> alive && fits)
                  && (out.Ok? ==> out.value == Receipt(c.contextId, c.base + 1, Release, Released, None, None, None)))
  {
    assert IsBlank(c.key) <==> !exists x :: x in c.key && !IsSpace(x);
    SweptShows(o, tr, c.contextId, c.t0);
    ReleaseOnShown(o, tr, c, Sweep(o, tr.state, c.t0));
  }

  lemma ReleaseOnShown(o: Options, tr: Trace, c: Command, swept: State)
    requires c.DoRelease? && Shows(o, tr, c.contextId, c.t0, swept)
    requires Release in o.supported && IsContextId(c.contextId) && !IsBlank(c.key)
    requires ReleaseKey(c.owner, c.key) !in swept.idempotency
    ensures var out := ReleaseOn(o, swept, c.owner, c.contextId, c.base, c.key, c.t1, c.t2).1;
            var known, view := KnownAt(o, tr.state, c.contextId, c.t0), Replay(tr.log, c.contextId);
            && (known ==> view.Some?)
            && (out == Err(Fail(NotFound)) <==> !known || (view.value.owner == c.owner && view.value.released))
            && (out == Err(Fail(Forbidden)) <==> known && view.value.owner != c.owner)
            && (known && view.value.owner == c.owner && !view.value.released ==>
                  var alive := AliveAt(tr.state.contexts[c.contextId], c.t0);
                  var fits := Free(tr.state, c.contextId) && view.value.version == c.base;
                  && (out == Err(StoreError(ContextExpired, Some(view.value.version))) <==> !alive)
                  && (out == Err(StoreError(VersionConflict, Some(view.value.version))) <==> alive && !fits)
                  && (out.Ok? <==> alive && fits)
                  && (out.Ok? ==> out.value == Receipt(c.contextId, c.base + 1, Release, Released, None, None, None)))
  {}

  /** Under a taken key a release gives the recorded receipt again, for the same context and version, or conflicts. */
  lemma ReleaseIsReplayedExactlyWhen(o: Options, s: State, c: Command)
    requires c.DoRelease? && Release in o.supported && IsContextId(c.contextId) && !IsBlank(c.key)
    requires Taken(s, IdemKey(c.owner, ReleaseAction, c.key), c.t0)
    ensures var x := s.idempotency[IdemKey(c.owner, ReleaseAction, c.key)];
            var (t, out) := ReleaseContext(o, s, c.owner, c.contextId, c.base, c.key, c.t0, c.t1, c.t2);
            && t == Sweep(o, s, c.t0)
            && (if x.Completed? && x.contextId == Some(c.contextId) && x.baseVersion == Some(c.base)
                then out == Ok(x.receipt) else out == Err(Fail(IdempotencyConflict)))
  {}

  // ---------------------------------------------------------------- what a settled key reads as

  /** After an abort its key reads as failed, with the request and the code, for as long as it is remembered. */
  lemma AbortedKeyReads(o: Options, tr: Trace, c: Command, cs: seq<Command>, t: int)
    requires Good(o, tr) && c.DoAbort? && TakesEffect(o, tr.state, c) && FreshIds(o, Step(o, tr, c), cs)
    requires Retains(cs, SettledAt(c) + o.idempotencyTtl)
    ensures var last, r := Run(o, Step(o, tr, c), cs), c.handle.request;
            KeyStatus(o, last.state, r.owner, r.key, t).1 == Ok(FailedWith(r.requestId, c.code))
  {
    OutcomeIsRemembered(o, tr, c, cs);
  }

  /** After a commit its key reads as the context of the receipt, as it is then, or as the receipt if that is gone. */
  lemma CommittedKeyReads(o: Options, tr: Trace, c: Command, cs: seq<Command>, t: int)
    requires Good(o, tr) && c.DoCommit? && TakesEffect(o, tr.state, c) && FreshIds(o, Step(o, tr, c), cs)
    requires Retains(cs, SettledAt(c) + o.idempotencyTtl)
    ensures var last, r := Run(o, Step(o, tr, c), cs), c.handle.request;
            var receipt := Commit(o, tr.state, c.handle, c.assistant, c.t0, c.t1, c.factory).1.value;
            KeyStatus(o, last.state, r.owner, r.key, t).1 ==
            if receipt.contextId in last.state.contexts
            then ContextStatus(Sweep(o, last.state, t), r.owner, receipt.contextId)
            else Ok(Retained(receipt.contextId, receipt.version, Active, receipt.expiresAt))
  {
    OutcomeIsRemembered(o, tr, c, cs);
  }
}
