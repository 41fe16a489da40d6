/**
 The transition functions of the NWP stateful LLM context store.

 A store holds three linked tables: the retained contexts, the outcome recorded for each
 idempotency key, and the reservations that are still running. Every operation of the store is
 given here as a function from a state (and the clock readings the call makes) to the next state
 and the value returned or the error raised. `ContextStoreClass` proves the imperative methods
 against these functions and `ContextStoreRuns` proves what holds over every run of them.

 Instants are integers in microseconds; durations named `...Seconds` are in seconds.
 */
module ContextStore {
  import opened Common

  // ---------------------------------------------------------------- values

  datatype Owner = Owner(nid: string, scope: string)

  datatype Message = Message(role: string, content: Option<string>, toolCalls: Option<seq<string>>)

  datatype Binding = Binding(
    model: string, systemMessages: seq<Message>, runtimeRevision: string, tools: Option<seq<string>>)

  datatype Operation = Create | Append | Fork | Reset | Release

  datatype Request = Request(
    op: Operation, owner: Owner, binding: Binding, messages: seq<Message>,
    key: string, requestId: string,
    contextId: Option<string>, baseVersion: Option<int>, ttlSeconds: Option<int>)

  datatype Reservation = Reservation(
    id: string, request: Request, fingerprint: string, baseTranscript: seq<Message>,
    ttlSeconds: Option<int>, parentId: Option<string>, parentVersion: Option<int>)

  datatype EntryState = Active | Expired | Released

  datatype Entry = Entry(
    owner: Owner, version: int, state: EntryState, binding: Binding, fingerprint: string,
    transcript: seq<Message>, ttlSeconds: int, expiresAt: Option<int>,
    tombstoneUntil: Option<int>, reservationId: Option<string>)

  datatype Receipt = Receipt(
    contextId: string, version: int, op: Operation, state: EntryState, expiresAt: Option<int>,
    parentId: Option<string>, parentVersion: Option<int>)

  datatype Action = CompleteAction | ReleaseAction

  datatype IdemKey = IdemKey(owner: Owner, action: Action, key: string)

  datatype Outcome =
    | Busy(requestId: string, reservationId: string, retainUntil: int)
    | Failed(requestId: string, errorCode: Option<string>, retainUntil: int)
    | Completed(receipt: Receipt, completedBy: Option<string>,
                contextId: Option<string>, baseVersion: Option<int>, retainUntil: int)

  datatype Options = Options(
    maxContexts: int, defaultTtlSeconds: int, maxTtlSeconds: int, tombstoneSeconds: int,
    idempotencyTtl: int, supported: set<Operation>, fingerprint: Binding -> string)

  datatype Code =
    | ParamsInvalid | IdempotencyConflict | VersionConflict | BindingMismatch | LimitExceeded
    | OperationUnsupported | ContextExpired | NotFound | Forbidden

  datatype Error =
    | StoreError(code: Code, currentVersion: Option<int>)
    | ReservationNotActive
    | ContextIdCollisions

  datatype State = State(
    contexts: map<string, Entry>, idempotency: map<IdemKey, Outcome>,
    reservations: map<string, Reservation>)

  const EMPTY := State(map[], map[], map[])

  function Fail(code: Code): Error { StoreError(code, None) }

  function Seconds(n: int): int { n * 1_000_000 }

  // ---------------------------------------------------------------- request checks

  predicate IsContextIdChar(c: char) {
    'A' <= c <= 'Z' || 'a' <= c <= 'z' || '0' <= c <= '9' || c == '_' || c == '-'
  }

  predicate IsContextId(s: string) {
    22 <= |s| <= 128 && forall i :: 0 <= i < |s| ==> IsContextIdChar(s[i])
  }

  /** `role.lower() == "system"`. */
  predicate IsSystemRole(role: string) {
    |role| == 6 && forall i :: 0 <= i < 6 ==> role[i] == "system"[i] || role[i] == "SYSTEM"[i]
  }

  predicate HasSystemMessage(messages: seq<Message>) {
    exists i :: 0 <= i < |messages| && IsSystemRole(messages[i].role)
  }

  predicate Allocates(op: Operation) { op == Create || op == Fork }

  function Validate(r: Request): Option<Error> {
    if r.op == Release then Some(Fail(ParamsInvalid))
    else if IsBlank(r.key) then Some(Fail(ParamsInvalid))
    else if r.ttlSeconds.Some? && r.ttlSeconds.value <= 0 then Some(Fail(ParamsInvalid))
    else if r.op == Create && (r.contextId.Some? || r.baseVersion.Some?) then Some(Fail(ParamsInvalid))
    else if r.op != Create && (r.contextId.None? || r.baseVersion.None?) then Some(Fail(ParamsInvalid))
    else if r.op != Create && !IsContextId(r.contextId.value) then Some(Fail(ParamsInvalid))
    else if r.op != Fork && r.messages == [] then Some(Fail(ParamsInvalid))
    else if (r.op == Append || r.op == Fork) && HasSystemMessage(r.messages) then Some(Fail(BindingMismatch))
    else None
  }

  function KeyOf(r: Request): IdemKey { IdemKey(r.owner, CompleteAction, r.key) }

  function ClampTtl(o: Options, seconds: int): int { Min(seconds, o.maxTtlSeconds) }

  /** `int((d + 0.999999 s))` for a duration `d` in microseconds: truncation toward zero. */
  function CeilSeconds(d: int): int {
    if d + 999_999 >= 0 then (d + 999_999) / 1_000_000 else -((-(d + 999_999)) / 1_000_000)
  }

  function EffectiveTtl(o: Options, r: Request, e: Entry, now: int): Option<int> {
    if r.ttlSeconds.Some? then Some(ClampTtl(o, r.ttlSeconds.value))
    else if r.op == Fork then
      if e.expiresAt.None? then None else Some(Max(1, CeilSeconds(e.expiresAt.value - now)))
    else if e.ttlSeconds == 0 then None
    else Some(e.ttlSeconds)
  }

  // ---------------------------------------------------------------- quota

  ghost function Live(s: State, owner: Owner): set<string> {
    set id | id in s.contexts && s.contexts[id].owner == owner && s.contexts[id].state == Active
  }

  ghost function Pending(s: State, owner: Owner): set<string> {
    set id | id in s.reservations && s.reservations[id].request.owner == owner
             && Allocates(s.reservations[id].request.op)
  }

  ghost predicate QuotaFull(o: Options, s: State, owner: Owner) {
    |Live(s, owner)| + |Pending(s, owner)| >= o.maxContexts
  }

  // ---------------------------------------------------------------- sweep

  predicate Lapses(e: Entry, now: int) {
    e.state == Active && e.reservationId.None? && e.expiresAt.Some? && e.expiresAt.value <= now
  }

  function Aged(o: Options, e: Entry, now: int): Entry {
    if Lapses(e, now) then
      e.(state := Expired, expiresAt := None, tombstoneUntil := Some(now + Seconds(o.tombstoneSeconds)))
    else e
  }

  predicate IsGone(e: Entry, now: int) {
    e.state != Active && e.tombstoneUntil.Some? && e.tombstoneUntil.value <= now
  }

  predicate IsForgotten(x: Outcome, now: int) { !x.Busy? && x.retainUntil <= now }

  function Sweep(o: Options, s: State, now: int): State {
    State(
      map id | id in s.contexts && !IsGone(Aged(o, s.contexts[id], now), now) :: Aged(o, s.contexts[id], now),
      map k | k in s.idempotency && !IsForgotten(s.idempotency[k], now) :: s.idempotency[k],
      s.reservations)
  }

  // ---------------------------------------------------------------- reserve

  /** `_require_mutable`: the error that denies `owner` a mutation of the context, if any. */
  function Denied(s: State, owner: Owner, id: string): Option<Error> {
    if id !in s.contexts then Some(Fail(NotFound))
    else if s.contexts[id].owner != owner then Some(Fail(Forbidden))
    else if s.contexts[id].state == Expired then
      Some(StoreError(ContextExpired, Some(s.contexts[id].version)))
    else if s.contexts[id].state == Released then Some(Fail(NotFound))
    else None
  }

  /** The check that decides a reservation, on a swept state. */
  ghost function Refusal(o: Options, s: State, r: Request): Option<Error> {
    if Validate(r).Some? then Validate(r)
    else if r.op !in o.supported then Some(Fail(OperationUnsupported))
    else if KeyOf(r) in s.idempotency then Some(Fail(IdempotencyConflict))
    else if r.op == Create then
      if QuotaFull(o, s, r.owner) then Some(Fail(LimitExceeded)) else None
    else
      var id := r.contextId.GetOr("");
      if Denied(s, r.owner, id).Some? then Denied(s, r.owner, id)
      else
        var e := s.contexts[id];
        if e.reservationId.Some? || Some(e.version) != r.baseVersion then
          Some(StoreError(VersionConflict, Some(e.version)))
        else if r.op != Reset && e.fingerprint != o.fingerprint(r.binding) then Some(Fail(BindingMismatch))
        else if r.op == Fork && QuotaFull(o, s, r.owner) then Some(Fail(LimitExceeded))
        else None
  }

  function NewReservation(o: Options, s: State, r: Request, now: int, newId: string): (v: Reservation)
    requires r.op != Create ==> r.contextId.GetOr("") in s.contexts
  {
    if r.op == Create then
      Reservation(newId, r, o.fingerprint(r.binding), [],
        Some(ClampTtl(o, r.ttlSeconds.GetOr(o.defaultTtlSeconds))), None, None)
    else
      var id := r.contextId.GetOr("");
      var e := s.contexts[id];
      Reservation(newId, r, o.fingerprint(r.binding), e.transcript, EffectiveTtl(o, r, e, now),
        if r.op == Fork then Some(id) else None,
        if r.op == Fork then Some(e.version) else None)
  }

  /** Records a granted reservation in all three tables. */
  function Book(o: Options, s: State, v: Reservation, now: int): State
    requires !Allocates(v.request.op) ==> v.request.contextId.GetOr("") in s.contexts
  {
    var id := v.request.contextId.GetOr("");
    State(
      if Allocates(v.request.op) then s.contexts
      else s.contexts[id := s.contexts[id].(reservationId := Some(v.id))],
      s.idempotency[KeyOf(v.request) := Busy(v.request.requestId, v.id, now + o.idempotencyTtl)],
      s.reservations[v.id := v])
  }

  ghost function Reserve(o: Options, s: State, r: Request, t0: int, t1: int, t2: int, newId: string)
    : (State, Result<Reservation, Error>)
  {
    var swept := Sweep(o, s, t0);
    match Refusal(o, swept, r)
    case Some(e) => (swept, Err(e))
    case None =>
      var v := NewReservation(o, swept, r, t1, newId);
      (Book(o, swept, v, t2), Ok(v))
  }

  // ---------------------------------------------------------------- commit

  predicate IsActive(s: State, v: Reservation) { v.id in s.reservations && s.reservations[v.id] == v }

  /** `_next_context_id`: at most eight draws from the id factory, starting with draw `i`. */
  function NextContextId(s: State, factory: nat -> string, i: nat): Result<string, Error>
    requires i <= 8
    decreases 8 - i
  {
    if i == 8 then Err(ContextIdCollisions)
    else if !IsContextId(factory(i)) then Err(Fail(ParamsInvalid))
    else if factory(i) !in s.contexts then Ok(factory(i))
    else NextContextId(s, factory, i + 1)
  }

  function Turn(v: Reservation, assistant: Message): seq<Message> { v.request.messages + [assistant] }

  function Expiry(v: Reservation, now: int): Option<int> {
    if v.ttlSeconds.Some? then Some(now + Seconds(v.ttlSeconds.value)) else None
  }

  /** The entry a create or fork commit adds. */
  function Born(v: Reservation, assistant: Message, now: int): Entry {
    Entry(v.request.owner, 1, Active, v.request.binding, v.fingerprint,
      (if v.request.op == Fork then v.baseTranscript else []) + Turn(v, assistant),
      v.ttlSeconds.GetOr(0), Expiry(v, now), None, None)
  }

  /** The entry an append or reset commit leaves behind. */
  function Grown(e: Entry, v: Reservation, assistant: Message, now: int): Entry {
    var next := e.(version := e.version + 1, state := Active, reservationId := None,
      expiresAt := Expiry(v, now), ttlSeconds := v.ttlSeconds.GetOr(0));
    if v.request.op == Reset then
      next.(binding := v.request.binding, fingerprint := v.fingerprint, transcript := Turn(v, assistant))
    else next.(transcript := e.transcript + Turn(v, assistant))
  }

  /** The key of the entry a commit writes. */
  function CommitTarget(s: State, v: Reservation, factory: nat -> string): Result<string, Error> {
    if Allocates(v.request.op) then NextContextId(s, factory, 0)
    else if v.request.contextId.GetOr("") !in s.contexts then Err(Fail(NotFound))
    else Ok(v.request.contextId.GetOr(""))
  }

  function Commit(o: Options, s: State, v: Reservation, assistant: Message, t0: int, t1: int, factory: nat -> string)
    : (State, Result<Receipt, Error>)
  {
    if !IsActive(s, v) then (s, Err(ReservationNotActive))
    else match CommitTarget(s, v, factory)
      case Err(e) => (s, Err(e))
      case Ok(id) =>
        var entry := if Allocates(v.request.op) then Born(v, assistant, t0)
                     else Grown(s.contexts[id], v, assistant, t0);
        var receipt := Receipt(id, entry.version, v.request.op, Active, Expiry(v, t0), v.parentId, v.parentVersion);
        (State(
           s.contexts[id := entry],
           s.idempotency[KeyOf(v.request) :=
             Completed(receipt, Some(v.request.requestId), None, None, t1 + o.idempotencyTtl)],
           s.reservations - {v.id}),
         Ok(receipt))
  }

  // ---------------------------------------------------------------- abort

  function Unlocked(s: State, v: Reservation): map<string, Entry> {
    var id := v.request.contextId.GetOr("");
    if id in s.contexts && s.contexts[id].reservationId == Some(v.id) then
      s.contexts[id := s.contexts[id].(reservationId := None)]
    else s.contexts
  }

  /** The reservation is gone, its context unlocked and its key marked as failed. */
  function Dropped(o: Options, s: State, v: Reservation, code: Option<string>, t0: int): State {
    State(
      Unlocked(s, v),
      s.idempotency[KeyOf(v.request) := Failed(v.request.requestId, code, t0 + o.idempotencyTtl)],
      s.reservations - {v.id})
  }

  function Abort(o: Options, s: State, v: Reservation, code: Option<string>, t0: int, t1: int)
    : (State, Option<Error>)
  {
    if !IsActive(s, v) then (s, Some(ReservationNotActive))
    else
      (Sweep(o, Dropped(o, s, v, code, t0), t1), None)
  }

  // ---------------------------------------------------------------- release

  function ReleaseRefusal(o: Options, s: State, owner: Owner, id: string, base: int, key: string): Option<Error> {
    if Release !in o.supported then Some(Fail(OperationUnsupported))
    else if !IsContextId(id) then Some(Fail(ParamsInvalid))
    else if IsBlank(key) then Some(Fail(ParamsInvalid))
    else None
  }

  function ReleaseKey(owner: Owner, key: string): IdemKey { IdemKey(owner, ReleaseAction, key) }

  predicate IsReplayOf(x: Outcome, id: string, base: int) {
    x.Completed? && x.contextId == Some(id) && x.baseVersion == Some(base)
  }

  function ReleasedEntry(o: Options, e: Entry, now: int): Entry {
    e.(version := e.version + 1, state := Released, expiresAt := None,
       tombstoneUntil := Some(now + Seconds(o.tombstoneSeconds)))
  }

  function ReleaseOn(o: Options, s: State, owner: Owner, id: string, base: int, key: string, t1: int, t2: int)
    : (State, Result<Receipt, Error>)
  {
    var k := ReleaseKey(owner, key);
    if ReleaseRefusal(o, s, owner, id, base, key).Some? then
      (s, Err(ReleaseRefusal(o, s, owner, id, base, key).value))
    else if k in s.idempotency then
      if IsReplayOf(s.idempotency[k], id, base) then (s, Ok(s.idempotency[k].receipt))
      else (s, Err(Fail(IdempotencyConflict)))
    else if Denied(s, owner, id).Some? then (s, Err(Denied(s, owner, id).value))
    else if s.contexts[id].reservationId.Some? || s.contexts[id].version != base then
      (s, Err(StoreError(VersionConflict, Some(s.contexts[id].version))))
    else
      var next := ReleasedEntry(o, s.contexts[id], t1);
      var receipt := Receipt(id, next.version, Release, Released, None, None, None);
      (State(
         s.contexts[id := next],
         s.idempotency[k := Completed(receipt, None, Some(id), Some(base), t2 + o.idempotencyTtl)],
         s.reservations),
       Ok(receipt))
  }

  function ReleaseContext(o: Options, s: State, owner: Owner, id: string, base: int, key: string,
                          t0: int, t1: int, t2: int)
    : (State, Result<Receipt, Error>)
  {
    ReleaseOn(o, Sweep(o, s, t0), owner, id, base, key, t1, t2)
  }

  // ---------------------------------------------------------------- status

  datatype Status =
    | Running(requestId: string)
    | RunningOn(contextId: string, version: int, expiresAt: Option<int>, runningRequest: Option<string>)
    | FailedWith(failedRequest: string, errorCode: Option<string>)
    | Retained(contextId: string, version: int, state: EntryState, expiresAt: Option<int>)

  function ContextStatus(s: State, owner: Owner, id: string): Result<Status, Error> {
    if !IsContextId(id) then Err(Fail(ParamsInvalid))
    else if id !in s.contexts then Err(Fail(NotFound))
    else if s.contexts[id].owner != owner then Err(Fail(Forbidden))
    else
      var e := s.contexts[id];
      // An empty reservation id is falsy in the source; generated ids never are.
      if e.reservationId.Some? && e.reservationId.value != "" then
        Ok(RunningOn(id, e.version, e.expiresAt,
          if e.reservationId.value in s.reservations
          then Some(s.reservations[e.reservationId.value].request.requestId) else None))
      else Ok(Retained(id, e.version, e.state, e.expiresAt))
  }

  /** `status(owner, idempotency_key=key)` on a swept state; `t` is the sweep of the inner status call. */
  function KeyStatus(o: Options, s: State, owner: Owner, key: string, t: int): (State, Result<Status, Error>) {
    var k := IdemKey(owner, CompleteAction, key);
    if k !in s.idempotency then (s, Err(Fail(NotFound)))
    else match s.idempotency[k]
      case Busy(requestId, _, _) => (s, Ok(Running(requestId)))
      case Failed(requestId, code, _) => (s, Ok(FailedWith(requestId, code)))
      case Completed(receipt, _, _, _, _) =>
        if receipt.contextId in s.contexts then
          (Sweep(o, s, t), ContextStatus(Sweep(o, s, t), owner, receipt.contextId))
        else (s, Ok(Retained(receipt.contextId, receipt.version, receipt.state, receipt.expiresAt)))
  }
}
