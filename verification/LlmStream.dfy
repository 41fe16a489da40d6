/**
 A stateful streaming completion: the coordinator that decides one reservation, and the server loop that
 numbers and closes the stream the client sees.

 What the model source, the authorizer and the consumer do is given as data: the events of the source, the
 authorizer's answer, and the frame at which the consumer closes the stream, if it does.
 */
module LlmStream {
  import opened Common
  import opened ContextStore
  import opened ContextStoreClass
  import opened PrefixCodes

  const UNAVAILABLE := "NWP-NODE-UNAVAILABLE"

  datatype Stop = Complete | Errored

  datatype Chunk = Chunk(
    delta: Option<string>, calls: Option<seq<string>>, stop: Option<Stop>,
    error: Option<string>, usage: Option<string>, context: Option<Receipt>)

  /** `data` is absent when the payload is not a list of chunks. */
  datatype Frame = Frame(number: int, last: bool, errorCode: Option<string>, data: Option<seq<Chunk>>)

  datatype Event = Supplies(frame: Frame) | Breaks(code: string) | Interrupts

  datatype Auth = Granted | Refused(code: string) | Withdrawn

  /** How the coordinator ends, before it settles the reservation. */
  datatype Closing =
    | Broke(code: string)
    | Interrupted
    | Left
    | FailsWith(frame: Frame, code: string)
    | TurnedDown(code: string)
    | Settles(frame: Frame, assistant: Message)

  datatype Plan = Plan(emitted: seq<Frame>, closing: Closing)

  datatype Ending = Finished | Raised(code: string) | Cancelled | Closed

  /** The clock readings and id draws of the settling calls. */
  datatype Draws = Draws(t0: int, t1: int, t2: int, t3: int, factory: nat -> string)

  // ---------------------------------------------------------------- frames

  predicate TerminalOnly(c: Chunk) { c.stop.Some? || c.error.Some? || c.usage.Some? || c.context.Some? }

  predicate HasTerminalField(cs: seq<Chunk>) { exists i :: 0 <= i < |cs| && TerminalOnly(cs[i]) }

  predicate Failing(f: Frame, cs: seq<Chunk>) {
    f.errorCode.Some? || exists i :: 0 <= i < |cs| && (cs[i].stop == Some(Errored) || cs[i].error.Some?)
  }

  predicate Stops(cs: seq<Chunk>) { exists i :: 0 <= i < |cs| && cs[i].stop.Some? }

  /** All content deltas, in order. */
  function Text(cs: seq<Chunk>): string { PutAll((c: Chunk) => c.delta.GetOr(""), cs) }

  /** All tool calls, in order. */
  function Calls(cs: seq<Chunk>): seq<string> { PutAll((c: Chunk) => c.calls.GetOr([]), cs) }

  function Strip(cs: seq<Chunk>): seq<Chunk> { if cs == [] then [] else [cs[0].(context := None)] + Strip(cs[1..]) }

  function Sanitized(f: Frame): Frame { if f.data.None? then f else f.(data := Some(Strip(f.data.value))) }

  /** The receipt goes on the last chunk that carries a stop reason. */
  function Attach(cs: seq<Chunk>, r: Receipt): seq<Chunk> {
    if cs == [] then []
    else
      var n := |cs| - 1;
      if cs[n].stop.Some? then cs[n := cs[n].(context := Some(r))] else Attach(cs[..n], r) + [cs[n]]
  }

  function WithReceipt(f: Frame, r: Receipt): Frame {
    if f.data.None? then f else f.(data := Some(Attach(f.data.value, r)))
  }

  function AssistantOf(text: string, calls: seq<string>): Message {
    Message("assistant", if text == "" then None else Some(text), if calls == [] then None else Some(calls))
  }

  // ---------------------------------------------------------------- the coordinator, store aside

  /** `frame.error_code or NODE_UNAVAILABLE`. */
  function FailureCode(f: Frame): string { if f.errorCode.GetOr("") == "" then UNAVAILABLE else f.errorCode.value }

  function AtTerminal(f: Frame, cs: seq<Chunk>, auth: Auth, text: string, calls: seq<string>): Closing {
    if Failing(f, cs) then FailsWith(Sanitized(f).(errorCode := Some(FailureCode(f))), FailureCode(f))
    else if !Stops(cs) then Broke(UNAVAILABLE)
    else match auth
      case Granted => Settles(Sanitized(f), AssistantOf(text, calls))
      case Refused(code) => TurnedDown(code)
      case Withdrawn => Interrupted
  }

  function PlanOf(source: seq<Event>, auth: Auth, closesAt: Option<nat>, text: string, calls: seq<string>,
                  emitted: seq<Frame>): Plan
    decreases |source|
  {
    if source == [] then Plan(emitted, Broke(UNAVAILABLE))
    else match source[0]
      case Breaks(code) => Plan(emitted, Broke(code))
      case Interrupts => Plan(emitted, Interrupted)
      case Supplies(f) =>
        if f.data.None? || (!f.last && HasTerminalField(f.data.value)) then Plan(emitted, Broke(UNAVAILABLE))
        else
          var cs := f.data.value;
          if f.last then Plan(emitted, AtTerminal(f, cs, auth, text + Text(cs), calls + Calls(cs)))
          else if closesAt == Some(|emitted|) then Plan(emitted + [Sanitized(f)], Left)
          else PlanOf(source[1..], auth, closesAt, text + Text(cs), calls + Calls(cs), emitted + [Sanitized(f)])
  }

  function Whole(source: seq<Event>, auth: Auth, closesAt: Option<nat>): Plan {
    PlanOf(source, auth, closesAt, "", [], [])
  }

  // ---------------------------------------------------------------- settling the reservation

  function CodeName(c: Code): string {
    match c
    case ParamsInvalid => "NWP-ACTION-PARAMS-INVALID"
    case IdempotencyConflict => "NWP-ACTION-IDEMPOTENCY-CONFLICT"
    case VersionConflict => "NWP-LLM-CONTEXT-VERSION-CONFLICT"
    case BindingMismatch => "NWP-LLM-CONTEXT-BINDING-MISMATCH"
    case LimitExceeded => "NWP-LLM-CONTEXT-LIMIT-EXCEEDED"
    case OperationUnsupported => "NWP-LLM-CONTEXT-OPERATION-UNSUPPORTED"
    case ContextExpired => "NWP-LLM-CONTEXT-EXPIRED"
    case NotFound => "NWP-LLM-CONTEXT-NOT-FOUND"
    case Forbidden => "NWP-LLM-CONTEXT-FORBIDDEN"
  }

  datatype Settlement = Settlement(state: State, emitted: seq<Frame>, ending: Ending)

  /** Abort with `code`, then end as told; an abort that is refused ends in an internal error. */
  function Aborting(o: Options, s: State, v: Reservation, code: string, d: Draws, emitted: seq<Frame>,
                    ending: Ending): Settlement
  {
    var (t, e) := Abort(o, s, v, Some(code), d.t2, d.t3);
    Settlement(t, emitted, if e.None? then ending else Raised(UNAVAILABLE))
  }

  function Settle(o: Options, s: State, v: Reservation, p: Plan, d: Draws): Settlement {
    match p.closing
    case Broke(code) => Aborting(o, s, v, UNAVAILABLE, d, p.emitted, Raised(code))
    case Interrupted => Aborting(o, s, v, UNAVAILABLE, d, p.emitted, Cancelled)
    case Left => Aborting(o, s, v, UNAVAILABLE, d, p.emitted, Closed)
    case TurnedDown(code) => Aborting(o, s, v, code, d, p.emitted, Raised(code))
    case FailsWith(f, code) =>
      var done := Aborting(o, s, v, code, d, p.emitted, Finished);
      if done.ending == Finished then done.(emitted := p.emitted + [f]) else done
    case Settles(f, a) =>
      var (t, r) := Commit(o, s, v, a, d.t0, d.t1, d.factory);
      if r.Ok? then Settlement(t, p.emitted + [WithReceipt(f, r.value)], Finished)
      else if r.error.StoreError? then
        Aborting(o, s, v, CodeName(r.error.code), d, p.emitted, Raised(CodeName(r.error.code)))
      else Aborting(o, s, v, UNAVAILABLE, d, p.emitted, Raised(UNAVAILABLE))
  }

  method AbortReservation(store: InMemoryContextStore, v: Reservation, code: string, d: Draws) returns (ok: bool)
    modifies store
    ensures (store.Now(), ok) ==
            (Abort(store.options, old(store.Now()), v, Some(code), d.t2, d.t3).0, IsActive(old(store.Now()), v))
  {
    var refused := store.TryAbort(v, Some(code), d.t2, d.t3);
    ok := refused.None?;
  }

  /**
   `_coordinate_stream`. Nothing before the settling calls touches the store, so `store` stands for
   the store as it is when the stream is decided, whatever other requests did to it meanwhile.
   */
  method CoordinateStream(
    store: InMemoryContextStore, v: Reservation, source: seq<Event>, auth: Auth, closesAt: Option<nat>, d: Draws)
    returns (emitted: seq<Frame>, ending: Ending)
    modifies store
    ensures Settlement(store.Now(), emitted, ending) ==
            Settle(store.options, old(store.Now()), v, Whole(source, auth, closesAt), d)
  {
    emitted, ending := [], Finished;
    var text: string, calls: seq<string> := "", [];
    var i, resolved := 0, false;
    ghost var plan := Whole(source, auth, closesAt);
    assert source[0..] == source;
    while i < |source|
      invariant 0 <= i <= |source| && !resolved && store.Now() == old(store.Now())
      invariant plan == PlanOf(source[i..], auth, closesAt, text, calls, emitted)
      decreases |source| - i
    {
      var event := source[i];
      assert source[i..][1..] == source[i + 1..];
      if !event.Supplies? || event.frame.data.None? || (!event.frame.last && HasTerminalField(event.frame.data.value)) {
        ending := match event
          case Breaks(code) => Raised(code)
          case Interrupts => Cancelled
          case Supplies(_) => Raised(UNAVAILABLE);
        break;
      }
      var frame, chunks := event.frame, event.frame.data.value;
      text, calls := text + Text(chunks), calls + Calls(chunks);
      if frame.last {
        emitted, ending, resolved := FinishStream(store, v, frame, chunks, text, calls, auth, d, emitted);
        return;
      }
      emitted := emitted + [Sanitized(frame)];
      if closesAt == Some(|emitted| - 1) { ending := Closed; break; }
      i := i + 1;
    }
    if i == |source| { ending := Raised(UNAVAILABLE); }
    var ok := AbortReservation(store, v, UNAVAILABLE, d);
    if !ok { ending := Raised(UNAVAILABLE); }
  }

  /** What happens from the terminal frame on. */
  method FinishStream(
    store: InMemoryContextStore, v: Reservation, frame: Frame, chunks: seq<Chunk>, text: string, calls: seq<string>,
    auth: Auth, d: Draws, before: seq<Frame>)
    returns (emitted: seq<Frame>, ending: Ending, resolved: bool)
    modifies store
    ensures Settlement(store.Now(), emitted, ending) ==
            Settle(store.options, old(store.Now()), v, Plan(before, AtTerminal(frame, chunks, auth, text, calls)), d)
  {
    emitted, ending, resolved := before, Raised(UNAVAILABLE), false;
    if Failing(frame, chunks) {
      var code := FailureCode(frame);
      resolved := AbortReservation(store, v, code, d);
      if resolved { emitted, ending := before + [Sanitized(frame).(errorCode := Some(code))], Finished; }
      return;
    }
    if Stops(chunks) && auth.Refused? {
      resolved := AbortReservation(store, v, auth.code, d);
      if resolved { ending := Raised(auth.code); }
      return;
    }
    if Stops(chunks) && auth.Granted? {
      var receipt := store.TryCommit(v, AssistantOf(text, calls), d.t0, d.t1, d.factory);
      if receipt.Ok? {
        return before + [WithReceipt(Sanitized(frame), receipt.value)], Finished, true;
      }
      if receipt.error.StoreError? {
        resolved := AbortReservation(store, v, CodeName(receipt.error.code), d);
        if resolved { ending := Raised(CodeName(receipt.error.code)); }
        return;
      }
    }
    var ok := AbortReservation(store, v, UNAVAILABLE, d);
    if ok && Stops(chunks) && auth.Withdrawn? { ending := Cancelled; }
  }

  // ---------------------------------------------------------------- when it commits

  /** A frame that is passed on before the terminal one: chunks without any terminal field. */
  predicate Ordinary(e: Event) {
    && e.Supplies? && e.frame.data.Some? && !e.frame.last
    && forall c :: c in e.frame.data.value ==> c.stop.None? && c.error.None? && c.usage.None? && c.context.None?
  }

  /** A terminal frame without an error of any kind that gives a stop reason. */
  predicate Successful(e: Event) {
    && e.Supplies? && e.frame.data.Some? && e.frame.last && e.frame.errorCode.None?
    && (forall c :: c in e.frame.data.value ==> c.stop != Some(Errored) && c.error.None?)
    && (exists c :: c in e.frame.data.value && c.stop.Some?)
  }

  /** The first `k` events are ordinary frames and the consumer stays through all of them. */
  ghost predicate Through(source: seq<Event>, closesAt: Option<nat>, k: nat, base: nat) {
    k <= |source| && (forall i :: 0 <= i < k ==> Ordinary(source[i])) &&
      (closesAt.Some? ==> !(base <= closesAt.value < base + k))
  }

  function ChunksOf(e: Event): seq<Chunk> { if e.Supplies? then e.frame.data.GetOr([]) else [] }

  function AllText(source: seq<Event>): string { PutAll(e => Text(ChunksOf(e)), source) }

  function AllCalls(source: seq<Event>): seq<string> { PutAll(e => Calls(ChunksOf(e)), source) }

  function Forwarded(source: seq<Event>): seq<Frame> {
    PutAll((e: Event) => if e.Supplies? then [Sanitized(e.frame)] else [], source)
  }

  lemma OrdinaryIsPassedOn(
    source: seq<Event>, auth: Auth, closesAt: Option<nat>, text: string, calls: seq<string>, emitted: seq<Frame>)
    requires source != [] && Ordinary(source[0]) && closesAt != Some(|emitted|)
    ensures var f := source[0].frame;
            PlanOf(source, auth, closesAt, text, calls, emitted) ==
            PlanOf(source[1..], auth, closesAt, text + Text(f.data.value), calls + Calls(f.data.value),
                   emitted + [Sanitized(f)])
  {
    assert !HasTerminalField(source[0].frame.data.value);
  }

  /** Everything before the terminal frame is passed on, and its text and tool calls are gathered. */
  lemma {:induction false} PlanAfter(
    source: seq<Event>, auth: Auth, closesAt: Option<nat>, text: string, calls: seq<string>,
    emitted: seq<Frame>, k: nat)
    requires Through(source, closesAt, k, |emitted|)
    ensures |Forwarded(source[..k])| == k
    ensures PlanOf(source, auth, closesAt, text, calls, emitted) ==
            PlanOf(source[k..], auth, closesAt, text + AllText(source[..k]), calls + AllCalls(source[..k]),
                   emitted + Forwarded(source[..k]))
    decreases k
  {
    if k == 0 {
      assert source[0..] == source && emitted + [] == emitted && text + "" == text && calls + [] == calls;
    } else {
      var cs := source[0].frame.data.value;
      var out := Sanitized(source[0].frame);
      assert source[..k][1..] == source[1..][..k - 1] && source[1..][k - 1..] == source[k..];
      OrdinaryIsPassedOn(source, auth, closesAt, text, calls, emitted);
      PlanAfter(source[1..], auth, closesAt, text + Text(cs), calls + Calls(cs), emitted + [out], k - 1);
      Regroup(text, Text(cs), AllText(source[1..][..k - 1]));
      Regroup(calls, Calls(cs), AllCalls(source[1..][..k - 1]));
      Regroup(emitted, [out], Forwarded(source[1..][..k - 1]));
    }
  }

  lemma Regroup<T>(a: seq<T>, b: seq<T>, c: seq<T>)
    ensures a + b + c == a + (b + c)
  {}

  lemma {:induction false} SettlingHasTerminal(
    source: seq<Event>, auth: Auth, closesAt: Option<nat>, text: string, calls: seq<string>,
    emitted: seq<Frame>)
    returns (k: nat)
    requires PlanOf(source, auth, closesAt, text, calls, emitted).closing.Settles?
    ensures k < |source| && Through(source, closesAt, k, |emitted|) && Successful(source[k]) && auth == Granted
    decreases |source|
  {
    var f := source[0].frame;
    if f.last {
      k := 0;
    } else {
      var cs := f.data.value;
      var rest := SettlingHasTerminal(source[1..], auth, closesAt, text + Text(cs), calls + Calls(cs),
                                      emitted + [Sanitized(f)]);
      k := rest + 1;
      forall i | 0 <= i < k ensures Ordinary(source[i]) {
        if i > 0 { assert source[i] == source[1..][i - 1]; }
      }
    }
  }

  /**
   A commit is attempted exactly when some frame is a successful terminal one, every event before it is an ordinary
   frame the consumer took, and the commit stage is authorized; the message committed is an assistant message with the
   concatenation of all content deltas, and of all tool calls, up to and including that frame, each absent if empty.
   */
  lemma SettlesExactlyWhen(source: seq<Event>, auth: Auth, closesAt: Option<nat>)
    ensures Whole(source, auth, closesAt).closing.Settles? <==>
              auth == Granted &&
              exists k :: 0 <= k < |source| && Through(source, closesAt, k, 0) && Successful(source[k])
    ensures auth == Granted ==>
            forall k :: 0 <= k < |source| && Through(source, closesAt, k, 0) && Successful(source[k]) ==>
              var p, text, calls := Whole(source, auth, closesAt), AllText(source[..k + 1]), AllCalls(source[..k + 1]);
              && p.emitted == Forwarded(source[..k])
              && p.closing.Settles? && p.closing.frame == Sanitized(source[k].frame)
              && p.closing.assistant.role == "assistant"
              && p.closing.assistant.content == (if text == "" then None else Some(text))
              && p.closing.assistant.toolCalls == (if calls == [] then None else Some(calls))
  {
    forall k | 0 <= k < |source| && Through(source, closesAt, k, 0) && Successful(source[k]) && auth == Granted
      ensures Whole(source, auth, closesAt) == Plan(Forwarded(source[..k]),
                Settles(Sanitized(source[k].frame), AssistantOf(AllText(source[..k + 1]), AllCalls(source[..k + 1]))))
    {
      PlanAtTerminal(source, closesAt, k);
    }
    if Whole(source, auth, closesAt).closing.Settles? {
      var k := SettlingHasTerminal(source, auth, closesAt, "", [], []);
      assert 0 <= k < |source| && Through(source, closesAt, k, 0) && Successful(source[k]);
    }
    if auth == Granted && exists k :: 0 <= k < |source| && Through(source, closesAt, k, 0) && Successful(source[k]) {
      var k :| 0 <= k < |source| && Through(source, closesAt, k, 0) && Successful(source[k]);
      PlanAtTerminal(source, closesAt, k);
    }
  }

  lemma PlanAtTerminal(source: seq<Event>, closesAt: Option<nat>, k: nat)
    requires k < |source| && Through(source, closesAt, k, 0) && Successful(source[k])
    ensures Whole(source, Granted, closesAt) == Plan(Forwarded(source[..k]),
              Settles(Sanitized(source[k].frame), AssistantOf(AllText(source[..k + 1]), AllCalls(source[..k + 1]))))
  {
    PlanAfter(source, Granted, closesAt, "", [], [], k);
    GatheredTo(source, k);
    assert "" + AllText(source[..k]) == AllText(source[..k]);
    assert [] + AllCalls(source[..k]) == AllCalls(source[..k]);
    assert [] + Forwarded(source[..k]) == Forwarded(source[..k]);
    assert source[k..][0] == source[k];
  }

  lemma GatheredTo(source: seq<Event>, k: nat)
    requires k < |source|
    ensures AllText(source[..k + 1]) == AllText(source[..k]) + Text(ChunksOf(source[k]))
    ensures AllCalls(source[..k + 1]) == AllCalls(source[..k]) + Calls(ChunksOf(source[k]))
  {
    PutAllAppend(e => Text(ChunksOf(e)), source, k);
    PutAllAppend(e => Calls(ChunksOf(e)), source, k);
  }

  // ---------------------------------------------------------------- exactly one of commit and abort

  /** The reservation was committed. */
  ghost predicate Commits(o: Options, s: State, v: Reservation, p: Plan, d: Draws) {
    p.closing.Settles? && Commit(o, s, v, p.closing.assistant, d.t0, d.t1, d.factory).1.Ok?
  }

  /**
   However the stream goes, an active reservation is settled by exactly one of a commit and an abort, and is
   gone afterwards; what was passed on stays passed on, and a committed stream finishes.
   */
  lemma SettledExactlyOnce(o: Options, s: State, v: Reservation, p: Plan, d: Draws)
    requires IsActive(s, v)
    ensures var done := Settle(o, s, v, p, d);
            && v.id !in done.state.reservations
            && (Commits(o, s, v, p, d) ==> done.state == Commit(o, s, v, p.closing.assistant, d.t0, d.t1, d.factory).0)
            && (!Commits(o, s, v, p, d) ==> exists code :: done.state == Abort(o, s, v, Some(code), d.t2, d.t3).0)
            && p.emitted <= done.emitted
            && (done.ending == Finished ==> |done.emitted| == |p.emitted| + 1)
            && (Commits(o, s, v, p, d) ==> done.ending == Finished)
  {
    var done := Settle(o, s, v, p, d);
    if !Commits(o, s, v, p, d) {
      var code :=
        match p.closing
        case FailsWith(_, c) => c
        case TurnedDown(c) => c
        case Settles(_, a) =>
          var r := Commit(o, s, v, a, d.t0, d.t1, d.factory).1;
          if r.Err? && r.error.StoreError? then CodeName(r.error.code) else UNAVAILABLE
        case _ => UNAVAILABLE;
      assert done.state == Abort(o, s, v, Some(code), d.t2, d.t3).0;
    }
  }

  // ---------------------------------------------------------------- without streaming

  /** What the wrapped action does when asked for a whole completion. */
  datatype Completion =
    | CompletionFails(code: string)
    | Answer(stop: Stop, content: Option<string>, calls: Option<seq<string>>)

  /** `_complete` from the reservation on: unlike the coordinator it does not abort when the commit is refused. */
  function CompleteWhole(o: Options, s: State, v: Reservation, c: Completion, auth: Auth, d: Draws): State {
    if c.CompletionFails? then Abort(o, s, v, Some(c.code), d.t2, d.t3).0
    else if c.stop == Errored then Abort(o, s, v, Some(UNAVAILABLE), d.t2, d.t3).0
    else match auth
      case Refused(code) => Abort(o, s, v, Some(code), d.t2, d.t3).0
      case Withdrawn => Abort(o, s, v, Some(UNAVAILABLE), d.t2, d.t3).0
      case Granted => Commit(o, s, v, Message("assistant", c.content, c.calls), d.t0, d.t1, d.factory).0
  }

  /** A whole completion leaves its reservation behind exactly when it gets to commit and has no entry to write. */
  lemma CompletionLeaksExactlyWhen(o: Options, s: State, v: Reservation, c: Completion, auth: Auth, d: Draws)
    requires IsActive(s, v)
    ensures v.id in CompleteWhole(o, s, v, c, auth, d).reservations <==>
              c.Answer? && c.stop == Complete && auth == Granted && CommitTarget(s, v, d.factory).Err?
  {}

  /**
   Such an input: any first create request that is granted, with an id factory whose first draw is malformed. The
   reservation stays, and with it the key and the quota unit it holds.
   */
  lemma MalformedDrawLeaks(o: Options, r: Request, t: int, newId: string, c: Completion, d: Draws)
    requires r.op == Create && Validate(r).None? && Create in o.supported && o.maxContexts > 0
    requires c.Answer? && c.stop == Complete && !IsContextId(d.factory(0))
    ensures var (s, out) := Reserve(o, EMPTY, r, t, t, t, newId);
            && out.Ok? && IsActive(s, out.value)
            && CompleteWhole(o, s, out.value, c, Granted, d) == s
            && newId in s.reservations && KeyOf(r) in s.idempotency && newId in Pending(s, r.owner)
  {
    assert Sweep(o, EMPTY, t) == EMPTY;
    assert Live(EMPTY, r.owner) == {} && Pending(EMPTY, r.owner) == {};
  }

  // ---------------------------------------------------------------- what the client sees

  /** The server refuses a frame out of sequence, or an error code before the end. */
  predicate Acceptable(f: Frame, number: nat) { f.number == number && (f.errorCode.Some? ==> f.last) }

  function FailureFrame(number: nat, code: string): Frame { Frame(number, true, Some(code), Some([])) }

  /** `_send_stream`'s frames, from number `|wire|` on. */
  function Relay(frames: seq<Frame>, ending: Ending, wire: seq<Frame>): seq<Frame>
    decreases |frames|
  {
    var terminal := wire != [] && wire[|wire| - 1].last;
    if terminal then wire
    else if frames == [] then
      match ending
      case Cancelled => wire
      case Raised(code) => wire + [FailureFrame(|wire|, code)]
      case _ => wire + [FailureFrame(|wire|, UNAVAILABLE)]
    else if !Acceptable(frames[0], |wire|) then wire + [FailureFrame(|wire|, UNAVAILABLE)]
    else Relay(frames[1..], ending, wire + [frames[0]])
  }

  /** The client was told of a success. */
  predicate EndsClean(wire: seq<Frame>) { wire != [] && wire[|wire| - 1].last && wire[|wire| - 1].errorCode.None? }

  /** `_send_stream`: the lines written, and whether the stream counts as a success. */
  method SendStream(frames: seq<Frame>, ending: Ending) returns (wire: seq<Frame>, ok: bool)
    ensures wire == Relay(frames, ending, [])
    ensures ok <==> ending == Finished && wire == frames && EndsClean(wire)
  {
    wire, ok := [], false;
    var next, terminal := 0, false;
    for i := 0 to |frames|
      invariant next == |wire| == i && terminal == (wire != [] && wire[|wire| - 1].last)
      invariant wire == frames[..i] && Relay(frames, ending, []) == Relay(frames[i..], ending, wire)
    {
      assert frames[i..][1..] == frames[i + 1..];
      if terminal { return; }
      if frames[i].number != next || (frames[i].errorCode.Some? && !frames[i].last) {
        wire := wire + [FailureFrame(next, UNAVAILABLE)];
        return;
      }
      wire := wire + [frames[i]];
      next := next + 1;
      terminal := frames[i].last;
    }
    if ending == Cancelled { return; }
    if !terminal {
      wire := wire + [FailureFrame(next, if ending.Raised? then ending.code else UNAVAILABLE)];
      return;
    }
    ok := ending == Finished && wire[next - 1].errorCode.None?;
  }

  /** Numbered from zero without a gap, one terminal frame, at the end, and no error code before it. */
  ghost predicate WellNumbered(wire: seq<Frame>) {
    forall i :: 0 <= i < |wire| ==>
      wire[i].number == i && (wire[i].last <==> i == |wire| - 1) && (wire[i].errorCode.Some? ==> wire[i].last)
  }

  ghost predicate OpenAndNumbered(wire: seq<Frame>) {
    forall i :: 0 <= i < |wire| ==> wire[i].number == i && !wire[i].last && wire[i].errorCode.None?
  }

  /** Absent cancellation, the client sees frames 0 to n with exactly one terminal frame, at the end. */
  lemma {:induction false} StreamIsWellNumbered(frames: seq<Frame>, ending: Ending, wire: seq<Frame>)
    requires OpenAndNumbered(wire)
    ensures ending != Cancelled ==> WellNumbered(Relay(frames, ending, wire)) && Relay(frames, ending, wire) != []
    ensures ending == Cancelled ==>
            OpenAndNumbered(Relay(frames, ending, wire)) || WellNumbered(Relay(frames, ending, wire))
    decreases |frames|
  {
    if frames != [] && Acceptable(frames[0], |wire|) && !frames[0].last {
      StreamIsWellNumbered(frames[1..], ending, wire + [frames[0]]);
    }
  }

  /** Where the server first refuses a frame that the coordinator passes on. */
  function FirstRefused(frames: seq<Frame>, from: nat): Option<nat>
    decreases |frames|
  {
    if frames == [] then None
    else if !Acceptable(frames[0], from) then Some(from)
    else FirstRefused(frames[1..], from + 1)
  }

  /** The coordinator run under the server: it is closed at the first frame the server refuses. */
  function Served(source: seq<Event>, auth: Auth): Plan {
    Whole(source, auth, FirstRefused(Whole(source, auth, None).emitted, 0))
  }

  ghost predicate NoneLast(frames: seq<Frame>) { forall i :: 0 <= i < |frames| ==> !frames[i].last }

  lemma {:induction false} EmittedAreOpen(source: seq<Event>, auth: Auth, closesAt: Option<nat>, text: string,
                                          calls: seq<string>, emitted: seq<Frame>)
    requires NoneLast(emitted)
    ensures var p := PlanOf(source, auth, closesAt, text, calls, emitted);
            NoneLast(p.emitted) && (p.closing.FailsWith? ==> p.closing.frame.errorCode.Some?)
    decreases |source|
  {
    if source != [] && Ordinary(source[0]) && closesAt != Some(|emitted|) {
      var f := source[0].frame;
      EmittedAreOpen(source[1..], auth, closesAt, text + Text(f.data.value), calls + Calls(f.data.value),
                     emitted + [Sanitized(f)]);
    }
  }

  lemma {:induction false} RelayEndsClean(frames: seq<Frame>, ending: Ending, wire: seq<Frame>)
    requires NoneLast(wire)
    ensures EndsClean(Relay(frames, ending, wire)) <==>
              exists i ::
                0 <= i < |frames| && frames[i].last && frames[i].errorCode.None? && AcceptedTo(frames, i + 1, |wire|)
    decreases |frames|
  {
    if frames != [] && Acceptable(frames[0], |wire|) {
      if frames[0].last {
        OnlyFirstMatters(frames, |wire|);
      } else {
        RelayEndsClean(frames[1..], ending, wire + [frames[0]]);
        CleanShifts(frames, |wire|);
      }
    }
  }

  /** The first `n` frames are accepted from number `base` on, and none but the last of them is terminal. */
  ghost predicate AcceptedTo(frames: seq<Frame>, n: nat, base: nat) {
    n <= |frames| && forall i :: 0 <= i < n ==> Acceptable(frames[i], base + i) && (frames[i].last ==> i == n - 1)
  }

  lemma OnlyFirstMatters(frames: seq<Frame>, base: nat)
    requires frames != [] && Acceptable(frames[0], base) && frames[0].last
    ensures (exists i ::
               0 <= i < |frames| && frames[i].last && frames[i].errorCode.None? && AcceptedTo(frames, i + 1, base))
            <==> frames[0].errorCode.None?
  {
    if frames[0].errorCode.None? { assert AcceptedTo(frames, 0 + 1, base); }
  }

  lemma CleanShifts(frames: seq<Frame>, base: nat)
    requires frames != [] && Acceptable(frames[0], base) && !frames[0].last
    ensures (exists i ::
               0 <= i < |frames| && frames[i].last && frames[i].errorCode.None? && AcceptedTo(frames, i + 1, base))
            <==> exists i ::
                   0 <= i < |frames[1..]| && frames[1..][i].last && frames[1..][i].errorCode.None? &&
                   AcceptedTo(frames[1..], i + 1, base + 1)
  {
    var rest := frames[1..];
    if i :| 0 <= i < |frames| && frames[i].last && frames[i].errorCode.None? && AcceptedTo(frames, i + 1, base) {
      forall j | 0 <= j < i ensures Acceptable(rest[j], base + 1 + j) && (rest[j].last ==> j == i - 1) {
        assert rest[j] == frames[j + 1];
      }
      assert rest[i - 1].last && AcceptedTo(rest, i - 1 + 1, base + 1);
    }
    if i :| 0 <= i < |rest| && rest[i].last && rest[i].errorCode.None? && AcceptedTo(rest, i + 1, base + 1) {
      forall j | 0 <= j < i + 2 ensures Acceptable(frames[j], base + j) && (frames[j].last ==> j == i + 1) {
        if j > 0 { assert frames[j] == rest[j - 1]; }
      }
      assert frames[i + 1].last && AcceptedTo(frames, i + 1 + 1, base);
    }
  }

  lemma {:induction false} RefusedIsWithin(frames: seq<Frame>, from: nat)
    ensures var r := FirstRefused(frames, from);
            && (r.Some? ==> from <= r.value < from + |frames|)
            && (r.None? ==> forall i :: 0 <= i < |frames| ==> Acceptable(frames[i], from + i))
    decreases |frames|
  {
    if frames != [] && Acceptable(frames[0], from) {
      RefusedIsWithin(frames[1..], from + 1);
      forall i | 0 <= i < |frames| && FirstRefused(frames, from).None? ensures Acceptable(frames[i], from + i) {
        if i > 0 { assert frames[i] == frames[1..][i - 1]; }
      }
    }
  }

  /** A served stream that settles has had every earlier frame accepted. */
  lemma SettledWasAccepted(source: seq<Event>, auth: Auth)
    requires Served(source, auth).closing.Settles?
    ensures var p := Served(source, auth);
            && (forall i :: 0 <= i < |p.emitted| ==> Acceptable(p.emitted[i], i))
            && p.closing.frame.last && p.closing.frame.errorCode.None?
  {
    var closesAt := FirstRefused(Whole(source, auth, None).emitted, 0);
    var k := SettlingHasTerminal(source, auth, closesAt, "", [], []);
    assert Through(source, None, k, 0);
    PlanAtTerminal(source, closesAt, k);
    PlanAtTerminal(source, None, k);
    PlanAfter(source, auth, None, "", [], [], k);
    RefusedIsWithin(Forwarded(source[..k]), 0);
  }

  /**
   The client is told of a success only when the turn was committed. The converse fails in exactly one case: the
   turn is committed and the terminal frame then turns out to carry the wrong number.
   */
  lemma ClientLearnsOutcome(o: Options, s: State, v: Reservation, source: seq<Event>, auth: Auth, d: Draws)
    requires IsActive(s, v)
    ensures var p := Served(source, auth);
            var done := Settle(o, s, v, p, d);
            var told := EndsClean(Relay(done.emitted, done.ending, []));
            && (told ==> Commits(o, s, v, p, d))
            && (Commits(o, s, v, p, d) ==> (told <==> p.closing.frame.number == |p.emitted|))
  {
    var p := Served(source, auth);
    EmittedAreOpen(source, auth, FirstRefused(Whole(source, auth, None).emitted, 0), "", [], []);
    if p.closing.Settles? { SettledWasAccepted(source, auth); }
    PlanTells(o, s, v, p, d);
  }

  /** The same for any plan whose frames before the end were open, and accepted if it settles. */
  lemma PlanTells(o: Options, s: State, v: Reservation, p: Plan, d: Draws)
    requires IsActive(s, v) && NoneLast(p.emitted) && (p.closing.FailsWith? ==> p.closing.frame.errorCode.Some?)
    requires p.closing.Settles? ==>
             && (forall i :: 0 <= i < |p.emitted| ==> Acceptable(p.emitted[i], i))
             && p.closing.frame.last && p.closing.frame.errorCode.None?
    ensures var done := Settle(o, s, v, p, d);
            var told := EndsClean(Relay(done.emitted, done.ending, []));
            && (told ==> Commits(o, s, v, p, d))
            && (Commits(o, s, v, p, d) ==> (told <==> p.closing.frame.number == |p.emitted|))
  {
    var done := Settle(o, s, v, p, d);
    var n := |p.emitted|;
    SettledExactlyOnce(o, s, v, p, d);
    RelayEndsClean(done.emitted, done.ending, []);
    if EndsClean(Relay(done.emitted, done.ending, [])) {
      var i :| 0 <= i < |done.emitted| && done.emitted[i].last && done.emitted[i].errorCode.None? &&
        AcceptedTo(done.emitted, i + 1, 0);
      TerminalIsLast(done.emitted, p.emitted, i);
      assert Acceptable(done.emitted[i], i);
    }
    if Commits(o, s, v, p, d) {
      assert done.emitted[n].number == p.closing.frame.number;
      if p.closing.frame.number == n { assert AcceptedTo(done.emitted, n + 1, 0); }
    }
  }

  lemma TerminalIsLast(all: seq<Frame>, open: seq<Frame>, i: nat)
    requires open <= all && NoneLast(open) && i < |all| && all[i].last && |all| <= |open| + 1
    ensures i == |open| == |all| - 1
  {
    forall j | 0 <= j < |open| ensures !all[j].last { assert open[j] == all[j]; }
  }
}
