/** What a stateful stream leaves behind: the committed turn, the frames the client gets, and the recorded outcome. */
module LlmStreamMeaning {
  import opened Common
  import opened ContextStore
  import opened LlmStream
  import opened PrefixCodes

  // ---------------------------------------------------------------- what is gathered

  /** Text and tool calls are gathered chunk by chunk and frame by frame, in order, absent ones adding nothing. */
  lemma GathersInOrder(cs: seq<Chunk>, c: Chunk, source: seq<Event>, e: Event)
    ensures Text([]) == "" && Text(cs + [c]) == Text(cs) + (match c.delta case Some(d) => d case None => "")
    ensures Calls([]) == [] && Calls(cs + [c]) == Calls(cs) + (match c.calls case Some(d) => d case None => [])
    ensures AllText([]) == "" && AllCalls([]) == []
    ensures e.Supplies? && e.frame.data.Some? ==>
            && AllText(source + [e]) == AllText(source) + Text(e.frame.data.value)
            && AllCalls(source + [e]) == AllCalls(source) + Calls(e.frame.data.value)
  {
    PutAllAppend((c: Chunk) => c.delta.GetOr(""), cs + [c], |cs|);
    PutAllAppend((c: Chunk) => c.calls.GetOr([]), cs + [c], |cs|);
    assert (cs + [c])[..|cs|] == cs && (cs + [c])[..|cs| + 1] == cs + [c];
    GatheredTo(source + [e], |source|);
    assert (source + [e])[..|source|] == source && (source + [e])[..|source| + 1] == source + [e];
  }

  // ---------------------------------------------------------------- what is passed on

  /** The frame `out` is `f` with every context taken off, all else kept. */
  predicate Bare(f: Frame, out: Frame) {
    && out == f.(data := out.data) && (out.data.Some? <==> f.data.Some?)
    && (f.data.Some? ==>
          && |out.data.value| == |f.data.value|
          && forall i :: 0 <= i < |f.data.value| ==> out.data.value[i] == f.data.value[i].(context := None))
  }

  lemma {:induction false} StripsEach(cs: seq<Chunk>)
    ensures |Strip(cs)| == |cs| && forall i :: 0 <= i < |cs| ==> Strip(cs)[i] == cs[i].(context := None)
  {
    if cs != [] { StripsEach(cs[1..]); }
  }

  lemma SanitizedIsBare(f: Frame)
    ensures Bare(f, Sanitized(f))
  {
    if f.data.Some? { StripsEach(f.data.value); }
  }

  /** Each frame passed on before the end is the source's, in its place, with its contexts taken off. */
  lemma {:induction false} ForwardedAreBare(source: seq<Event>, k: nat)
    requires k <= |source| && forall i :: 0 <= i < k ==> source[i].Supplies?
    ensures |Forwarded(source[..k])| == k
    ensures forall i :: 0 <= i < k ==> Bare(source[i].frame, Forwarded(source[..k])[i])
    decreases k
  {
    if k > 0 {
      ForwardedAreBare(source, k - 1);
      PutAllAppend((e: Event) => if e.Supplies? then [Sanitized(e.frame)] else [], source, k - 1);
      SanitizedIsBare(source[k - 1].frame);
    }
  }

  /** The receipt is on the last chunk that gives a stop reason, and on no other. */
  predicate Receipted(f: Frame, out: Frame, r: Receipt, at: nat) {
    && f.data.Some? && out == f.(data := out.data) && out.data.Some? && |out.data.value| == |f.data.value|
    && at < |f.data.value| && f.data.value[at].stop.Some?
    && (forall i :: at < i < |f.data.value| ==> f.data.value[i].stop.None?)
    && forall i :: 0 <= i < |f.data.value| ==>
         out.data.value[i] == f.data.value[i].(context := if i == at then Some(r) else None)
  }

  lemma {:induction false} AttachesOnce(cs: seq<Chunk>, r: Receipt) returns (at: nat)
    requires exists i :: 0 <= i < |cs| && cs[i].stop.Some?
    ensures |Attach(cs, r)| == |cs| && at < |cs| && cs[at].stop.Some?
    ensures forall i :: at < i < |cs| ==> cs[i].stop.None?
    ensures Attach(cs, r) == cs[at := cs[at].(context := Some(r))]
  {
    var n := |cs| - 1;
    if cs[n].stop.Some? {
      at := n;
    } else {
      assert exists i :: 0 <= i < |cs[..n]| && cs[..n][i].stop.Some? by {
        var i :| 0 <= i < |cs| && cs[i].stop.Some?;
        assert cs[..n][i].stop.Some?;
      }
      at := AttachesOnce(cs[..n], r);
      assert cs == cs[..n] + [cs[n]];
    }
  }

  lemma ReceiptGoesLast(e: Event, r: Receipt) returns (at: nat)
    requires Successful(e)
    ensures Receipted(e.frame, WithReceipt(Sanitized(e.frame), r), r, at)
  {
    var cs := e.frame.data.value;
    StripsEach(cs);
    var c :| c in cs && c.stop.Some?;
    var i :| 0 <= i < |cs| && cs[i] == c;
    assert Strip(cs)[i].stop.Some?;
    at := AttachesOnce(Strip(cs), r);
    assert forall j :: 0 <= j < |cs| ==> Strip(cs)[j].stop == cs[j].stop;
  }

  // ---------------------------------------------------------------- the committed turn

  /** The transcript a turn is added to. */
  function Base(s: State, v: Reservation): seq<Message> {
    match v.request.op
    case Fork => v.baseTranscript
    case Append => if v.request.contextId.GetOr("") in s.contexts
                   then s.contexts[v.request.contextId.GetOr("")].transcript else []
    case _ => []
  }

  lemma CommitAddsTurn(o: Options, s: State, v: Reservation, a: Message, d: Draws)
    requires IsActive(s, v) && v.request.op != Release && CommitTarget(s, v, d.factory).Ok?
    ensures var (t, r) := Commit(o, s, v, a, d.t0, d.t1, d.factory);
            && r.Ok? && r.value.contextId in t.contexts
            && t.contexts[r.value.contextId].transcript == Base(s, v) + v.request.messages + [a]
            && t.contexts[r.value.contextId].version == r.value.version
            && KeyOf(v.request) in t.idempotency && t.idempotency[KeyOf(v.request)].Completed?
            && t.idempotency[KeyOf(v.request)].receipt == r.value
  {
    assert [] + Turn(v, a) == Turn(v, a);
    assert Base(s, v) + v.request.messages + [a] == Base(s, v) + (v.request.messages + [a]);
  }

  /** The plan of a stream that may commit, field by field. */
  predicate Commitable(p: Plan, source: seq<Event>, k: nat)
    requires k < |source| && source[k].Supplies?
  {
    var text, calls := AllText(source[..k + 1]), AllCalls(source[..k + 1]);
    && p.emitted == Forwarded(source[..k])
    && p.closing == Settles(Sanitized(source[k].frame),
         Message("assistant", if text == "" then None else Some(text), if calls == [] then None else Some(calls)))
  }

  lemma PlanIsCommitable(source: seq<Event>, closesAt: Option<nat>, k: nat)
    requires k < |source| && Through(source, closesAt, k, 0) && Successful(source[k])
    ensures Commitable(Whole(source, Granted, closesAt), source, k)
  {
    SettlesExactlyWhen(source, Granted, closesAt);
  }

  /**
   A stream that commits leaves a context whose transcript ends with the request's messages and one assistant message
   that says everything the source said; the key's recorded outcome is the receipt of that context.
   */
  lemma CommittedStreamSays(
    o: Options, s: State, v: Reservation, source: seq<Event>, closesAt: Option<nat>, k: nat, d: Draws)
    returns (receipt: Receipt)
    requires IsActive(s, v) && v.request.op != Release && CommitTarget(s, v, d.factory).Ok?
    requires k < |source| && Through(source, closesAt, k, 0) && Successful(source[k])
    ensures var t := Settle(o, s, v, Whole(source, Granted, closesAt), d).state;
            var text, calls := AllText(source[..k + 1]), AllCalls(source[..k + 1]);
            && receipt.contextId in t.contexts
            && t.contexts[receipt.contextId].transcript == Base(s, v) + v.request.messages +
                 [Message("assistant", if text == "" then None else Some(text),
                          if calls == [] then None else Some(calls))]
            && t.contexts[receipt.contextId].version == receipt.version
            && KeyOf(v.request) in t.idempotency && t.idempotency[KeyOf(v.request)].Completed?
            && t.idempotency[KeyOf(v.request)].receipt == receipt
  {
    PlanIsCommitable(source, closesAt, k);
    var p := Whole(source, Granted, closesAt);
    receipt := CommittedPlan(o, s, v, p, source, k, d);
  }

  lemma CommittedPlan(o: Options, s: State, v: Reservation, p: Plan, source: seq<Event>, k: nat, d: Draws)
    returns (receipt: Receipt)
    requires IsActive(s, v) && v.request.op != Release && CommitTarget(s, v, d.factory).Ok?
    requires k < |source| && source[k].Supplies? && Commitable(p, source, k)
    ensures var t, a := Settle(o, s, v, p, d).state, p.closing.assistant;
            && receipt.contextId in t.contexts
            && t.contexts[receipt.contextId].transcript == Base(s, v) + v.request.messages + [a]
            && t.contexts[receipt.contextId].version == receipt.version
            && KeyOf(v.request) in t.idempotency && t.idempotency[KeyOf(v.request)].Completed?
            && t.idempotency[KeyOf(v.request)].receipt == receipt
    ensures Settle(o, s, v, p, d).emitted == p.emitted + [WithReceipt(p.closing.frame, receipt)]
    ensures Settle(o, s, v, p, d).ending == Finished
  {
    var a := p.closing.assistant;
    receipt := Commit(o, s, v, a, d.t0, d.t1, d.factory).1.value;
    CommitAddsTurn(o, s, v, a, d);
  }

  /** Its client gets the source's frames without contexts, except that the last one carries the receipt, once. */
  lemma CommittedStreamShows(
    o: Options, s: State, v: Reservation, source: seq<Event>, closesAt: Option<nat>, k: nat, d: Draws)
    returns (at: nat)
    requires IsActive(s, v) && v.request.op != Release && CommitTarget(s, v, d.factory).Ok?
    requires k < |source| && Through(source, closesAt, k, 0) && Successful(source[k])
    ensures var done := Settle(o, s, v, Whole(source, Granted, closesAt), d);
            && done.ending == Finished && |done.emitted| == k + 1
            && (forall i :: 0 <= i < k ==> Bare(source[i].frame, done.emitted[i]))
            && KeyOf(v.request) in done.state.idempotency && done.state.idempotency[KeyOf(v.request)].Completed?
            && Receipted(source[k].frame, done.emitted[k], done.state.idempotency[KeyOf(v.request)].receipt, at)
  {
    PlanIsCommitable(source, closesAt, k);
    var receipt := CommittedPlan(o, s, v, Whole(source, Granted, closesAt), source, k, d);
    at := ReceiptGoesLast(source[k], receipt);
    ForwardedAreBare(source, k);
  }

  // ---------------------------------------------------------------- the recorded failure

  /** A terminal frame that reports an error of any kind. */
  predicate ReportsError(e: Event) {
    && e.Supplies? && e.frame.data.Some? && e.frame.last
    && (e.frame.errorCode.Some? || exists c :: c in e.frame.data.value && (c.stop == Some(Errored) || c.error.Some?))
  }

  /** What the key of a stream that does not commit shows. */
  predicate Shows(v: Reservation, code: string, t: State) {
    && KeyOf(v.request) in t.idempotency
    && t.idempotency[KeyOf(v.request)].Failed?
    && t.idempotency[KeyOf(v.request)].requestId == v.request.requestId
    && t.idempotency[KeyOf(v.request)].errorCode == Some(code)
  }

  lemma AbortShows(o: Options, s: State, v: Reservation, code: string, d: Draws)
    requires IsActive(s, v) && d.t3 < d.t2 + o.idempotencyTtl
    ensures Shows(v, code, Abort(o, s, v, Some(code), d.t2, d.t3).0)
    ensures Abort(o, s, v, Some(code), d.t2, d.t3).1.None?
  {}

  /** A stream whose source reports an error shows its code, to the client and under the key. */
  lemma FailedStreamShows(
    o: Options, s: State, v: Reservation, source: seq<Event>, auth: Auth, closesAt: Option<nat>, k: nat, d: Draws)
    requires IsActive(s, v) && d.t3 < d.t2 + o.idempotencyTtl
    requires k < |source| && Through(source, closesAt, k, 0) && ReportsError(source[k])
    ensures var done := Settle(o, s, v, Whole(source, auth, closesAt), d);
            var given := source[k].frame.errorCode;
            var code := if given.None? || given.value == "" then "NWP-NODE-UNAVAILABLE" else given.value;
            && Shows(v, code, done.state)
            && done.ending == Finished && |done.emitted| == k + 1
            && (forall i :: 0 <= i < k ==> Bare(source[i].frame, done.emitted[i]))
            && Bare(source[k].frame.(errorCode := Some(code)), done.emitted[k])
  {
    PlanFails(source, auth, closesAt, k);
    AbortShows(o, s, v, FailureCode(source[k].frame), d);
    ForwardedAreBare(source, k);
    SanitizedIsBare(source[k].frame);
  }

  lemma PlanFails(source: seq<Event>, auth: Auth, closesAt: Option<nat>, k: nat)
    requires k < |source| && Through(source, closesAt, k, 0) && ReportsError(source[k])
    ensures Whole(source, auth, closesAt) == Plan(Forwarded(source[..k]),
              FailsWith(Sanitized(source[k].frame).(errorCode := Some(FailureCode(source[k].frame))),
                        FailureCode(source[k].frame)))
  {
    PlanAfter(source, auth, closesAt, "", [], [], k);
    assert [] + Forwarded(source[..k]) == Forwarded(source[..k]);
    var f := source[k].frame;
    assert source[k..][0] == source[k];
    assert Failing(f, f.data.value) by {
      if f.errorCode.None? {
        var c :| c in f.data.value && (c.stop == Some(Errored) || c.error.Some?);
        var i :| 0 <= i < |f.data.value| && f.data.value[i] == c;
      }
    }
  }

  /** A successful stream that the authorizer does not let through is turned down with its code, or cancelled. */
  lemma PlanTurnsDown(source: seq<Event>, auth: Auth, closesAt: Option<nat>, k: nat)
    requires k < |source| && Through(source, closesAt, k, 0) && Successful(source[k]) && !auth.Granted?
    ensures Whole(source, auth, closesAt) ==
            Plan(Forwarded(source[..k]), if auth.Refused? then TurnedDown(auth.code) else Interrupted)
  {
    PlanAfter(source, auth, closesAt, "", [], [], k);
    assert [] + Forwarded(source[..k]) == Forwarded(source[..k]);
    assert source[k..][0] == source[k];
  }

  /** Whatever else ends a stream, its key shows the authorizer's or the store's code, or a general one. */
  lemma AbortedStreamShows(o: Options, s: State, v: Reservation, p: Plan, d: Draws)
    requires IsActive(s, v) && d.t3 < d.t2 + o.idempotencyTtl && !p.closing.FailsWith? && !Commits(o, s, v, p, d)
    ensures var done := Settle(o, s, v, p, d);
            && done.emitted == p.emitted
            && (match p.closing
                case TurnedDown(code) => Shows(v, code, done.state) && done.ending == Raised(code)
                case Settles(_, a) =>
                  var e := Commit(o, s, v, a, d.t0, d.t1, d.factory).1.error;
                  var code := if e.StoreError? then CodeName(e.code) else "NWP-NODE-UNAVAILABLE";
                  Shows(v, code, done.state) && done.ending == Raised(code)
                case _ => Shows(v, "NWP-NODE-UNAVAILABLE", done.state))
  {
    match p.closing
    case TurnedDown(code) => AbortShows(o, s, v, code, d);
    case Settles(_, a) =>
      var e := Commit(o, s, v, a, d.t0, d.t1, d.factory).1.error;
      AbortShows(o, s, v, if e.StoreError? then CodeName(e.code) else UNAVAILABLE, d);
    case _ => AbortShows(o, s, v, UNAVAILABLE, d);
  }

  // ---------------------------------------------------------------- what the client is told of a failure

  /** A stream that raises is closed for the client by one more frame, which carries the code. */
  lemma {:induction false} RaisedCodeIsTold(frames: seq<Frame>, code: string, wire: seq<Frame>)
    requires wire == [] || !wire[|wire| - 1].last
    requires forall i :: 0 <= i < |frames| ==> Acceptable(frames[i], |wire| + i) && !frames[i].last
    ensures Relay(frames, Raised(code), wire) ==
            wire + frames + [Frame(|wire| + |frames|, true, Some(code), Some([]))]
    decreases |frames|
  {
    if frames == [] {
      assert wire + frames == wire;
    } else {
      assert Acceptable(frames[0], |wire|);
      forall i | 0 <= i < |frames[1..]|
        ensures Acceptable(frames[1..][i], |wire + [frames[0]]| + i) && !frames[1..][i].last
      {
        assert frames[1..][i] == frames[i + 1];
      }
      RaisedCodeIsTold(frames[1..], code, wire + [frames[0]]);
      assert wire + [frames[0]] + frames[1..] == wire + frames;
    }
  }

  // ---------------------------------------------------------------- without streaming

  /** A whole answer that is authorized is committed as it is; any other end is recorded with its code. */
  lemma WholeCompletionLeaves(o: Options, s: State, v: Reservation, c: Completion, auth: Auth, d: Draws)
    requires IsActive(s, v) && v.request.op != Release && d.t3 < d.t2 + o.idempotencyTtl
    ensures var t := CompleteWhole(o, s, v, c, auth, d);
            && (c.CompletionFails? ==> Shows(v, c.code, t))
            && (c.Answer? && c.stop == Errored ==> Shows(v, "NWP-NODE-UNAVAILABLE", t))
            && (c.Answer? && c.stop == Complete && auth.Refused? ==> Shows(v, auth.code, t))
            && (c.Answer? && c.stop == Complete && auth.Withdrawn? ==> Shows(v, "NWP-NODE-UNAVAILABLE", t))
    ensures c.Answer? && c.stop == Complete && auth.Granted? && CommitTarget(s, v, d.factory).Ok? ==>
            var t, id := CompleteWhole(o, s, v, c, auth, d), CommitTarget(s, v, d.factory).value;
            && id in t.contexts
            && t.contexts[id].transcript ==
               Base(s, v) + v.request.messages + [Message("assistant", c.content, c.calls)]
  {
    if c.CompletionFails? {
      AbortShows(o, s, v, c.code, d);
    } else if c.stop == Complete && auth.Refused? {
      AbortShows(o, s, v, auth.code, d);
    } else {
      AbortShows(o, s, v, UNAVAILABLE, d);
      if CommitTarget(s, v, d.factory).Ok? { CommitAddsTurn(o, s, v, Message("assistant", c.content, c.calls), d); }
    }
  }
}
