/** Frame headers in their 4-byte and 8-byte forms, and the session that reads frames off a byte stream. */
module Wire {
  import opened Common

  type byte = x: int | 0 <= x < 256

  datatype Tier = Json | MsgPack | BinaryVector

  const MAX_SHORT := 0xFFFF
  const MAX_LONG := 0xFFFF_FFFF

  const QUERY: byte := 0x10
  const CAPS: byte := 0x04
  const KINDS: set<int> :=
    {0x01, 0x02, 0x03, 0x04, 0x05, 0x06, 0x10, 0x11, 0x20, 0x21, 0x22, 0x30, 0x31, 0x32, 0x40, 0x41, 0x42, 0x43, 0xFE}

  datatype WireError = TooShort | UnknownKind | ReservedTier | TooLong | Unsupported | Ended

  // ---------------------------------------------------------------- big-endian numbers

  function U16(n: nat): (b: seq<byte>)
    requires n <= MAX_SHORT
    ensures |b| == 2
  {
    [n / 256, n % 256]
  }

  function U32(n: nat): (b: seq<byte>)
    requires n <= MAX_LONG
    ensures |b| == 4
  {
    U16(n / 65536) + U16(n % 65536)
  }

  function ReadU16(b: seq<byte>, at: nat): (n: nat)
    requires at + 2 <= |b|
    ensures n <= MAX_SHORT && U16(n) == b[at..at + 2]
  {
    var high: int, low: int := b[at], b[at + 1];
    high * 256 + low
  }

  function ReadU32(b: seq<byte>, at: nat): (n: nat)
    requires at + 4 <= |b|
    ensures n <= MAX_LONG && U32(n) == b[at..at + 4]
  {
    assert b[at..at + 4] == b[at..at + 2] + b[at + 2..at + 4];
    ReadU16(b, at) * 65536 + ReadU16(b, at + 2)
  }

  lemma ReadsU16(b: seq<byte>, at: nat, n: nat)
    requires n <= MAX_SHORT && at + 2 <= |b| && b[at..at + 2] == U16(n)
    ensures ReadU16(b, at) == n
  {
    assert b[at] == b[at..at + 2][0] && b[at + 1] == b[at..at + 2][1];
  }

  lemma ReadsU32(b: seq<byte>, at: nat, n: nat)
    requires n <= MAX_LONG && at + 4 <= |b| && b[at..at + 4] == U32(n)
    ensures ReadU32(b, at) == n
  {
    assert b[at..at + 2] == b[at..at + 4][..2] && b[at + 2..at + 4] == b[at..at + 4][2..];
    ReadsU16(b, at, n / 65536);
    ReadsU16(b, at + 2, n % 65536);
  }

  // ---------------------------------------------------------------- headers

  datatype Header = Header(kind: byte, flags: byte, length: nat) {
    predicate Extended() { flags >= 0x80 }
    function Size(): nat { if Extended() then 8 else 4 }
    function TierCode(): nat { flags % 4 }
    predicate Final() { flags / 4 % 2 == 1 }
    predicate Encrypted() { flags / 8 % 2 == 1 }

    /** What fits the length field of the chosen form. */
    predicate Fits() { length <= if Extended() then MAX_LONG else MAX_SHORT }

    /** `to_bytes`: packing fails on a length that does not fit its field. */
    function ToBytes(): Result<seq<byte>, WireError> {
      if !Fits() then Err(TooLong)
      else if Extended() then Ok([kind, flags] + U16(0) + U32(length))
      else Ok([kind, flags] + U16(length))
    }
  }

  /** `FrameHeader.parse`. */
  function Parse(b: seq<byte>): Result<Header, WireError> {
    if |b| < 2 then Err(TooShort)
    else if b[1] >= 0x80 then
      if |b| < 8 then Err(TooShort)
      else if b[0] !in KINDS then Err(UnknownKind)
      else Ok(Header(b[0], b[1], ReadU32(b, 4)))
    else if |b| < 4 then Err(TooShort)
    else if b[0] !in KINDS then Err(UnknownKind)
    else Ok(Header(b[0], b[1], ReadU16(b, 2)))
  }

  /** Every header that can be written reads back, whatever follows it. */
  lemma HeaderRoundTrips(h: Header, rest: seq<byte>)
    requires h.Fits() && h.kind in KINDS
    ensures |h.ToBytes().value| == h.Size()
    ensures Parse(h.ToBytes().value + rest) == Ok(h)
  {
    var b := h.ToBytes().value;
    if h.Extended() {
      assert (b + rest)[4..8] == U32(h.length);
      ReadsU32(b + rest, 4, h.length);
    } else {
      assert (b + rest)[2..4] == U16(h.length);
      ReadsU16(b + rest, 2, h.length);
    }
  }

  /** What was read is what would be written, except for the reserved bytes of the extended form. */
  lemma ParsedHeaderRewrites(b: seq<byte>)
    requires Parse(b).Ok?
    ensures var h := Parse(b).value;
            && h.Fits() && h.kind in KINDS && h.Size() <= |b|
            && (h.ToBytes().value == b[..h.Size()] <==> (h.Extended() ==> b[2] == 0 && b[3] == 0))
  {
    var h := Parse(b).value;
    if h.Extended() {
      assert U32(h.length) == b[4..8];
      assert b[..8] == [b[0], b[1]] + b[2..4] + b[4..8];
      assert h.ToBytes().value == [b[0], b[1]] + [0, 0] + b[4..8];
      if h.ToBytes().value == b[..8] {
        assert b[..8][2] == 0 && b[..8][3] == 0;
      } else {
        assert b[2..4] == [b[2], b[3]];
      }
    } else {
      assert b[..4] == [b[0], b[1]] + b[2..4];
    }
  }

  /** The number that bytes spell with the most significant one first. */
  function BigEndian(b: seq<byte>): nat {
    if b == [] then 0 else 256 * BigEndian(b[..|b| - 1]) + b[|b| - 1] as int
  }

  lemma NumbersAreBigEndian(n: nat)
    ensures n <= MAX_SHORT ==> BigEndian(U16(n)) == n
    ensures n <= MAX_LONG ==> BigEndian(U32(n)) == n
  {
    if n <= MAX_SHORT { ShortIsBigEndian(n); }
    if n <= MAX_LONG {
      var b := U32(n);
      assert b[..3][..2] == U16(n / 65536) && b[..3][2] == n % 65536 / 256 && b[3] == n % 256;
      ShortIsBigEndian(n / 65536);
      assert BigEndian(b[..3]) == 256 * BigEndian(b[..3][..2]) + b[..3][2] as int;
    }
  }

  lemma ShortIsBigEndian(n: nat)
    requires n <= MAX_SHORT
    ensures BigEndian(U16(n)) == n
  {
    var b := U16(n);
    assert b[..1][..0] == [];
    assert BigEndian(b[..1]) == 256 * BigEndian(b[..1][..0]) + b[0] as int;
  }

  /** Where everything stands in a header: kind, flags, and the length in two bytes or, after two zeros, in four. */
  lemma HeaderLayout(h: Header)
    requires h.Fits()
    ensures h.ToBytes().Ok?
    ensures var b := h.ToBytes().value;
            && |b| == (if h.flags >= 128 then 8 else 4) && b[0] == h.kind && b[1] == h.flags
            && (h.flags < 128 ==> BigEndian(b[2..4]) == h.length)
            && (h.flags >= 128 ==> b[2] == 0 && b[3] == 0 && BigEndian(b[4..8]) == h.length)
  {
    NumbersAreBigEndian(h.length);
    var b := h.ToBytes().value;
    if h.flags >= 128 { assert b[4..8] == U32(h.length); } else { assert b[2..4] == U16(h.length); }
  }

  // ---------------------------------------------------------------- policy and frames

  function Code(t: Tier): nat {
    match t
    case Json => 0
    case MsgPack => 1
    case BinaryVector => 2
  }

  /** `EncodingTier(flags & 3)`: code 3 is reserved and raises. */
  function TierOf(code: nat): Option<Tier> {
    if code == 0 then Some(Json)
    else if code == 1 then Some(MsgPack)
    else if code == 2 then Some(BinaryVector)
    else None
  }

  datatype Policy = Policy(default: Tier, vectors: bool) {
    predicate Allows(t: Tier, kind: byte) { t == default || (t == BinaryVector && vectors && kind == QUERY) }
  }

  /** A frame handed to the codec; `payload` is what its tier's serialiser makes of it. */
  datatype Frame = Frame(kind: byte, last: bool, tier: Tier, payload: seq<byte>)

  function HeaderOf(f: Frame): Header {
    var ext := if |f.payload| > MAX_SHORT then 0x80 else 0;
    Header(f.kind, Code(f.tier) + (if f.last then 4 else 0) + ext, |f.payload|)
  }

  /** `NpsFrameCodec.encode` with the given payload limit. */
  function Encode(f: Frame, limit: nat): Result<seq<byte>, WireError> {
    if |f.payload| > limit then Err(TooLong)
    else
      var h := HeaderOf(f).ToBytes();
      if h.Err? then h else Ok(h.value + f.payload)
  }

  datatype Received = Received(raw: seq<byte>, header: Header, payload: seq<byte>)

  /** `read_frame_header`: the header, or why there is none, and what is left unread. */
  function ReadHeader(s: seq<byte>): (r: (Result<Header, WireError>, seq<byte>))
    ensures |r.1| <= |s| && (s != [] ==> |r.1| < |s|)
    ensures r.0.Ok? ==> r.0.value.Size() <= |s| && r.1 == s[r.0.value.Size()..]
  {
    if |s| < 2 then (Err(Ended), [])
    else
      var size := if s[1] >= 0x80 then 8 else 4;
      if |s| < size then (Err(Ended), []) else (Parse(s[..size]), s[size..])
  }

  /**
   `receive_frame`: what it returns and what it leaves unread. The policy is looked at only
   after the payload was consumed; a read past the end uses the stream up.
   */
  function Receive(p: Policy, s: seq<byte>): (r: (Result<Received, WireError>, seq<byte>))
    ensures |r.1| <= |s| && (s != [] ==> |r.1| < |s|)
    ensures r.0.Ok? ==>
              && r.0.value.raw + r.1 == s && |r.0.value.payload| == r.0.value.header.length
              && TierOf(r.0.value.header.TierCode()).Some?
              && p.Allows(TierOf(r.0.value.header.TierCode()).value, r.0.value.header.kind)
  {
    var (h, rest) := ReadHeader(s);
    if h.Err? then (Err(h.error), rest)
    else if |rest| < h.value.length then (Err(Ended), [])
    else
      var size := h.value.Size();
      var end := size + h.value.length;
      (Judge(p, h.value, s[..size], s[size..end]), s[end..])
  }

  /** The checks on a frame that has been read in full. */
  function Judge(p: Policy, h: Header, raw: seq<byte>, payload: seq<byte>): Result<Received, WireError> {
    var t := TierOf(h.TierCode());
    if t.None? then Err(ReservedTier)
    else if !p.Allows(t.value, h.kind) then Err(Unsupported)
    else Ok(Received(raw + payload, h, payload))
  }

  /** The number of a tier in the two low bits of the flags. */
  function TierBits(t: Tier): nat { match t case Json => 0 case MsgPack => 1 case BinaryVector => 2 }

  /** A frame on the wire, byte by byte: kind, flags, length, payload. */
  lemma FrameLayout(f: Frame, limit: nat)
    ensures Encode(f, limit).Ok? <==> |f.payload| <= limit && |f.payload| <= 0xFFFF_FFFF
    ensures Encode(f, limit).Ok? ==>
              var b, long := Encode(f, limit).value, |f.payload| > 0xFFFF;
              && |b| == (if long then 8 else 4) + |f.payload|
              && b[0] == f.kind
              && b[1] as int == TierBits(f.tier) + (if f.last then 4 else 0) + (if long then 128 else 0)
              && BigEndian(if long then b[4..8] else b[2..4]) == |f.payload|
              && b[if long then 8 else 4..] == f.payload
  {
    if Encode(f, limit).Ok? {
      var h := HeaderOf(f);
      HeaderLayout(h);
      var b := h.ToBytes().value;
      assert (b + f.payload)[2..4] == b[2..4] && (|b| == 8 ==> (b + f.payload)[4..8] == b[4..8]);
    }
  }

  /** The length that the first bytes of a stream announce. */
  function Announced(s: seq<byte>): nat
    requires |s| >= 2 && |s| >= if s[1] >= 128 then 8 else 4
  {
    BigEndian(if s[1] >= 128 then s[4..8] else s[2..4])
  }

  lemma AnnouncedIsRead(s: seq<byte>)
    requires |s| >= 2 && |s| >= if s[1] >= 128 then 8 else 4
    ensures s[1] >= 128 ==> Announced(s) == ReadU32(s, 4)
    ensures s[1] < 128 ==> Announced(s) == ReadU16(s, 2)
  {
    if s[1] >= 128 { NumbersAreBigEndian(ReadU32(s, 4)); } else { NumbersAreBigEndian(ReadU16(s, 2)); }
  }

  /**
   A frame is received exactly when its header and payload are there, its kind is known, and its tier is the negotiated
   one or, on a query, vectors where they are enabled; the payload is what follows the header, and the rest stays.
   */
  lemma ReceivedExactlyWhen(p: Policy, s: seq<byte>)
    ensures Receive(p, s).0.Ok? <==>
              && |s| >= 2
              && var size := if s[1] >= 128 then 8 else 4;
                 && |s| >= size && |s| >= size + Announced(s) && s[0] in KINDS
                 && (s[1] % 4 == TierBits(p.default) || (s[1] % 4 == 2 && p.vectors && s[0] == 0x10))
    ensures Receive(p, s).0.Ok? ==>
              var size := if s[1] >= 128 then 8 else 4;
              && Receive(p, s).0.value.header == Header(s[0], s[1], Announced(s))
              && Receive(p, s).0.value.payload == s[size..size + Announced(s)]
              && Receive(p, s).1 == s[size + Announced(s)..]
  {
    if |s| >= 2 && |s| >= if s[1] >= 128 then 8 else 4 {
      AnnouncedIsRead(s);
      ParsedPrefix(s);
    }
  }

  lemma ParsedPrefix(s: seq<byte>)
    requires |s| >= 2 && |s| >= if s[1] >= 128 then 8 else 4
    ensures var size := if s[1] >= 128 then 8 else 4;
            && (Parse(s[..size]).Ok? <==> s[0] in KINDS)
            && (s[0] in KINDS ==>
                  Parse(s[..size]) == Ok(Header(s[0], s[1], if s[1] >= 128 then ReadU32(s, 4) else ReadU16(s, 2))))
  {
    if s[1] >= 128 {
      assert s[..8][4..8] == s[4..8];
    } else {
      assert s[..4][2..4] == s[2..4];
    }
  }

  /** One end of an established session. */
  class Session {
    const policy: Policy
    const limit: nat
    var incoming: seq<byte>
    var outgoing: seq<byte>

    constructor (policy: Policy, limit: nat, incoming: seq<byte>)
      ensures this.policy == policy && this.limit == limit && this.incoming == incoming && outgoing == []
    {
      this.policy, this.limit, this.incoming, outgoing := policy, limit, incoming, [];
    }

    /** `serialise` is what the frame becomes in each tier; without a tier the negotiated default is used. */
    method SendFrame(kind: byte, last: bool, serialise: Tier -> seq<byte>, tier: Option<Tier>)
      returns (r: Result<(), WireError>)
      modifies this`outgoing
      ensures var t := tier.GetOr(policy.default);
              var f := Frame(kind, last, t, serialise(t));
              && (r.Ok? <==> policy.Allows(t, kind) && Encode(f, limit).Ok?)
              && outgoing == if r.Ok? then old(outgoing) + Encode(f, limit).value else old(outgoing)
    {
      var chosen := if tier.Some? then tier.value else policy.default;
      if !policy.Allows(chosen, kind) { return Err(Unsupported); }
      var wire := Encode(Frame(kind, last, chosen, serialise(chosen)), limit);
      if wire.Err? { return Err(wire.error); }
      outgoing := outgoing + wire.value;
      r := Ok(());
    }

    method ReadFrameHeader() returns (r: Result<(Header, seq<byte>), WireError>)
      modifies this`incoming
      ensures incoming == ReadHeader(old(incoming)).1
      ensures r.Ok? == ReadHeader(old(incoming)).0.Ok?
      ensures r.Err? ==> ReadHeader(old(incoming)).0 == Err(r.error)
      ensures r.Ok? ==> ReadHeader(old(incoming)).0 == Ok(r.value.0) && r.value.1 == old(incoming)[..r.value.0.Size()]
    {
      var peek := ReadExactly(2);
      if peek.None? { return Err(Ended); }
      var rest := ReadExactly(if peek.value[1] >= 0x80 then 6 else 2);
      if rest.None? { return Err(Ended); }
      var raw := peek.value + rest.value;
      assert raw == old(incoming)[..|raw|];
      var h := Parse(raw);
      r := if h.Err? then Err(h.error) else Ok((h.value, raw));
    }

    method ReceiveFrame() returns (r: Result<Received, WireError>)
      modifies this`incoming
      ensures (r, incoming) == Receive(policy, old(incoming))
    {
      var head := ReadFrameHeader();
      if head.Err? { return Err(head.error); }
      var (h, raw) := head.value;
      var payload := ReadExactly(h.length);
      if payload.None? { return Err(Ended); }
      ghost var end := h.Size() + h.length;
      assert payload.value == old(incoming)[h.Size()..end] && incoming == old(incoming)[end..];
      var t := TierOf(h.TierCode());
      if t.None? { return Err(ReservedTier); }
      if !policy.Allows(t.value, h.kind) { return Err(Unsupported); }
      r := Ok(Received(raw + payload.value, h, payload.value));
    }

    /** `StreamReader.readexactly`, on a stream whose remaining bytes are known. */
    method ReadExactly(n: nat) returns (b: Option<seq<byte>>)
      modifies this`incoming
      ensures b == if n <= |old(incoming)| then Some(old(incoming)[..n]) else None
      ensures incoming == if n <= |old(incoming)| then old(incoming)[n..] else []
    {
      if n <= |incoming| {
        b, incoming := Some(incoming[..n]), incoming[n..];
      } else {
        b, incoming := None, [];
      }
    }
  }

  // ---------------------------------------------------------------- whole streams

  /** What one end may send. */
  predicate MaySend(p: Policy, limit: nat, f: Frame) {
    f.kind in KINDS && p.Allows(f.tier, f.kind) && Encode(f, limit).Ok?
  }

  lemma FlagsReadBack(f: Frame)
    ensures var h := HeaderOf(f);
            && TierOf(h.TierCode()) == Some(f.tier) && h.Final() == f.last && !h.Encrypted()
            && h.Extended() == (|f.payload| > MAX_SHORT) && h.length == |f.payload|
  {}

  lemma HeaderIsRead(p: Policy, limit: nat, f: Frame, tail: seq<byte>)
    requires MaySend(p, limit, f)
    ensures ReadHeader(Encode(f, limit).value + tail) == (Ok(HeaderOf(f)), f.payload + tail)
  {
    var h := HeaderOf(f);
    var head := h.ToBytes().value;
    var s := head + f.payload + tail;
    FlagsReadBack(f);
    HeaderRoundTrips(h, []);
    assert head + [] == head;
    assert s[1] == h.flags && s[..h.Size()] == head;
    assert s[h.Size()..] == f.payload + tail;
  }

  /** One frame at the head of any stream is taken off exactly, and nothing after it is touched. */
  lemma FrameIsReceived(p: Policy, limit: nat, f: Frame, tail: seq<byte>)
    requires MaySend(p, limit, f)
    ensures var wire := Encode(f, limit).value;
            wire != [] && Receive(p, wire + tail) == (Ok(Received(wire, HeaderOf(f), f.payload)), tail)
  {
    var h := HeaderOf(f);
    var head := h.ToBytes().value;
    var wire := Encode(f, limit).value;
    var s := wire + tail;
    FlagsReadBack(f);
    HeaderIsRead(p, limit, f, tail);
    assert wire == head + f.payload;
    assert s[..h.Size()] == head && s[h.Size()..|wire|] == f.payload && s[|wire|..] == tail;
  }

  /** A frame refused by the policy has been read in full: the next one is still found. */
  lemma RefusedFrameIsSkipped(p: Policy, q: Policy, limit: nat, f: Frame, tail: seq<byte>)
    requires MaySend(q, limit, f) && !p.Allows(f.tier, f.kind)
    ensures Receive(p, Encode(f, limit).value + tail) == (Err(Unsupported), tail)
  {
    HeaderIsRead(q, limit, f, tail);
    FlagsReadBack(f);
    var wire := Encode(f, limit).value;
    assert (wire + tail)[|wire|..] == tail;
  }

  ghost predicate AllSendable(p: Policy, limit: nat, fs: seq<Frame>) {
    forall i :: 0 <= i < |fs| ==> MaySend(p, limit, fs[i])
  }

  /** What a sender writes for a frame: nothing when it cannot be encoded. */
  function Written(f: Frame, limit: nat): seq<byte> {
    var wire := Encode(f, limit);
    if wire.Ok? then wire.value else []
  }

  function Sent(fs: seq<Frame>, limit: nat): seq<byte> {
    if fs == [] then [] else Written(fs[0], limit) + Sent(fs[1..], limit)
  }

  type Drained = (seq<Received>, Option<WireError>)

  /** Receiving until the stream is used up or something is refused. */
  function Drain(p: Policy, s: seq<byte>): Drained
    decreases |s|
  {
    if s == [] then ([], None)
    else
      var (r, rest) := Receive(p, s);
      if r.Err? then ([], Some(r.error))
      else
        var (more, e) := Drain(p, rest);
        ([r.value] + more, e)
  }

  /** A frame as it comes out at the other end. */
  function Arrival(f: Frame, limit: nat): Received { Received(Written(f, limit), HeaderOf(f), f.payload) }

  function Arrivals(fs: seq<Frame>, limit: nat): seq<Received> {
    if fs == [] then [] else [Arrival(fs[0], limit)] + Arrivals(fs[1..], limit)
  }

  function Prefixed(rs: seq<Received>, d: Drained): Drained { (rs + d.0, d.1) }

  lemma DrainStep(p: Policy, limit: nat, f: Frame, rest: seq<byte>)
    requires MaySend(p, limit, f)
    ensures Drain(p, Written(f, limit) + rest) == Prefixed([Arrival(f, limit)], Drain(p, rest))
  {
    FrameIsReceived(p, limit, f, rest);
  }

  lemma PrefixedTwice(r: Received, rs: seq<Received>, d: Drained)
    ensures Prefixed([r], Prefixed(rs, d)) == Prefixed([r] + rs, d)
  {
    assert [r] + (rs + d.0) == [r] + rs + d.0;
  }

  lemma SentStep(fs: seq<Frame>, limit: nat, tail: seq<byte>)
    requires fs != []
    ensures Sent(fs, limit) + tail == Written(fs[0], limit) + (Sent(fs[1..], limit) + tail)
  {}

  /** Frames that one end may send, put together in any number, are split at the same places by the other. */
  lemma {:induction false} StreamSplitsAsSent(p: Policy, limit: nat, fs: seq<Frame>, tail: seq<byte>)
    requires AllSendable(p, limit, fs)
    ensures Drain(p, Sent(fs, limit) + tail) == Prefixed(Arrivals(fs, limit), Drain(p, tail))
    decreases |fs|
  {
    if fs == [] {
      var d := Drain(p, tail);
      assert Sent(fs, limit) + tail == tail && [] + d.0 == d.0;
    } else {
      var rest := Sent(fs[1..], limit) + tail;
      StreamSplitsAsSent(p, limit, fs[1..], tail);
      DrainStep(p, limit, fs[0], rest);
      SentStep(fs, limit, tail);
      PrefixedTwice(Arrival(fs[0], limit), Arrivals(fs[1..], limit), Drain(p, tail));
    }
  }

  function Raw(rs: seq<Received>): seq<byte> {
    if rs == [] then [] else rs[0].raw + Raw(rs[1..])
  }

  /** A stream that was taken to its end is the concatenation of what was taken, byte for byte. */
  lemma {:induction false} CleanDrainLosesNothing(p: Policy, s: seq<byte>)
    ensures Raw(Drain(p, s).0) <= s
    ensures Drain(p, s).1.None? ==> Raw(Drain(p, s).0) == s
    decreases |s|
  {
    if s != [] {
      var (r, rest) := Receive(p, s);
      if r.Ok? {
        CleanDrainLosesNothing(p, rest);
        assert Drain(p, s).0[1..] == Drain(p, rest).0;
      }
    }
  }

  /** Sharing one policy is also necessary: two different negotiated ones refuse each other's frames. */
  lemma DifferentPoliciesClash(p: Policy, q: Policy) returns (f: Frame)
    requires p != q && p.default != BinaryVector && q.default != BinaryVector
    ensures MaySend(p, MAX_SHORT, f) != MaySend(q, MAX_SHORT, f)
  {
    f := if p.default != q.default then Frame(CAPS, true, p.default, []) else Frame(QUERY, true, BinaryVector, []);
  }
}
