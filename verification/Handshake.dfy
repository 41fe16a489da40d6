/** Native-mode handshake: version and encoding negotiation, and the policy each end derives from it. */
module Handshake {
  import opened Common
  import opened Wire
  import opened Decimals

  // ---------------------------------------------------------------- versions

  datatype Version = Version(major: nat, minor: nat) {
    predicate Leq(other: Version) { major < other.major || (major == other.major && minor <= other.minor) }
  }

  function DotAt(s: string): (k: nat)
    ensures k <= |s| && (k < |s| ==> s[k] == '.') && '.' !in s[..k]
  {
    if s == "" || s[0] == '.' then 0
    else
      assert forall k: nat :: k <= |s| - 1 ==> s[..k + 1] == [s[0]] + s[1..][..k];
      1 + DotAt(s[1..])
  }

  /** `_parse_version`: two runs of digits with one dot between them. */
  function ParseVersion(s: string): Option<Version> {
    var k := DotAt(s);
    if k < |s| && AllDigits(s[..k]) && AllDigits(s[k + 1..]) then Some(Version(ParseNat(s[..k]), ParseNat(s[k + 1..])))
    else None
  }

  function PrintVersion(v: Version): string { PrintNat(v.major) + "." + PrintNat(v.minor) }

  lemma VersionRoundTrips(v: Version)
    ensures ParseVersion(PrintVersion(v)) == Some(v)
  {
    var a, b := PrintNat(v.major), PrintNat(v.minor);
    var s := PrintVersion(v);
    var k := DotAt(s);
    assert s[|a|] == '.';
    assert k == |a|;
    assert s[..k] == a && s[k + 1..] == b;
  }

  /** A version is exactly two runs of digits with one dot between them, read as two numbers. */
  lemma VersionReadsExactly(s: string, v: Version)
    ensures ParseVersion(s) == Some(v) <==>
              exists a, b :: s == a + "." + b && AllDigits(a) && AllDigits(b) && v == Version(ParseNat(a), ParseNat(b))
  {
    var k := DotAt(s);
    if ParseVersion(s) == Some(v) {
      assert s == s[..k] + "." + s[k + 1..];
    }
    if a, b :| s == a + "." + b && AllDigits(a) && AllDigits(b) && v == Version(ParseNat(a), ParseNat(b)) {
      assert s[|a|] == '.' && forall i :: 0 <= i < |a| ==> s[i] == a[i];
      assert k == |a|;
      assert s[..k] == a && s[k + 1..] == b;
    }
  }

  // ---------------------------------------------------------------- negotiation

  const VECTORS := "binary_vector.v1"

  datatype Profile = Profile(
    minVersion: string, version: string, encodings: seq<string>, protocols: seq<string>,
    maxPayload: int, ext: bool, streams: int)

  datatype Hello = Hello(
    version: string, encodings: seq<string>, protocols: seq<string>, minVersion: Option<string>,
    maxPayload: int, ext: bool, streams: int)

  datatype Caps = Caps(
    version: string, encoding: string, enabled: seq<string>, protocols: seq<string>,
    maxPayload: int, ext: bool, streams: int)

  datatype Decision = VersionIncompatible | EncodingUnsupported | Accept(caps: Caps)

  /** `client.min_version or client.nps_version`. */
  function Oldest(c: Hello): string {
    if c.minVersion.None? || c.minVersion.value == "" then c.version else c.minVersion.value
  }

  function Higher(a: Version, b: Version): Version { if a.Leq(b) then b else a }
  function Lower(a: Version, b: Version): Version { if a.Leq(b) then a else b }

  /** The highest version inside both ranges. */
  function Overlap(s: Profile, c: Hello): Option<Version> {
    var smin, smax := ParseVersion(s.minVersion), ParseVersion(s.version);
    var cmin, cmax := ParseVersion(Oldest(c)), ParseVersion(c.version);
    if smin.None? || smax.None? || cmin.None? || cmax.None? then None
    else if !smin.value.Leq(smax.value) || !cmin.value.Leq(cmax.value) then None
    else
      var top := Lower(smax.value, cmax.value);
      if Higher(smin.value, cmin.value).Leq(top) then Some(top) else None
  }

  predicate IsStable(t: string) { t == "msgpack" || t == "json" }

  /** The first stable encoding of the client's list that the server has. */
  function FirstStable(offered: seq<string>, supported: seq<string>): Option<string> {
    if offered == [] then None
    else if IsStable(offered[0]) && offered[0] in supported then Some(offered[0])
    else FirstStable(offered[1..], supported)
  }

  /** The client's protocols that the server has, in order, each once. */
  function Shared(offered: seq<string>, supported: seq<string>, done: seq<string>): seq<string>
    decreases |offered|
  {
    if offered == [] then done
    else if offered[0] in supported && offered[0] !in done then Shared(offered[1..], supported, done + [offered[0]])
    else Shared(offered[1..], supported, done)
  }

  /** `negotiate_handshake`. */
  function Negotiate(s: Profile, c: Hello): Decision {
    var top := Overlap(s, c);
    var stable := FirstStable(c.encodings, s.encodings);
    var protocols := Shared(c.protocols, s.protocols, []);
    if top.None? then VersionIncompatible
    else if stable.None? then EncodingUnsupported
    else if "ncp" !in protocols || c.maxPayload <= 0 || s.maxPayload <= 0 || c.streams <= 0 || s.streams <= 0 then
      VersionIncompatible
    else
      var enabled := [stable.value] + if VECTORS in s.encodings && VECTORS in c.encodings then [VECTORS] else [];
      Accept(Caps(PrintVersion(top.value), stable.value, enabled, protocols,
                  Min(s.maxPayload, c.maxPayload), s.ext && c.ext, Min(s.streams, c.streams)))
  }

  /** A version that both ends' ranges contain. */
  ghost predicate Supported(v: Version, s: Profile, c: Hello) {
    var smin, smax := ParseVersion(s.minVersion), ParseVersion(s.version);
    var cmin, cmax := ParseVersion(Oldest(c)), ParseVersion(c.version);
    && smin.Some? && smax.Some? && cmin.Some? && cmax.Some?
    && smin.value.Leq(v) && v.Leq(smax.value) && cmin.value.Leq(v) && v.Leq(cmax.value)
  }

  lemma OverlapIsHighestShared(s: Profile, c: Hello)
    ensures Overlap(s, c).Some? ==>
              Supported(Overlap(s, c).value, s, c) && forall v :: Supported(v, s, c) ==> v.Leq(Overlap(s, c).value)
    ensures Overlap(s, c).None? ==> forall v :: !Supported(v, s, c)
  {}

  lemma {:induction false} FirstStableIsPreferred(offered: seq<string>, supported: seq<string>)
    ensures var r := FirstStable(offered, supported);
            match r
            case None => forall t :: t in offered && IsStable(t) ==> t !in supported
            case Some(t) =>
              && IsStable(t) && t in supported
              && exists i :: 0 <= i < |offered| && offered[i] == t
                             && forall j :: 0 <= j < i && IsStable(offered[j]) ==> offered[j] !in supported
  {
    if offered != [] && !(IsStable(offered[0]) && offered[0] in supported) {
      FirstStableIsPreferred(offered[1..], supported);
      var r := FirstStable(offered[1..], supported);
      if r.Some? {
        var i :| 0 <= i < |offered[1..]| && offered[1..][i] == r.value
                 && forall j :: 0 <= j < i && IsStable(offered[1..][j]) ==> offered[1..][j] !in supported;
        assert offered[i + 1] == r.value;
        forall j | 0 <= j < i + 1 && IsStable(offered[j]) ensures offered[j] !in supported {
          if j > 0 { assert offered[1..][j - 1] == offered[j]; }
        }
      }
    }
  }

  ghost predicate Distinct(s: seq<string>) { forall i, j :: 0 <= i < j < |s| ==> s[i] != s[j] }

  lemma {:induction false} SharedAreDistinct(offered: seq<string>, supported: seq<string>, done: seq<string>)
    requires Distinct(done)
    ensures Distinct(Shared(offered, supported, done))
    decreases |offered|
  {
    if offered != [] {
      if offered[0] in supported && offered[0] !in done {
        assert Distinct(done + [offered[0]]);
        SharedAreDistinct(offered[1..], supported, done + [offered[0]]);
      } else {
        SharedAreDistinct(offered[1..], supported, done);
      }
    }
  }

  lemma {:induction false} SharedMeans(offered: seq<string>, supported: seq<string>, done: seq<string>, t: string)
    ensures t in Shared(offered, supported, done) <==> t in done || (t in offered && t in supported)
    decreases |offered|
  {
    if offered != [] {
      assert t in offered <==> t == offered[0] || t in offered[1..];
      var next := if offered[0] in supported && offered[0] !in done then done + [offered[0]] else done;
      SharedMeans(offered[1..], supported, next, t);
    }
  }

  lemma SharedIsIntersection(offered: seq<string>, supported: seq<string>)
    ensures var r := Shared(offered, supported, []);
            Distinct(r) && forall t :: t in r <==> t in offered && t in supported
  {
    SharedAreDistinct(offered, supported, []);
    forall t ensures t in Shared(offered, supported, []) <==> t in offered && t in supported {
      SharedMeans(offered, supported, [], t);
    }
  }

  ghost predicate Positive(s: Profile, c: Hello) {
    c.maxPayload > 0 && s.maxPayload > 0 && c.streams > 0 && s.streams > 0
  }

  ghost predicate SharesStable(s: Profile, c: Hello) {
    exists t :: t in c.encodings && IsStable(t) && t in s.encodings
  }

  /** When a handshake is accepted, and that the announced version is the highest one both ends support. */
  lemma AcceptedExactlyWhen(s: Profile, c: Hello)
    ensures Negotiate(s, c).Accept? <==>
              && (exists v :: Supported(v, s, c)) && SharesStable(s, c)
              && "ncp" in c.protocols && "ncp" in s.protocols && Positive(s, c)
    ensures Negotiate(s, c).Accept? ==>
              var v := ParseVersion(Negotiate(s, c).caps.version);
              v.Some? && Supported(v.value, s, c) && forall w :: Supported(w, s, c) ==> w.Leq(v.value)
  {
    OverlapIsHighestShared(s, c);
    FirstStableIsPreferred(c.encodings, s.encodings);
    SharedIsIntersection(c.protocols, s.protocols);
    if Overlap(s, c).Some? {
      VersionRoundTrips(Overlap(s, c).value);
      assert Supported(Overlap(s, c).value, s, c);
    }
    assert SharesStable(s, c) == FirstStable(c.encodings, s.encodings).Some?;
  }

  /** What is agreed on is what both ends can do: the lesser limits, and features that both have. */
  lemma AgreedIsCommon(s: Profile, c: Hello)
    requires Negotiate(s, c).Accept?
    ensures var caps := Negotiate(s, c).caps;
            && caps.maxPayload in {s.maxPayload, c.maxPayload}
            && 0 < caps.maxPayload <= s.maxPayload && caps.maxPayload <= c.maxPayload
            && caps.streams in {s.streams, c.streams}
            && 0 < caps.streams <= s.streams && caps.streams <= c.streams
            && (caps.ext <==> s.ext && c.ext)
            && caps.encoding in c.encodings && caps.encoding in s.encodings && IsStable(caps.encoding)
            && Distinct(caps.enabled)
            && (forall t :: t in caps.enabled <==>
                  t == caps.encoding || (t == "binary_vector.v1" && t in c.encodings && t in s.encodings))
            && Distinct(caps.protocols)
            && (forall t :: t in caps.protocols <==> t in c.protocols && t in s.protocols)
  {
    FirstStableIsPreferred(c.encodings, s.encodings);
    SharedIsIntersection(c.protocols, s.protocols);
    var caps := Negotiate(s, c).caps;
    assert IsStable(caps.encoding) ==> caps.encoding != VECTORS;
  }

  /** An encoding is blamed exactly when the versions overlap and no stable encoding is shared. */
  lemma EncodingBlamedExactlyWhen(s: Profile, c: Hello)
    ensures Negotiate(s, c) == EncodingUnsupported <==> (exists v :: Supported(v, s, c)) && !SharesStable(s, c)
  {
    OverlapIsHighestShared(s, c);
    FirstStableIsPreferred(c.encodings, s.encodings);
    if Overlap(s, c).Some? { assert Supported(Overlap(s, c).value, s, c); }
    assert SharesStable(s, c) == FirstStable(c.encodings, s.encodings).Some?;
  }

  /** Versions are ordered as two-digit numbers in any base above both minor numbers. */
  lemma VersionsOrder(a: Version, b: Version, base: nat)
    requires a.minor < base && b.minor < base
    ensures a.Leq(b) <==> a.major * base + a.minor <= b.major * base + b.minor
  {
    if a.major < b.major { Steps(a.major, b.major, base); }
    if b.major < a.major { Steps(b.major, a.major, base); }
  }

  lemma Steps(m: nat, n: nat, base: nat)
    requires m < n
    ensures m * base + base <= n * base
  {
    assert (m + 1) * base <= n * base by {
      assert n * base == (m + 1) * base + (n - m - 1) * base;
    }
  }

  // ---------------------------------------------------------------- both ends

  const ERROR: byte := 0xFE

  datatype ConnectError = Framing(error: WireError) | Refused | UnexpectedFrame | BadCaps

  /** How capability frames are serialised, by tier. */
  datatype Serialiser = Serialiser(pack: (Tier, Caps) -> seq<byte>, unpack: (Tier, seq<byte>) -> Option<Caps>)

  ghost predicate Faithful(z: Serialiser) {
    forall t, caps :: z.unpack(t, z.pack(t, caps)) == Some(caps)
  }

  function PolicyOfServer(caps: Caps): Policy {
    Policy(if caps.encoding == "msgpack" then MsgPack else Json, VECTORS in caps.enabled)
  }

  /** The policy follows from the offers: the client's first shared stable encoding, and vectors if both have them. */
  lemma PolicyFollowsOffers(s: Profile, c: Hello)
    requires Negotiate(s, c).Accept?
    ensures var p := PolicyOfServer(Negotiate(s, c).caps);
            && (p.default == MsgPack <==> Negotiate(s, c).caps.encoding == "msgpack")
            && (p.default == Json <==> Negotiate(s, c).caps.encoding == "json")
            && (p.vectors <==> "binary_vector.v1" in s.encodings && "binary_vector.v1" in c.encodings)
  {
    FirstStableIsPreferred(c.encodings, s.encodings);
  }

  function CapsFrame(caps: Caps, z: Serialiser): Frame {
    var t := PolicyOfServer(caps).default;
    Frame(CAPS, true, t, z.pack(t, caps))
  }

  /** The client's half: read one frame, and take the default tier from its header. */
  function Connect(stream: seq<byte>, z: Serialiser): Result<(Policy, seq<byte>), ConnectError> {
    var (h, rest) := ReadHeader(stream);
    if h.Err? then Err(Framing(h.error))
    else if |rest| < h.value.length then Err(Framing(Ended))
    else if h.value.kind == ERROR then Err(Refused)
    else if h.value.kind != CAPS then Err(UnexpectedFrame)
    else
      var t := TierOf(h.value.TierCode());
      if t.None? then Err(Framing(ReservedTier))
      else
        var caps := z.unpack(t.value, rest[..h.value.length]);
        if caps.None? then Err(BadCaps)
        else Ok((Policy(t.value, VECTORS in caps.value.enabled), rest[h.value.length..]))
  }

  lemma ServerMaySendCaps(caps: Caps, z: Serialiser, limit: nat)
    requires Encode(CapsFrame(caps, z), limit).Ok?
    ensures MaySend(PolicyOfServer(caps), limit, CapsFrame(caps, z))
  {}

  /** After an accepted handshake both ends hold one policy, and the client stands right after the capabilities. */
  lemma BothEndsAgree(s: Profile, c: Hello, z: Serialiser, limit: nat, tail: seq<byte>)
    requires Faithful(z) && Negotiate(s, c).Accept?
    requires Encode(CapsFrame(Negotiate(s, c).caps, z), limit).Ok?
    ensures var caps := Negotiate(s, c).caps;
            && Connect(Encode(CapsFrame(caps, z), limit).value + tail, z) == Ok((PolicyOfServer(caps), tail))
            && PolicyOfServer(caps).default != BinaryVector
            && (PolicyOfServer(caps).vectors <==> VECTORS in s.encodings && VECTORS in c.encodings)
  {
    var caps := Negotiate(s, c).caps;
    var f := CapsFrame(caps, z);
    FirstStableIsPreferred(c.encodings, s.encodings);
    ServerMaySendCaps(caps, z, limit);
    HeaderIsRead(PolicyOfServer(caps), limit, f, tail);
    FlagsReadBack(f);
    assert (f.payload + tail)[..|f.payload|] == f.payload && (f.payload + tail)[|f.payload|..] == tail;
    assert z.unpack(f.tier, z.pack(f.tier, caps)) == Some(caps);
  }

  /** From the first byte on: whatever the server sends after accepting, the client receives, frame by frame. */
  lemma SessionDelivers(s: Profile, c: Hello, z: Serialiser, limit: nat, frames: seq<Frame>)
    requires Faithful(z) && Negotiate(s, c).Accept?
    requires Encode(CapsFrame(Negotiate(s, c).caps, z), limit).Ok?
    requires AllSendable(PolicyOfServer(Negotiate(s, c).caps), limit, frames)
    ensures var caps := Negotiate(s, c).caps;
            var connected := Connect(Encode(CapsFrame(caps, z), limit).value + Sent(frames, limit), z);
            && connected.Ok? && Drain(connected.value.0, connected.value.1) == (Arrivals(frames, limit), None)
  {
    var p := PolicyOfServer(Negotiate(s, c).caps);
    var sent := Sent(frames, limit);
    BothEndsAgree(s, c, z, limit, sent);
    StreamSplitsAsSent(p, limit, frames, []);
    assert sent + [] == sent;
    assert Arrivals(frames, limit) + [] == Arrivals(frames, limit);
  }

  /** And the other way: what the client may send under the policy it derived, the server receives. */
  lemma SessionReceives(s: Profile, c: Hello, z: Serialiser, limit: nat, tail: seq<byte>, frames: seq<Frame>)
    requires Faithful(z) && Negotiate(s, c).Accept?
    requires Encode(CapsFrame(Negotiate(s, c).caps, z), limit).Ok?
    requires var connected := Connect(Encode(CapsFrame(Negotiate(s, c).caps, z), limit).value + tail, z);
             connected.Ok? ==> AllSendable(connected.value.0, limit, frames)
    ensures Drain(PolicyOfServer(Negotiate(s, c).caps), Sent(frames, limit)) == (Arrivals(frames, limit), None)
  {
    BothEndsAgree(s, c, z, limit, tail);
    StreamSplitsAsSent(PolicyOfServer(Negotiate(s, c).caps), limit, frames, []);
    assert Sent(frames, limit) + [] == Sent(frames, limit);
    assert Arrivals(frames, limit) + [] == Arrivals(frames, limit);
  }
}
