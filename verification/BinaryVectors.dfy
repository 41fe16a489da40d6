/** The BinaryVector payload: a fixed prefix, the metadata bytes, then one segment per vector. */
module BinaryVectors {
  import opened Common
  import opened Wire
  import opened PrefixCodes

  /** A float32, by its bit pattern. */
  type Word = x: int | 0 <= x <= 0xFFFF_FFFF
  type Vector = seq<Word>

  const MAGIC: seq<byte> := [78, 80, 66, 86]
  const VERSION: byte := 1
  const PREFIX := 16

  datatype VectorError =
    | TooManyVectors | PackFailed
    | PrefixTooShort | BadMagic | BadVersion | ReservedNotZero | MetadataTooLong | MetadataNotMap
    | MissingDimension | Truncated | Trailing

  datatype Content = Content(meta: seq<byte>, vectors: seq<Vector>)

  // ---------------------------------------------------------------- the layout

  function Le16(n: nat): (b: seq<byte>)
    requires n <= MAX_SHORT
    ensures |b| == 2
  {
    [n % 256, n / 256]
  }

  function Le32(n: Word): (b: seq<byte>)
    ensures |b| == 4
  {
    Le16(n % 65536) + Le16(n / 65536)
  }

  function ReadLe16(b: seq<byte>, at: nat): (n: nat)
    requires at + 2 <= |b|
    ensures n <= MAX_SHORT && b[at..at + 2] == Le16(n)
  {
    var low: int, high: int := b[at], b[at + 1];
    low + 256 * high
  }

  function ReadLe32(b: seq<byte>, at: nat): (n: Word)
    requires at + 4 <= |b|
    ensures b[at..at + 4] == Le32(n)
  {
    var low, high := ReadLe16(b, at), ReadLe16(b, at + 2);
    var n := low + 65536 * high;
    assert n % 65536 == low && n / 65536 == high;
    assert b[at..at + 4] == b[at..at + 2] + b[at + 2..at + 4];
    n
  }

  lemma Le16Unique(m: nat, n: nat)
    requires m <= MAX_SHORT && n <= MAX_SHORT && Le16(m) == Le16(n)
    ensures m == n
  {
    assert Le16(m)[0] == Le16(n)[0] && Le16(m)[1] == Le16(n)[1];
  }

  lemma Le32Unique(m: Word, n: Word)
    requires Le32(m) == Le32(n)
    ensures m == n
  {
    HeadsAndTails(Le16(m % 65536), Le16(m / 65536), Le16(n % 65536), Le16(n / 65536));
    Le16Unique(m % 65536, n % 65536);
    Le16Unique(m / 65536, n / 65536);
  }

  lemma Le32Inverse(b: seq<byte>, at: nat, n: Word)
    requires at + 4 <= |b|
    ensures ReadLe32(b, at) == n <==> b[at..at + 4] == Le32(n)
  {
    if b[at..at + 4] == Le32(n) { Le32Unique(ReadLe32(b, at), n); }
  }

  /** Elements are written with their least significant byte first. */
  lemma ElementsAreLittleEndian(n: Word)
    ensures var b := Le32(n); BigEndian([b[3], b[2], b[1], b[0]]) == n
  {
    var b := Le32(n);
    assert [b[3], b[2], b[1], b[0]] == U32(n);
    NumbersAreBigEndian(n);
  }

  function Floats(v: Vector): (b: seq<byte>)
    ensures |b| == 4 * |v|
  {
    FloatsLength(v);
    PutAll(Le32, v)
  }

  lemma {:induction false} FloatsLength(v: Vector)
    ensures |PutAll(Le32, v)| == 4 * |v|
  {
    if v != [] { FloatsLength(v[1..]); }
  }

  /** Dimension and elements; a dimension that does not fit its field has no segment. */
  function Segment(v: Vector): (b: seq<byte>)
    ensures |v| <= MAX_LONG ==> |b| == 4 + 4 * |v|
  {
    if |v| <= MAX_LONG then U32(|v|) + Floats(v) else []
  }

  predicate DimensionFits(v: Vector) { |v| <= MAX_LONG }

  predicate VectorsFit(vs: seq<Vector>) { forall i :: 0 <= i < |vs| ==> DimensionFits(vs[i]) }

  function Segments(vs: seq<Vector>): seq<byte> { PutAll(Segment, vs) }

  predicate Fits(c: Content) { |c.vectors| <= MAX_SHORT && |c.meta| <= MAX_LONG && VectorsFit(c.vectors) }

  function Prefix(vectors: nat, meta: nat): (b: seq<byte>)
    requires vectors <= MAX_SHORT && meta <= MAX_LONG
    ensures |b| == PREFIX
  {
    MAGIC + [VERSION, 0] + U16(vectors) + U32(meta) + U32(0)
  }

  function Assemble(c: Content): seq<byte>
    requires Fits(c)
  {
    Prefix(|c.vectors|, |c.meta|) + c.meta + Segments(c.vectors)
  }

  // ---------------------------------------------------------------- reading it

  function ReadFloats(p: seq<byte>, at: nat, dim: nat): (v: Vector)
    requires at + 4 * dim <= |p|
    ensures |v| == dim
    decreases dim
  {
    if dim == 0 then [] else [ReadLe32(p, at)] + ReadFloats(p, at + 4, dim - 1)
  }

  /** The first segment of `s`, and what follows it. */
  function TakeVector(s: seq<byte>): (r: Result<(Vector, seq<byte>), VectorError>)
    ensures r.Ok? ==> |r.value.1| < |s|
  {
    if |s| < 4 then Err(MissingDimension)
    else
      var dim := ReadU32(s, 0);
      if |s| - 4 < 4 * dim then Err(Truncated) else Ok((ReadFloats(s, 4, dim), s[4 + 4 * dim..]))
  }

  type Vectors = Result<seq<Vector>, VectorError>

  function ReadVectors(s: seq<byte>, count: nat): Vectors { TakeAll(TakeVector, s, count, Trailing) }

  /** The checks on the prefix, in order. */
  function PrefixError(p: seq<byte>): Option<VectorError> {
    if |p| < PREFIX then Some(PrefixTooShort)
    else if p[0..4] != MAGIC then Some(BadMagic)
    else if p[4] != VERSION then Some(BadVersion)
    else if p[5] != 0 || ReadU32(p, 12) != 0 then Some(ReservedNotZero)
    else if ReadU32(p, 8) > |p| - PREFIX then Some(MetadataTooLong)
    else None
  }

  /** `_decode_payload`; `isMap` says which metadata bytes unpack to a map. */
  function Decode(p: seq<byte>, isMap: seq<byte> -> bool): Result<Content, VectorError> {
    var e := PrefixError(p);
    if e.Some? then Err(e.value)
    else
      var end := PREFIX + ReadU32(p, 8);
      var meta := p[PREFIX..end];
      if !isMap(meta) then Err(MetadataNotMap)
      else
        var vs := ReadVectors(p[end..], ReadU16(p, 6));
        if vs.Err? then Err(vs.error) else Ok(Content(meta, vs.value))
  }

  // ---------------------------------------------------------------- the layout is a bijection

  lemma {:induction false} FloatsInverse(p: seq<byte>, at: nat, v: Vector)
    requires at + 4 * |v| <= |p|
    ensures ReadFloats(p, at, |v|) == v <==> p[at..at + 4 * |v|] == Floats(v)
    decreases |v|
  {
    if v != [] {
      var end := at + 4 * |v|;
      FloatsInverse(p, at + 4, v[1..]);
      Le32Inverse(p, at, v[0]);
      assert p[at..end] == p[at..at + 4] + p[at + 4..end];
      assert v == [v[0]] + v[1..];
      HeadsAndTails(p[at..at + 4], p[at + 4..end], Le32(v[0]), Floats(v[1..]));
      HeadsAndTails([ReadLe32(p, at)], ReadFloats(p, at + 4, |v| - 1), [v[0]], v[1..]);
    }
  }

  lemma HeadsAndTails<T>(a: seq<T>, b: seq<T>, c: seq<T>, d: seq<T>)
    requires |a| == |c|
    ensures a + b == c + d <==> a == c && b == d
  {
    if a + b == c + d {
      assert a == (a + b)[..|a|] && b == (a + b)[|a|..];
      assert c == (c + d)[..|a|] && d == (c + d)[|a|..];
    }
  }

  /** A vector is taken off exactly when its segment is what `s` begins with. */
  lemma TakeInvertsSegment(s: seq<byte>, v: Vector, rest: seq<byte>)
    ensures TakeVector(s) == Ok((v, rest)) <==> |v| <= MAX_LONG && s == Segment(v) + rest
  {
    if TakeVector(s) == Ok((v, rest)) {
      var end := 4 + 4 * |v|;
      FloatsInverse(s, 4, v);
      assert s == s[0..4] + s[4..end] + s[end..];
    }
    if |v| <= MAX_LONG && s == Segment(v) + rest {
      var end := 4 + 4 * |v|;
      assert s[0..4] == U32(|v|) && s[4..end] == Floats(v) && s[end..] == rest;
      ReadsU32(s, 0, |v|);
      FloatsInverse(s, 4, v);
    }
  }

  lemma SegmentsAreACode()
    ensures Inverse(Segment, TakeVector, DimensionFits)
  {
    forall v, rest | DimensionFits(v) ensures TakeVector(Segment(v) + rest) == Ok((v, rest)) {
      TakeInvertsSegment(Segment(v) + rest, v, rest);
    }
    forall s | TakeVector(s).Ok?
      ensures var (v, rest) := TakeVector(s).value; DimensionFits(v) && s == Segment(v) + rest
    {
      var (v, rest) := TakeVector(s).value;
      TakeInvertsSegment(s, v, rest);
    }
  }

  lemma VectorsAreRead(vs: seq<Vector>)
    requires VectorsFit(vs)
    ensures ReadVectors(Segments(vs), |vs|) == Ok(vs)
  {
    SegmentsAreACode();
    PutThenTake(Segment, TakeVector, DimensionFits, vs, Trailing);
  }

  lemma VectorsWereThere(s: seq<byte>, count: nat)
    requires ReadVectors(s, count).Ok?
    ensures var vs := ReadVectors(s, count).value;
            |vs| == count && VectorsFit(vs) && s == Segments(vs)
  {
    SegmentsAreACode();
    TakeThenPut(Segment, TakeVector, DimensionFits, s, count, Trailing);
  }

  lemma PrefixIsRead(p: seq<byte>, n: nat, m: nat)
    requires |p| >= PREFIX + m && n <= MAX_SHORT && m <= MAX_LONG && p[..PREFIX] == Prefix(n, m)
    ensures PrefixError(p).None? && ReadU16(p, 6) == n && ReadU32(p, 8) == m
  {
    var q := Prefix(n, m);
    assert p[0..4] == q[0..4] == MAGIC;
    assert p[4] == q[4] && p[5] == q[5];
    assert p[6..8] == q[6..8] == U16(n);
    assert p[8..12] == q[8..12] == U32(m);
    assert p[12..16] == q[12..16] == U32(0);
    ReadsU16(p, 6, n);
    ReadsU32(p, 8, m);
    ReadsU32(p, 12, 0);
  }

  lemma PrefixWasThere(p: seq<byte>)
    requires PrefixError(p).None?
    ensures p[..PREFIX] == Prefix(ReadU16(p, 6), ReadU32(p, 8))
  {
    assert p[..16] == p[0..4] + [p[4], p[5]] + p[6..8] + p[8..12] + p[12..16];
  }

  /** A payload decodes to a content exactly when it is that content's assembly, byte for byte. */
  lemma DecodeInvertsAssemble(p: seq<byte>, isMap: seq<byte> -> bool, c: Content)
    ensures Decode(p, isMap) == Ok(c) <==> Fits(c) && isMap(c.meta) && p == Assemble(c)
  {
    if Fits(c) && isMap(c.meta) && p == Assemble(c) { AssemblyDecodes(p, isMap, c); }
    if Decode(p, isMap) == Ok(c) { DecodedIsAssembly(p, isMap, c); }
  }

  lemma AssemblyDecodes(p: seq<byte>, isMap: seq<byte> -> bool, c: Content)
    requires Fits(c) && isMap(c.meta) && p == Assemble(c)
    ensures Decode(p, isMap) == Ok(c)
  {
    var end := PREFIX + |c.meta|;
    assert p[..PREFIX] == Prefix(|c.vectors|, |c.meta|);
    PrefixIsRead(p, |c.vectors|, |c.meta|);
    assert p[PREFIX..end] == c.meta;
    assert p[end..] == Segments(c.vectors);
    VectorsAreRead(c.vectors);
  }

  lemma DecodedIsAssembly(p: seq<byte>, isMap: seq<byte> -> bool, c: Content)
    requires Decode(p, isMap) == Ok(c)
    ensures Fits(c) && isMap(c.meta) && p == Assemble(c)
  {
    var count, end := ReadU16(p, 6), PREFIX + ReadU32(p, 8);
    assert c.meta == p[PREFIX..end] && |c.meta| == ReadU32(p, 8) && ReadVectors(p[end..], count) == Ok(c.vectors);
    VectorsWereThere(p[end..], count);
    PrefixWasThere(p);
    ThreeParts(p, PREFIX, end);
  }

  lemma ThreeParts(p: seq<byte>, i: nat, j: nat)
    requires i <= j <= |p|
    ensures p == p[..i] + p[i..j] + p[j..]
  {}

  /** Where everything stands in a payload: `NPBV`, version 1, two counts, zeros, the metadata, then the segments. */
  lemma PayloadLayout(c: Content)
    requires Fits(c)
    ensures var p := Assemble(c);
            && |p| >= 16 + |c.meta| && p[..6] == [78, 80, 66, 86, 1, 0]
            && BigEndian(p[6..8]) == |c.vectors| && BigEndian(p[8..12]) == |c.meta|
            && p[12..16] == [0, 0, 0, 0] && p[16..16 + |c.meta|] == c.meta
            && p[16 + |c.meta|..] == Segments(c.vectors)
  {
    var p, head := Assemble(c), Prefix(|c.vectors|, |c.meta|);
    assert p[..16] == head;
    assert p[..6] == head[..6] && p[6..8] == head[6..8] && p[8..12] == head[8..12] && p[12..16] == head[12..16];
    assert head[6..8] == U16(|c.vectors|) && head[8..12] == U32(|c.meta|) && head[12..16] == U32(0);
    NumbersAreBigEndian(|c.vectors|);
    NumbersAreBigEndian(|c.meta|);
  }

  /** And in a segment: the dimension, then the elements in order, four bytes each. */
  lemma {:induction false} ElementLayout(v: Vector, i: nat)
    requires i < |v|
    ensures |Floats(v)| == 4 * |v| && Floats(v)[4 * i..4 * i + 4] == Le32(v[i])
    decreases i
  {
    FloatsLength(v);
    var rest := v[1..];
    assert Floats(v) == Le32(v[0]) + Floats(rest);
    if i > 0 {
      ElementLayout(rest, i - 1);
      assert Floats(v)[4 * i..4 * i + 4] == Floats(rest)[4 * (i - 1)..4 * (i - 1) + 4];
    }
  }

  lemma SegmentLayout(v: Vector)
    requires |v| <= MAX_LONG
    ensures |Segment(v)| == 4 + 4 * |v| && BigEndian(Segment(v)[..4]) == |v| && Segment(v)[4..] == Floats(v)
  {
    NumbersAreBigEndian(|v|);
    assert Segment(v)[..4] == U32(|v|);
  }

  // ---------------------------------------------------------------- the codec's loops

  /** `struct.pack_into` and slice assignment: overwrite in place. */
  method PackInto(b: array<byte>, at: nat, bytes: seq<byte>)
    requires at + |bytes| <= b.Length
    modifies b
    ensures b[..at] == old(b[..at]) && b[at..at + |bytes|] == bytes
    ensures b[..at + |bytes|] == old(b[..at]) + bytes
  {
    var i := 0;
    while i < |bytes|
      invariant 0 <= i <= |bytes| && b[..at] == old(b[..at])
      invariant b[at..at + i] == bytes[..i]
    {
      b[at + i] := bytes[i];
      i := i + 1;
    }
  }

  method SegmentSize(vs: seq<Vector>) returns (n: nat)
    ensures VectorsFit(vs) ==> n == |Segments(vs)|
  {
    n := 0;
    for i := 0 to |vs|
      invariant VectorsFit(vs) ==> n == |Segments(vs[..i])|
    {
      PutAllAppend(Segment, vs, i);
      n := n + 4 + |vs[i]| * 4;
    }
    assert vs[..|vs|] == vs;
  }

  method PackVector(b: array<byte>, at: nat, v: Vector)
    requires |v| <= MAX_LONG && at + 4 + 4 * |v| <= b.Length
    modifies b
    ensures b[..at + 4 + 4 * |v|] == old(b[..at]) + Segment(v)
  {
    ghost var head := b[..at] + U32(|v|);
    PackInto(b, at, U32(|v|));
    var offset := at + 4;
    for j := 0 to |v|
      invariant offset == at + 4 + 4 * j && b[..offset] == head + Floats(v[..j])
    {
      PackInto(b, offset, Le32(v[j]));
      PutAllAppend(Le32, v, j);
      offset := offset + 4;
      assert head + Floats(v[..j]) + Le32(v[j]) == head + Floats(v[..j + 1]);
    }
    assert v[..|v|] == v;
    assert old(b[..at]) + U32(|v|) + Floats(v) == old(b[..at]) + Segment(v);
  }

  method PackPrefix(b: array<byte>, vectors: nat, meta: nat)
    requires vectors <= MAX_SHORT && meta <= MAX_LONG && PREFIX <= b.Length
    modifies b
    ensures b[..PREFIX] == Prefix(vectors, meta)
  {
    PackInto(b, 0, MAGIC);
    PackInto(b, 4, [VERSION, 0]);
    PackInto(b, 6, U16(vectors));
    PackInto(b, 8, U32(meta));
    PackInto(b, 12, U32(0));
  }

  method PackVectors(b: array<byte>, at: nat, vs: seq<Vector>)
    requires VectorsFit(vs) && b.Length == at + |Segments(vs)|
    modifies b
    ensures b[..] == old(b[..at]) + Segments(vs)
  {
    var offset: nat := at;
    for i := 0 to |vs|
      invariant offset == at + |Segments(vs[..i])| <= b.Length
      invariant b[..offset] == old(b[..at]) + Segments(vs[..i])
    {
      PutAllAppend(Segment, vs, i);
      PutAllGrows(Segment, vs, i + 1);
      ghost var done := Segments(vs[..i]);
      PackVector(b, offset, vs[i]);
      offset := offset + 4 + 4 * |vs[i]|;
      assert old(b[..at]) + done + Segment(vs[i]) == old(b[..at]) + (done + Segment(vs[i]));
    }
    assert vs[..|vs|] == vs;
    assert b[..] == b[..offset];
  }

  /** `encode`, after the vectors have been taken out of the metadata and the metadata packed. */
  method EncodePayload(c: Content) returns (r: Result<seq<byte>, VectorError>)
    ensures r.Ok? <==> Fits(c)
    ensures r.Ok? ==> r.value == Assemble(c)
    ensures r == Err(TooManyVectors) <==> |c.vectors| > MAX_SHORT
  {
    if |c.vectors| > MAX_SHORT { return Err(TooManyVectors); }
    var size := SegmentSize(c.vectors);
    if |c.meta| > MAX_LONG || !VectorsFit(c.vectors) { return Err(PackFailed); }
    var b := new byte[PREFIX + |c.meta| + size](_ => 0);
    PackPrefix(b, |c.vectors|, |c.meta|);
    PackInto(b, PREFIX, c.meta);
    PackVectors(b, PREFIX + |c.meta|, c.vectors);
    r := Ok(b[..]);
  }

  lemma {:induction false} FloatsShift(p: seq<byte>, from: nat, at: nat, dim: nat)
    requires from + at + 4 * dim <= |p|
    ensures ReadFloats(p[from..], at, dim) == ReadFloats(p, from + at, dim)
    decreases dim
  {
    if dim > 0 { FloatsShift(p, from, at + 4, dim - 1); }
  }

  /** What is still to be decoded from `offset` on. */
  ghost function Remaining(p: seq<byte>, offset: int, count: int): Vectors {
    if 0 <= offset <= |p| && count >= 0 then ReadVectors(p[offset..], count) else Err(Truncated)
  }

  lemma NoneRemain(p: seq<byte>, offset: nat)
    requires offset <= |p|
    ensures Remaining(p, offset, 0) == if offset == |p| then Ok([]) else Err(Trailing)
  {
    assert p[offset..] == [] <==> offset == |p|;
  }

  lemma RemainingOne(p: seq<byte>, offset: nat, todo: nat, v: Vector, next: nat, before: seq<Vector>)
    requires offset <= next <= |p| && todo > 0 && TakeVector(p[offset..]) == Ok((v, p[next..]))
    ensures Following(before, Remaining(p, offset, todo)) == Following(before + [v], Remaining(p, next, todo - 1))
  {
    TakeOne(TakeVector, p[offset..], todo, Trailing, v, p[next..]);
    FollowingOne(before, v, Remaining(p, next, todo - 1));
  }

  /** One turn of the decoding loop: `before` has been read and `todo` vectors are still to come. */
  method DecodeVector(p: seq<byte>, offset: nat, ghost before: seq<Vector>, ghost todo: nat)
    returns (r: Result<(Vector, nat), VectorError>)
    requires offset <= |p| && todo > 0
    ensures r.Err? ==> Following(before, Remaining(p, offset, todo)) == Err(r.error)
    ensures r.Ok? ==>
      var (v, next) := r.value;
      && next <= |p|
      && Following(before, Remaining(p, offset, todo)) == Following(before + [v], Remaining(p, next, todo - 1))
  {
    if |p| - offset < 4 { return Err(MissingDimension); }
    var dim := ReadU32(p, offset);
    assert dim == ReadU32(p[offset..], 0);
    var next := offset + 4;
    if |p| - next < dim * 4 { return Err(Truncated); }
    FloatsShift(p, offset, 4, dim);
    var vector := ReadFloats(p, next, dim);
    next := next + dim * 4;
    assert p[offset..][4 + 4 * dim..] == p[next..];
    RemainingOne(p, offset, todo, vector, next, before);
    r := Ok((vector, next));
  }

  lemma FollowingNothing(whole: Vectors)
    ensures Following([], whole) == whole
  {
    if whole.Ok? { assert [] + whole.value == whole.value; }
  }

  method DecodeVectors(p: seq<byte>, start: nat, count: nat) returns (r: Vectors)
    requires start <= |p|
    ensures r == Remaining(p, start, count)
  {
    var offset: nat := start;
    var vectors: seq<Vector> := [];
    ghost var whole := Remaining(p, start, count);
    FollowingNothing(whole);
    for i := 0 to count
      invariant offset <= |p| && Following(vectors, Remaining(p, offset, count - i)) == whole
    {
      var one := DecodeVector(p, offset, vectors, count - i);
      if one.Err? { return Err(one.error); }
      offset := one.value.1;
      vectors := vectors + [one.value.0];
    }
    NoneRemain(p, offset);
    if offset != |p| { return Err(Trailing); }
    assert vectors + [] == vectors;
    r := Ok(vectors);
  }

  /** `_decode_payload`: no step reads outside the payload. */
  method DecodePayload(p: seq<byte>, isMap: seq<byte> -> bool) returns (r: Result<Content, VectorError>)
    ensures r == Decode(p, isMap)
  {
    if |p| < PREFIX { return Err(PrefixTooShort); }
    if p[0..4] != MAGIC { return Err(BadMagic); }
    if p[4] != VERSION { return Err(BadVersion); }
    if p[5] != 0 || ReadU32(p, 12) != 0 { return Err(ReservedNotZero); }
    var count, metaLen := ReadU16(p, 6), ReadU32(p, 8);
    if metaLen > |p| - PREFIX { return Err(MetadataTooLong); }
    var offset := PREFIX + metaLen;
    var meta := p[PREFIX..offset];
    if !isMap(meta) { return Err(MetadataNotMap); }
    var vectors := DecodeVectors(p, offset, count);
    r := if vectors.Err? then Err(vectors.error) else Ok(Content(meta, vectors.value));
  }
}
