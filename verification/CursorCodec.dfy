/** The two cursor formats: a plain decimal, and a small JSON document in unpadded URL-safe base64. */
module CursorCodec {
  import opened Common
  import opened Decimals
  import opened Paging

  // ---------------------------------------------------------------- integers

  function PrintInt(n: int): string { if n >= 0 then PrintNat(n) else "-" + PrintNat(-n) }

  function ParseInt(s: string): Option<int> {
    if AllDigits(s) then Some(ParseNat(s))
    else if s != "" && s[0] == '-' && AllDigits(s[1..]) then var n: int := ParseNat(s[1..]); Some(-n)
    else None
  }

  lemma IntRoundTrips(n: int)
    ensures ParseInt(PrintInt(n)) == Some(n) && PrintInt(n) != ""
    ensures forall i :: 0 <= i < |PrintInt(n)| ==> IsDigit(PrintInt(n)[i]) || PrintInt(n)[i] == '-'
  {
    if n < 0 {
      var s := PrintInt(n);
      assert s[0] == '-' && s[1..] == PrintNat(-n);
    }
  }

  // ---------------------------------------------------------------- base64

  type Octet = x: int | 0 <= x < 256
  type Sextet = x: int | 0 <= x < 64

  // How octets are cut into sextets, and put together again.

  function First(a: Octet): Sextet { a / 4 }
  function Second(a: Octet, b: Octet): Sextet { a % 4 * 16 + b / 16 }
  function Third(b: Octet, c: Octet): Sextet { b % 16 * 4 + c / 64 }
  function Fourth(c: Octet): Sextet { c % 64 }

  function OctetA(p: Sextet, q: Sextet): Octet { var x: int, y: int := p, q; x * 4 + y / 16 }
  function OctetB(q: Sextet, r: Sextet): Octet { var x: int, y: int := q, r; x % 16 * 16 + y / 4 }
  function OctetC(r: Sextet, s: Sextet): Octet { var x: int, y: int := r, s; x % 4 * 64 + y }

  /** Three octets in four sextets; one or two left over give two or three. */
  function Sextets(b: seq<Octet>): seq<Sextet> {
    if |b| == 0 then []
    else if |b| == 1 then [First(b[0]), Second(b[0], 0)]
    else if |b| == 2 then [First(b[0]), Second(b[0], b[1]), Third(b[1], 0)]
    else [First(b[0]), Second(b[0], b[1]), Third(b[1], b[2]), Fourth(b[2])] + Sextets(b[3..])
  }

  function Octets(s: seq<Sextet>): Option<seq<Octet>> {
    if |s| == 0 then Some([])
    else if |s| == 1 then None
    else if |s| == 2 then Some([OctetA(s[0], s[1])])
    else if |s| == 3 then Some([OctetA(s[0], s[1]), OctetB(s[1], s[2])])
    else match Octets(s[4..])
      case None => None
      case Some(rest) => Some([OctetA(s[0], s[1]), OctetB(s[1], s[2]), OctetC(s[2], s[3])] + rest)
  }

  lemma TripleRoundTrips(a: Octet, b: Octet, c: Octet)
    ensures OctetA(First(a), Second(a, b)) == a && OctetB(Second(a, b), Third(b, c)) == b &&
            OctetC(Third(b, c), Fourth(c)) == c
  {}

  lemma {:induction false} Base64RoundTrips(b: seq<Octet>)
    ensures Octets(Sextets(b)) == Some(b)
    decreases |b|
  {
    if |b| == 1 {
      TripleRoundTrips(b[0], 0, 0);
      assert b == [b[0]];
    } else if |b| == 2 {
      TripleRoundTrips(b[0], b[1], 0);
      assert b == [b[0], b[1]];
    } else if |b| >= 3 {
      TripleRoundTrips(b[0], b[1], b[2]);
      Base64RoundTrips(b[3..]);
      assert Sextets(b)[4..] == Sextets(b[3..]);
      assert b == [b[0], b[1], b[2]] + b[3..];
    }
  }

  /** The URL-safe alphabet. */
  function Letter(v: Sextet): char {
    if v < 26 then 'A' + v as char else if v < 52 then 'a' + (v - 26) as char
    else if v < 62 then '0' + (v - 52) as char else if v == 62 then '-' else '_'
  }

  function LetterValue(c: char): Option<Sextet> {
    if 'A' <= c <= 'Z' then Some((c - 'A') as int)
    else if 'a' <= c <= 'z' then Some((c - 'a') as int + 26)
    else if '0' <= c <= '9' then Some((c - '0') as int + 52)
    else if c == '-' then Some(62) else if c == '_' then Some(63) else None
  }

  function Letters(s: seq<Sextet>): string { if s == [] then "" else [Letter(s[0])] + Letters(s[1..]) }

  function Values(s: string): Option<seq<Sextet>> {
    if s == "" then Some([])
    else match LetterValue(s[0])
      case None => None
      case Some(v) => (match Values(s[1..]) case None => None case Some(rest) => Some([v] + rest))
  }

  lemma LetterRoundTrips(v: Sextet)
    ensures LetterValue(Letter(v)) == Some(v)
  {}

  lemma {:induction false} LettersRoundTrip(s: seq<Sextet>)
    ensures Values(Letters(s)) == Some(s) && |Letters(s)| == |s|
  {
    if s != [] {
      LetterRoundTrips(s[0]);
      LettersRoundTrip(s[1..]);
      assert Letters(s)[1..] == Letters(s[1..]);
      assert s == [s[0]] + s[1..];
    }
  }

  // ---------------------------------------------------------------- the document

  predicate IsAscii(s: string) { forall i :: 0 <= i < |s| ==> s[i] as int < 128 }

  function Bytes(s: string): seq<Octet>
    requires IsAscii(s)
  {
    seq(|s|, i requires 0 <= i < |s| => s[i] as int)
  }

  function TextOf(b: seq<Octet>): string { seq(|b|, i requires 0 <= i < |b| => b[i] as char) }

  const HEAD := "{\"o\":"

  /** `json.dumps({"o": n}, separators=(",", ":"))`. */
  function Document(n: int): string { HEAD + PrintInt(n) + "}" }

  /** The offset in such a document; anything else counts as the start. */
  function OffsetIn(doc: string): int {
    if |doc| > 6 && doc[..5] == HEAD && doc[|doc| - 1] == '}' then ParseInt(doc[5..|doc| - 1]).GetOr(0) else 0
  }

  lemma DocumentRoundTrips(n: int)
    ensures OffsetIn(Document(n)) == n && IsAscii(Document(n))
  {
    IntRoundTrips(n);
    DocumentParts(PrintInt(n));
    PartsAreAscii(PrintInt(n));
  }

  lemma DocumentParts(number: string)
    requires number != ""
    ensures var doc := HEAD + number + "}";
            |doc| > 6 && doc[..5] == HEAD && doc[5..|doc| - 1] == number && doc[|doc| - 1] == '}'
  {
    assert |HEAD| == 5;
  }

  lemma PartsAreAscii(number: string)
    requires forall i :: 0 <= i < |number| ==> IsDigit(number[i]) || number[i] == '-'
    ensures IsAscii(HEAD + number + "}")
  {
    var doc := HEAD + number + "}";
    forall i | 0 <= i < |doc| ensures doc[i] as int < 128 {
      if 5 <= i < |doc| - 1 { assert doc[i] == number[i - 5]; }
    }
  }

  function WriteCursor(n: int): string {
    DocumentRoundTrips(n);
    Letters(Sextets(Bytes(Document(n))))
  }

  function ReadCursor(cursor: string): int {
    match Values(cursor)
    case None => 0
    case Some(sextets) => (match Octets(sextets) case None => 0 case Some(bytes) => OffsetIn(TextOf(bytes)))
  }

  lemma CursorRoundTrips(n: int)
    ensures ReadCursor(WriteCursor(n)) == n && WriteCursor(n) != ""
  {
    DocumentRoundTrips(n);
    var bytes := Bytes(Document(n));
    Base64RoundTrips(bytes);
    LettersRoundTrip(Sextets(bytes));
    assert TextOf(bytes) == Document(n);
    assert Sextets(bytes) != [];
  }

  // ---------------------------------------------------------------- both providers

  /** `str(offset)` and `int(cursor)`. */
  function PlainCursors(): Cursors { Cursors(PrintInt, (s: string) => ParseInt(s).GetOr(0)) }

  /** `encode_cursor` and `decode_cursor`. */
  function OpaqueCursors(): Cursors { Cursors(WriteCursor, ReadCursor) }

  /** Both formats give back every offset. */
  lemma CursorsAreFaithful()
    ensures Faithful(PlainCursors()) && Faithful(OpaqueCursors())
  {
    forall n ensures PlainCursors().write(n) != "" && PlainCursors().read(PlainCursors().write(n)) == n {
      IntRoundTrips(n);
    }
    forall n ensures OpaqueCursors().write(n) != "" && OpaqueCursors().read(OpaqueCursors().write(n)) == n {
      CursorRoundTrips(n);
    }
  }

  lemma Collects<T>(full: seq<T>, limit: int, z: Cursors, steps: nat)
    requires Faithful(z) && limit > 0 && steps >= PageCount(|full|, limit)
    ensures Follow(c => MemoryPage(full, limit, z, c), None, steps) == Some(full)
    ensures Follow(c => SqlPage(full, limit, z, c), None, steps) == Some(full)
  {
    MemoryCuts(full, limit, z);
    SqlCuts(full, limit, z);
    FollowCollects(c => MemoryPage(full, limit, z, c), full, limit, z, 0, steps);
    FollowCollects(c => SqlPage(full, limit, z, c), full, limit, z, 0, steps);
  }

  /** So following the cursors of either provider, as they are written, ends with every row once. */
  lemma WrittenCursorsCollect<T>(full: seq<T>, limit: int, plain: Cursors, opaqueOnes: Cursors, steps: nat)
    requires plain == PlainCursors() && opaqueOnes == OpaqueCursors()
    requires limit > 0 && steps >= PageCount(|full|, limit)
    ensures Follow(c => MemoryPage(full, limit, plain, c), None, steps) == Some(full)
    ensures Follow(c => SqlPage(full, limit, opaqueOnes, c), None, steps) == Some(full)
  {
    CursorsAreFaithful();
    Collects(full, limit, plain, steps);
    Collects(full, limit, opaqueOnes, steps);
  }

  // ---------------------------------------------------------------- the format

  /** The letters are those of section 5 of RFC 4648: A to Z, a to z, 0 to 9, minus and underscore, in that order. */
  lemma LettersAreTheAlphabet(v: Sextet)
    ensures Letter(0) == 'A' && Letter(25) == 'Z' && Letter(26) == 'a' && Letter(51) == 'z'
    ensures Letter(52) == '0' && Letter(61) == '9' && Letter(62) == '-' && Letter(63) == '_'
    ensures v < 61 && v != 25 && v != 51 ==> Letter(v + 1) as int == Letter(v) as int + 1
  {}

  /** Three octets and the four sextets they become are one number, most significant part first. */
  lemma SextetsAreBits(a: Octet, b: Octet, c: Octet)
    ensures 262144 * First(a) + 4096 * Second(a, b) + 64 * Third(b, c) + Fourth(c) == 65536 * a + 256 * b + c
  {}
}
