/**
 The Merkle inclusion fold of the reputation log client, compared with the tree and audit paths of section 2.1 of
 RFC 9162.

 The hash is any function with 32-byte results. No such function is injective on all byte strings, so nothing here
 assumes it: where an acceptance could only be wrong through a collision, the collision is produced.
 */
module Merkle {
  import opened Common

  newtype Byte = x: int | 0 <= x < 256

  type Bytes = seq<Byte>

  type Hash = Bytes -> Bytes

  ghost predicate IsDigest(h: Hash) { forall x :: |h(x)| == 32 }

  ghost predicate Collides(h: Hash, x: Bytes, y: Bytes) { x != y && h(x) == h(y) }

  function LeafHash(h: Hash, entry: Bytes): Bytes { h([0] + entry) }

  function NodeHash(h: Hash, left: Bytes, right: Bytes): Bytes { h([1] + left + right) }

  // ---------------------------------------------------------------- the client's fold

  /** One step: the lowest bit of the index says on which side the sibling stands; a shift rounds down. */
  function Fold(h: Hash, node: Bytes, index: int, path: seq<Bytes>): Bytes
    decreases |path|
  {
    if path == [] then node
    else
      var parent := if index % 2 == 0 then NodeHash(h, node, path[0]) else NodeHash(h, path[0], node);
      Fold(h, parent, index / 2, path[1..])
  }

  /** `verify_inclusion`; a step or root that does not decode is `None`. */
  method VerifyInclusion(h: Hash, entry: Bytes, index: int, path: seq<Option<Bytes>>, root: Option<Bytes>)
    returns (ok: bool)
    ensures ok <==>
              && (forall i :: 0 <= i < |path| ==> path[i].Some?) && root.Some?
              && Fold(h, LeafHash(h, entry), index, Decoded(path)) == root.value
  {
    var node, rest := LeafHash(h, entry), index;
    for i := 0 to |path|
      invariant forall k :: 0 <= k < i ==> path[k].Some?
      invariant (forall k :: 0 <= k < |path| ==> path[k].Some?) ==>
                  Fold(h, LeafHash(h, entry), index, Decoded(path)) == Fold(h, node, rest, Decoded(path[i..]))
    {
      if path[i].None? { return false; }
      var sibling := path[i].value;
      assert Decoded(path[i..])[1..] == Decoded(path[i + 1..]);
      node := if rest % 2 == 0 then NodeHash(h, node, sibling) else NodeHash(h, sibling, node);
      rest := rest / 2;
    }
    ok := root.Some? && node == root.value;
  }

  function Decoded(path: seq<Option<Bytes>>): seq<Bytes> {
    seq(|path|, i requires 0 <= i < |path| => path[i].GetOr([]))
  }

  /** Only the low bits of the index matter: the fold never looks past the length of the path. */
  lemma {:induction false} HighBitsAreIgnored(h: Hash, node: Bytes, index: int, path: seq<Bytes>)
    ensures Fold(h, node, index, path) == Fold(h, node, index % PowerOfTwo(|path|), path)
    decreases |path|
  {
    if path != [] {
      var p := PowerOfTwo(|path| - 1);
      var next := if index % 2 == 0 then NodeHash(h, node, path[0]) else NodeHash(h, path[0], node);
      LowBits(index, p);
      HighBitsAreIgnored(h, next, index / 2, path[1..]);
    }
  }

  lemma LowBits(index: int, p: nat)
    requires p > 0
    ensures index % (2 * p) % 2 == index % 2 && index % (2 * p) / 2 == index / 2 % p
  {
    var q := index / (2 * p);
    var r := index % (2 * p);
    assert index == 2 * (p * q) + r;
    assert index / 2 == p * q + r / 2;
    assert 0 <= r / 2 < p;
    DivModUnique(index / 2, p, q, r / 2);
  }

  lemma MultiplesAreApart(p: int, d: int)
    requires p > 0
    ensures d >= 1 ==> p * d >= p
    ensures d <= -1 ==> p * d <= -p
  {}

  lemma DivModUnique(n: int, p: nat, q: int, r: nat)
    requires p > 0 && n == p * q + r && r < p
    ensures n % p == r
  {
    var k := n / p;
    assert n == p * k + n % p;
    assert p * (k - q) == r - n % p;
    MultiplesAreApart(p, k - q);
  }

  // ---------------------------------------------------------------- the tree of RFC 9162

  function PowerOfTwo(n: nat): (r: nat)
    ensures r > 0
  {
    if n == 0 then 1 else 2 * PowerOfTwo(n - 1)
  }

  /** The height of a tree of `n` leaves. */
  function Height(n: nat): nat
    requires n > 0
  {
    if n == 1 then 0 else 1 + Height((n + 1) / 2)
  }

  lemma {:induction false} HeightBounds(n: nat)
    requires n > 0
    ensures n <= PowerOfTwo(Height(n))
    ensures n > 1 ==> PowerOfTwo(Height(n) - 1) < n
  {
    if n > 1 { HeightBounds((n + 1) / 2); }
  }

  lemma {:induction false} HeightIsLeast(n: nat, d: nat)
    requires n > 0 && n <= PowerOfTwo(d)
    ensures Height(n) <= d
  {
    if n > 1 { HeightIsLeast((n + 1) / 2, d - 1); }
  }

  /** The largest power of two below `n`. */
  function Split(n: nat): (k: nat)
    requires n > 1
    ensures 0 < k < n
  {
    HeightBounds(n);
    PowerOfTwo(Height(n) - 1)
  }

  function Root(h: Hash, leaves: seq<Bytes>): Bytes
    requires leaves != []
    decreases |leaves|
  {
    if |leaves| == 1 then LeafHash(h, leaves[0])
    else NodeHash(h, Root(h, leaves[..Split(|leaves|)]), Root(h, leaves[Split(|leaves|)..]))
  }

  /** The audit path of leaf `m`, lowest sibling first. */
  function AuditPath(h: Hash, m: nat, leaves: seq<Bytes>): seq<Bytes>
    requires m < |leaves|
    decreases |leaves|
  {
    if |leaves| == 1 then []
    else
      var k := Split(|leaves|);
      if m < k then AuditPath(h, m, leaves[..k]) + [Root(h, leaves[k..])]
      else AuditPath(h, m - k, leaves[k..]) + [Root(h, leaves[..k])]
  }

  /** On which side the running node stands at each level of that path; true is right. */
  function Sides(m: nat, n: nat): seq<bool>
    requires m < n
    decreases n
  {
    if n == 1 then []
    else if m < Split(n) then Sides(m, Split(n)) + [false]
    else Sides(m - Split(n), n - Split(n)) + [true]
  }

  function FoldSides(h: Hash, node: Bytes, sides: seq<bool>, path: seq<Bytes>): Bytes
    requires |sides| == |path|
  {
    if path == [] then node
    else
      var below := FoldSides(h, node, sides[..|path| - 1], path[..|path| - 1]);
      var sibling := path[|path| - 1];
      if sides[|path| - 1] then NodeHash(h, sibling, below) else NodeHash(h, below, sibling)
  }

  lemma {:induction false} HonestPath(h: Hash, m: nat, leaves: seq<Bytes>)
    requires m < |leaves|
    ensures |AuditPath(h, m, leaves)| == |Sides(m, |leaves|)|
    ensures FoldSides(h, LeafHash(h, leaves[m]), Sides(m, |leaves|), AuditPath(h, m, leaves)) == Root(h, leaves)
    decreases |leaves|
  {
    if |leaves| > 1 {
      var k := Split(|leaves|);
      var path, sides := AuditPath(h, m, leaves), Sides(m, |leaves|);
      if m < k { HonestPath(h, m, leaves[..k]); } else { HonestPath(h, m - k, leaves[k..]); }
      assert path[..|path| - 1] == if m < k then AuditPath(h, m, leaves[..k]) else AuditPath(h, m - k, leaves[k..]);
      assert sides[..|sides| - 1] == if m < k then Sides(m, k) else Sides(m - k, |leaves| - k);
    }
  }

  // ---------------------------------------------------------------- sides against index bits

  /** The `count` lowest bits of `m`, lowest first. */
  function Bits(m: int, count: nat): seq<bool>
    decreases count
  {
    if count == 0 then [] else [m % 2 == 1] + Bits(m / 2, count - 1)
  }

  predicate Bit(m: int, i: nat)
    decreases i
  {
    if i == 0 then m % 2 == 1 else Bit(m / 2, i - 1)
  }

  lemma {:induction false} BitsSnoc(m: int, count: nat)
    ensures Bits(m, count + 1) == Bits(m, count) + [Bit(m, count)] && |Bits(m, count)| == count
    decreases count
  {
    if count > 0 { BitsSnoc(m / 2, count - 1); }
  }

  /** Adding a high power of two changes no lower bit. */
  lemma {:induction false} LowBitsKept(r: nat, e: nat, count: nat)
    requires count <= e
    ensures Bits(PowerOfTwo(e) + r, count) == Bits(r, count)
    ensures count < e ==> Bit(PowerOfTwo(e) + r, count) == Bit(r, count)
    decreases count
  {
    if e > 0 {
      assert (PowerOfTwo(e) + r) / 2 == PowerOfTwo(e - 1) + r / 2 && (PowerOfTwo(e) + r) % 2 == r % 2;
      if count > 0 { LowBitsKept(r / 2, e - 1, count - 1); }
    }
  }

  lemma {:induction false} TopBit(r: nat, e: nat)
    requires r < PowerOfTwo(e)
    ensures !Bit(r, e) && Bit(PowerOfTwo(e) + r, e)
    decreases e
  {
    if e > 0 {
      assert (PowerOfTwo(e) + r) / 2 == PowerOfTwo(e - 1) + r / 2;
      TopBit(r / 2, e - 1);
    }
  }

  lemma {:induction false} FoldIsByBits(h: Hash, node: Bytes, index: int, path: seq<Bytes>)
    ensures |Bits(index, |path|)| == |path|
    ensures Fold(h, node, index, path) == FoldSides(h, node, Bits(index, |path|), path)
    decreases |path|
  {
    if path != [] {
      BitsSnoc(index, |path| - 1);
      FoldFront(h, node, index, path);
    }
  }

  lemma {:induction false} FoldFront(h: Hash, node: Bytes, index: int, path: seq<Bytes>)
    requires path != [] && |Bits(index, |path|)| == |path|
    ensures Fold(h, node, index, path) == FoldSides(h, node, Bits(index, |path|), path)
    decreases |path|, 0
  {
    var next := if index % 2 == 0 then NodeHash(h, node, path[0]) else NodeHash(h, path[0], node);
    FoldIsByBits(h, next, index / 2, path[1..]);
    FoldSidesCons(h, node, Bits(index, |path|), path);
  }

  lemma {:induction false} FoldSidesCons(h: Hash, node: Bytes, sides: seq<bool>, path: seq<Bytes>)
    requires |sides| == |path| > 0
    ensures FoldSides(h, node, sides, path) ==
              FoldSides(h, if sides[0] then NodeHash(h, path[0], node) else NodeHash(h, node, path[0]),
                        sides[1..], path[1..])
    decreases |path|
  {
    if |path| > 1 {
      FoldSidesCons(h, node, sides[..|path| - 1], path[..|path| - 1]);
      assert path[..|path| - 1][1..] == path[1..][..|path| - 2];
      assert sides[..|path| - 1][1..] == sides[1..][..|path| - 2];
    }
  }

  /** In a perfect tree every leaf is at full height. */
  lemma {:induction false} PerfectTree(m: nat, e: nat)
    requires m < PowerOfTwo(e)
    ensures Height(PowerOfTwo(e)) == e && |Sides(m, PowerOfTwo(e))| == e
    decreases e
  {
    if e > 0 {
      var half := PowerOfTwo(e - 1);
      PerfectTree(if m < half then m else m - half, e - 1);
      assert (2 * half + 1) / 2 == half;
      assert Split(PowerOfTwo(e)) == half;
    }
  }

  /** How the right part of a tree sits under its split. */
  lemma SplitBounds(n: nat)
    requires n > 1
    ensures Height(n) >= 1 && Split(n) == PowerOfTwo(Height(n) - 1) && n - Split(n) <= Split(n)
    ensures Height(n - Split(n)) <= Height(n) - 1
  {
    HeightBounds(n);
    HeightIsLeast(n - Split(n), Height(n) - 1);
  }

  lemma {:induction false} SidesWithinHeight(m: nat, n: nat)
    requires m < n
    ensures |Sides(m, n)| <= Height(n)
    ensures n > 1 && m < Split(n) ==> |Sides(m, n)| == Height(n)
    decreases n
  {
    if n > 1 {
      SplitBounds(n);
      if m < Split(n) { PerfectTree(m, Height(n) - 1); } else { SidesWithinHeight(m - Split(n), n - Split(n)); }
    }
  }

  /** The sides of a leaf are the low bits of its index exactly when the leaf is at full height. */
  lemma {:induction false} SidesAreBitsAtFullHeight(m: nat, n: nat)
    requires m < n
    ensures Sides(m, n) == Bits(m, |Sides(m, n)|) <==> |Sides(m, n)| == Height(n)
    decreases n
  {
    if n > 1 {
      SplitBounds(n);
      var e := Height(n) - 1;
      if m < Split(n) {
        PerfectTree(m, e);
        SidesAreBitsAtFullHeight(m, Split(n));
        BitsSnoc(m, e);
        TopBit(m, e);
      } else {
        RightLeaf(m, n);
      }
    }
  }

  /** The bit of a right leaf's index at the level where its path leaves the right subtree. */
  lemma ExitBit(r: nat, e: nat, d: nat, level: nat)
    requires level <= d <= e && r < PowerOfTwo(d)
    ensures level == e ==> Bit(PowerOfTwo(e) + r, level)
    ensures level == d < e ==> !Bit(PowerOfTwo(e) + r, level)
  {
    TopBit(r, d);
    if level == d < e { LowBitsKept(r, e, level); }
  }

  lemma {:induction false} RightLeaf(m: nat, n: nat)
    requires n > 1 && Split(n) <= m < n
    ensures Sides(m, n) == Bits(m, |Sides(m, n)|) <==> |Sides(m, n)| == Height(n)
    decreases n, 0
  {
    SplitBounds(n);
    var e, r, rest := Height(n) - 1, m - Split(n), n - Split(n);
    SidesAreBitsAtFullHeight(r, rest);
    SidesWithinHeight(r, rest);
    HeightBounds(rest);
    ExtendSides(Sides(r, rest), r, e, Height(rest));
  }

  lemma MatchOneMore(low: seq<bool>, bits: seq<bool>, bit: bool, e: nat, d: nat)
    requires |low| == |bits| <= d <= e && (low == bits <==> |low| == d)
    requires |low| == e ==> bit
    requires |low| == d < e ==> !bit
    ensures low + [true] == bits + [bit] <==> |low| == e
  {
    SameLast(low, true, bits, bit);
  }

  /** The next bit of an index under a split at `2^e`. */
  lemma NextBits(r: nat, e: nat, count: nat)
    requires count <= e
    ensures |Bits(r, count)| == count
    ensures Bits(PowerOfTwo(e) + r, count + 1) == Bits(r, count) + [Bit(PowerOfTwo(e) + r, count)]
  {
    LowBitsKept(r, e, count);
    BitsSnoc(PowerOfTwo(e) + r, count);
    BitsSnoc(r, count);
  }

  /** One more side, to the right, on top of a path through a subtree of height `d` under a split at `2^e`. */
  lemma ExtendSides(low: seq<bool>, r: nat, e: nat, d: nat)
    requires |low| <= d <= e && r < PowerOfTwo(d) && (low == Bits(r, |low|) <==> |low| == d)
    ensures low + [true] == Bits(PowerOfTwo(e) + r, |low| + 1) <==> |low| == e
  {
    ExitBit(r, e, d, |low|);
    NextBits(r, e, |low|);
    MatchOneMore(low, Bits(r, |low|), Bit(PowerOfTwo(e) + r, |low|), e, d);
  }

  lemma SameLast(a: seq<bool>, x: bool, b: seq<bool>, y: bool)
    requires |a| == |b|
    ensures a + [x] == b + [y] <==> a == b && x == y
  {
    assert (a + [x])[..|a|] == a && (b + [y])[..|b|] == b && (a + [x])[|a|] == x && (b + [y])[|b|] == y;
  }

  // ---------------------------------------------------------------- acceptance

  /** Completeness: the honest path of a leaf at full height is accepted, whatever the hash. */
  lemma FullHeightPathsAreAccepted(h: Hash, m: nat, leaves: seq<Bytes>)
    requires m < |leaves| && |AuditPath(h, m, leaves)| == Height(|leaves|)
    ensures Fold(h, LeafHash(h, leaves[m]), m, AuditPath(h, m, leaves)) == Root(h, leaves)
  {
    HonestPath(h, m, leaves);
    SidesAreBitsAtFullHeight(m, |leaves|);
    FoldIsByBits(h, LeafHash(h, leaves[m]), m, AuditPath(h, m, leaves));
  }

  /** Every leaf of a tree of 2^k leaves is at full height, so all their honest paths are accepted. */
  lemma PerfectTreesAreAccepted(h: Hash, m: nat, leaves: seq<Bytes>, k: nat)
    requires m < |leaves| == PowerOfTwo(k)
    ensures Fold(h, LeafHash(h, leaves[m]), m, AuditPath(h, m, leaves)) == Root(h, leaves)
  {
    PerfectTree(m, k);
    HonestPath(h, m, leaves);
    FullHeightPathsAreAccepted(h, m, leaves);
  }

  ghost predicate AllDigests(path: seq<Bytes>) { forall i :: 0 <= i < |path| ==> |path[i]| == 32 }

  /** A level at which the running node equals its sibling, so that the side does not matter. */
  ghost predicate HasTwin(h: Hash, node: Bytes, sides: seq<bool>, path: seq<Bytes>)
    requires |sides| == |path|
  {
    exists i :: 0 <= i < |path| && FoldSides(h, node, sides[..i], path[..i]) == path[i]
  }

  lemma FoldLength(h: Hash, node: Bytes, sides: seq<bool>, path: seq<Bytes>)
    requires IsDigest(h) && |node| == 32 && |sides| == |path|
    ensures |FoldSides(h, node, sides, path)| == 32
  {}

  lemma SamePair(a: Bytes, b: Bytes, c: Bytes, d: Bytes)
    requires |a| == |c| && [1] + a + b == [1] + c + d
    ensures a == c && b == d
  {
    var x, y := [1] + a + b, [1] + c + d;
    assert x[1..1 + |a|] == a && y[1..1 + |c|] == c;
    assert x[1 + |a|..] == b && y[1 + |c|..] == d;
  }

  function Preimage(node: Bytes, side: bool, sibling: Bytes): Bytes {
    if side then [1] + sibling + node else [1] + node + sibling
  }

  lemma SamePreimage(a: Bytes, s: bool, b: Bytes, t: bool, sibling: Bytes)
    requires |a| == |b| == |sibling| && Preimage(a, s, sibling) == Preimage(b, t, sibling)
    ensures if s == t then a == b else a == sibling
  {
    if s {
      if t { SamePair(sibling, a, sibling, b); } else { SamePair(sibling, a, b, sibling); }
    } else {
      if t { SamePair(a, sibling, sibling, b); } else { SamePair(a, sibling, b, sibling); }
    }
  }

  lemma FoldTop(h: Hash, node: Bytes, sides: seq<bool>, path: seq<Bytes>)
    requires |sides| == |path| > 0
    ensures var k := |path| - 1;
            FoldSides(h, node, sides, path) == h(Preimage(FoldSides(h, node, sides[..k], path[..k]), sides[k], path[k]))
  {}

  /** Two folds of one path on different sides can only meet through a collision or a twin. */
  lemma {:induction false} WrongSidesNeedLuck(h: Hash, node: Bytes, sides: seq<bool>, other: seq<bool>,
                                              path: seq<Bytes>)
    returns (x: Bytes, y: Bytes)
    requires IsDigest(h) && |node| == 32 && AllDigests(path) && |sides| == |other| == |path| && sides != other
    requires FoldSides(h, node, sides, path) == FoldSides(h, node, other, path)
    ensures Collides(h, x, y) || HasTwin(h, node, sides, path)
    decreases |path|
  {
    var k := |path| - 1;
    var a, b := FoldSides(h, node, sides[..k], path[..k]), FoldSides(h, node, other[..k], path[..k]);
    FoldTop(h, node, sides, path);
    FoldTop(h, node, other, path);
    x, y := Preimage(a, sides[k], path[k]), Preimage(b, other[k], path[k]);
    if x == y {
      FoldLength(h, node, sides[..k], path[..k]);
      FoldLength(h, node, other[..k], path[..k]);
      SamePreimage(a, sides[k], b, other[k], path[k]);
      if sides[k] == other[k] {
        assert sides == sides[..k] + [sides[k]] && other == other[..k] + [other[k]];
        x, y := WrongSidesNeedLuck(h, node, sides[..k], other[..k], path[..k]);
        if !Collides(h, x, y) { TwinBelow(h, node, sides, path, k); }
      }
    }
  }

  lemma TwinBelow(h: Hash, node: Bytes, sides: seq<bool>, path: seq<Bytes>, k: nat)
    requires |sides| == |path| && k <= |path| && HasTwin(h, node, sides[..k], path[..k])
    ensures HasTwin(h, node, sides, path)
  {
    var i :| 0 <= i < k && FoldSides(h, node, sides[..k][..i], path[..k][..i]) == path[..k][i];
    assert sides[..k][..i] == sides[..i] && path[..k][..i] == path[..i];
  }

  /**
   Below full height the honest path is rejected, unless a collision or two equal sibling hashes make the wrong
   side come out right. With `FullHeightPathsAreAccepted` this is exact: the client accepts the honest path of a leaf
   just when `len(audit_path)` is the height of the tree.
   */
  lemma ShortPathsAreRejected(h: Hash, m: nat, leaves: seq<Bytes>) returns (x: Bytes, y: Bytes)
    requires IsDigest(h) && m < |leaves| && |AuditPath(h, m, leaves)| != Height(|leaves|)
    requires Fold(h, LeafHash(h, leaves[m]), m, AuditPath(h, m, leaves)) == Root(h, leaves)
    ensures |AuditPath(h, m, leaves)| == |Sides(m, |leaves|)|
    ensures Collides(h, x, y) || HasTwin(h, LeafHash(h, leaves[m]), Sides(m, |leaves|), AuditPath(h, m, leaves))
  {
    var node, path := LeafHash(h, leaves[m]), AuditPath(h, m, leaves);
    HonestPath(h, m, leaves);
    SidesAreBitsAtFullHeight(m, |leaves|);
    FoldIsByBits(h, node, m, path);
    PathIsDigests(h, m, leaves);
    x, y := WrongSidesNeedLuck(h, node, Sides(m, |leaves|), Bits(m, |path|), path);
  }

  lemma RootLength(h: Hash, leaves: seq<Bytes>)
    requires IsDigest(h) && leaves != []
    ensures |Root(h, leaves)| == 32
  {}

  lemma {:induction false} PathIsDigests(h: Hash, m: nat, leaves: seq<Bytes>)
    requires IsDigest(h) && m < |leaves|
    ensures AllDigests(AuditPath(h, m, leaves))
    decreases |leaves|
  {
    if |leaves| > 1 {
      var k := Split(|leaves|);
      RootLength(h, leaves[k..]);
      RootLength(h, leaves[..k]);
      if m < k { PathIsDigests(h, m, leaves[..k]); } else { PathIsDigests(h, m - k, leaves[k..]); }
    }
  }

  /** The last leaf of a tree of three is such a leaf: its honest path has one step, not two. */
  lemma ThreeLeaves(h: Hash, leaves: seq<Bytes>)
    requires |leaves| == 3
    ensures |AuditPath(h, 2, leaves)| == 1 && Height(3) == 2
  {
    assert Height(3) == 2 && Split(3) == 2;
    assert AuditPath(h, 2, leaves) == AuditPath(h, 0, leaves[2..]) + [Root(h, leaves[..2])];
  }

  lemma SameChild(below: Bytes, side: bool, sibling: Bytes, left: Bytes, right: Bytes)
    requires |below| == |left| == |right| && Preimage(below, side, sibling) == [1] + left + right
    ensures below == if side then right else left
  {
    if side {
      assert |[1] + sibling + below| == |[1] + left + right|;
      SamePair(sibling, below, left, right);
    } else {
      SamePair(below, sibling, left, right);
    }
  }

  lemma SidesOfSubtree(j: nat, n: nat, right: bool)
    requires n > 1 && j < if right then n - Split(n) else Split(n)
    ensures Sides(if right then j + Split(n) else j, n) == Sides(j, if right then n - Split(n) else Split(n)) + [right]
  {}

  /** The bytes that are hashed last: a leaf's or an inner node's. */
  function FoldInput(h: Hash, entry: Bytes, sides: seq<bool>, path: seq<Bytes>): Bytes
    requires |sides| == |path|
  {
    if path == [] then [0] + entry
    else
      var k := |path| - 1;
      Preimage(FoldSides(h, LeafHash(h, entry), sides[..k], path[..k]), sides[k], path[k])
  }

  function RootInput(h: Hash, leaves: seq<Bytes>): Bytes
    requires leaves != []
  {
    if |leaves| == 1 then [0] + leaves[0]
    else [1] + Root(h, leaves[..Split(|leaves|)]) + Root(h, leaves[Split(|leaves|)..])
  }

  lemma FoldHashes(h: Hash, entry: Bytes, sides: seq<bool>, path: seq<Bytes>)
    requires |sides| == |path|
    ensures FoldSides(h, LeafHash(h, entry), sides, path) == h(FoldInput(h, entry, sides, path))
    ensures FoldInput(h, entry, sides, path) != [] && FoldInput(h, entry, sides, path)[0] == if path == [] then 0 else 1
  {}

  lemma SameLeafInput(h: Hash, entry: Bytes, sides: seq<bool>, path: seq<Bytes>, leaf: Bytes)
    requires |sides| == |path| && FoldInput(h, entry, sides, path) == [0] + leaf
    ensures path == [] && entry == leaf
  {
    FoldHashes(h, entry, sides, path);
    assert ([0] + leaf)[0] == 0 && ([0] + entry)[1..] == entry && ([0] + leaf)[1..] == leaf;
  }

  /** The left or the right part of a tree under its split. */
  function Half(leaves: seq<Bytes>, right: bool): (part: seq<Bytes>)
    requires |leaves| > 1
    ensures part != [] && |part| < |leaves|
  {
    if right then leaves[Split(|leaves|)..] else leaves[..Split(|leaves|)]
  }

  /** `entry` is leaf `j`, and its path stands on these sides. */
  predicate IsLeafAt(leaves: seq<Bytes>, j: nat, entry: Bytes, sides: seq<bool>) {
    j < |leaves| && entry == leaves[j] && Sides(j, |leaves|) == sides
  }

  lemma SameNodeInput(h: Hash, entry: Bytes, sides: seq<bool>, path: seq<Bytes>, leaves: seq<Bytes>)
    requires IsDigest(h) && |leaves| > 1 && |sides| == |path| &&
             FoldInput(h, entry, sides, path) == RootInput(h, leaves)
    ensures path != []
    ensures var k := |path| - 1;
            FoldSides(h, LeafHash(h, entry), sides[..k], path[..k]) == Root(h, Half(leaves, sides[k]))
  {
    var split := Split(|leaves|);
    var left, right := Root(h, leaves[..split]), Root(h, leaves[split..]);
    FoldHashes(h, entry, sides, path);
    assert ([1] + left + right)[0] == 1;
    var k := |path| - 1;
    RootLength(h, leaves[..split]);
    RootLength(h, leaves[split..]);
    FoldLength(h, LeafHash(h, entry), sides[..k], path[..k]);
    SameChild(FoldSides(h, LeafHash(h, entry), sides[..k], path[..k]), sides[k], path[k], left, right);
  }

  lemma LeafOfHalf(leaves: seq<Bytes>, i: nat, entry: Bytes, sides: seq<bool>) returns (j: nat)
    requires |leaves| > 1 && sides != []
    requires IsLeafAt(Half(leaves, sides[|sides| - 1]), i, entry, sides[..|sides| - 1])
    ensures IsLeafAt(leaves, j, entry, sides)
  {
    var right := sides[|sides| - 1];
    SidesOfSubtree(i, |leaves|, right);
    assert sides == sides[..|sides| - 1] + [right];
    j := if right then i + Split(|leaves|) else i;
  }

  /** Whatever folds to the root follows the sides of a leaf down to that leaf, or exhibits a collision. */
  lemma {:induction false} RootHoldsLeaf(h: Hash, entry: Bytes, sides: seq<bool>, path: seq<Bytes>, leaves: seq<Bytes>)
    returns (j: nat, x: Bytes, y: Bytes)
    requires IsDigest(h) && leaves != [] && |sides| == |path|
    requires FoldSides(h, LeafHash(h, entry), sides, path) == Root(h, leaves)
    ensures Collides(h, x, y) || IsLeafAt(leaves, j, entry, sides)
    decreases |leaves|
  {
    j, x, y := 0, FoldInput(h, entry, sides, path), RootInput(h, leaves);
    FoldHashes(h, entry, sides, path);
    if x == y {
      if |leaves| == 1 {
        SameLeafInput(h, entry, sides, path, leaves[0]);
      } else {
        SameNodeInput(h, entry, sides, path, leaves);
        var k := |path| - 1;
        j, x, y := RootHoldsLeaf(h, entry, sides[..k], path[..k], Half(leaves, sides[k]));
        if !Collides(h, x, y) { j := LeafOfHalf(leaves, j, entry, sides); }
      }
    }
  }

  /**
   Soundness, for any entry, index and path: what is accepted is some leaf, the one whose sides are the low bits of the
   index, or else the proof exhibits a collision. It is the leaf at that index exactly when the index is in range and
   the path is as long as the tree is high; the client checks neither.
   */
  lemma AcceptanceProvesMembership(h: Hash, entry: Bytes, index: int, path: seq<Bytes>, leaves: seq<Bytes>)
    returns (j: nat, x: Bytes, y: Bytes)
    requires IsDigest(h) && leaves != [] && Fold(h, LeafHash(h, entry), index, path) == Root(h, leaves)
    ensures Collides(h, x, y) ||
            (&& j < |leaves| && entry == leaves[j] && Sides(j, |leaves|) == Bits(index, |path|)
             && (j == index <==> 0 <= index < |leaves| && |path| == Height(|leaves|)))
  {
    FoldIsByBits(h, LeafHash(h, entry), index, path);
    j, x, y := RootHoldsLeaf(h, entry, Bits(index, |path|), path, leaves);
    if !Collides(h, x, y) { PositionExactlyWhen(j, |leaves|, index, |path|); }
  }

  /** A leaf with the sides of an index is the leaf at that index exactly when both checks would pass. */
  lemma PositionExactlyWhen(j: nat, n: nat, index: int, length: nat)
    requires j < n && Sides(j, n) == Bits(index, length)
    ensures j == index <==> 0 <= index < n && length == Height(n)
  {
    BitsSnoc(index, length);
    SidesAreBitsAtFullHeight(j, n);
    if 0 <= index < n && length == Height(n) {
      HeightBounds(n);
      BitsDetermine(j, index, length);
    }
  }

  lemma {:induction false} BitsDetermine(a: nat, b: nat, count: nat)
    requires a < PowerOfTwo(count) && b < PowerOfTwo(count) && Bits(a, count) == Bits(b, count)
    ensures a == b
    decreases count
  {
    if count > 0 {
      var x, y := Bits(a, count), Bits(b, count);
      assert x[0] == y[0] && x[1..] == Bits(a / 2, count - 1) && y[1..] == Bits(b / 2, count - 1);
      BitsDetermine(a / 2, b / 2, count - 1);
    }
  }

  /** Nothing is accepted against the root of the empty tree without a collision. */
  lemma EmptyTreeHoldsNothing(h: Hash, entry: Bytes, index: int, path: seq<Bytes>) returns (x: Bytes)
    requires Fold(h, LeafHash(h, entry), index, path) == h([])
    ensures Collides(h, x, [])
  {
    FoldIsByBits(h, LeafHash(h, entry), index, path);
    FoldHashes(h, entry, Bits(index, |path|), path);
    x := FoldInput(h, entry, Bits(index, |path|), path);
  }

  /** A wrong position that is accepted: the last of three leaves, with its honest path, at index 1. */
  lemma AcceptedAtWrongIndex(h: Hash, leaves: seq<Bytes>)
    requires |leaves| == 3
    ensures Fold(h, LeafHash(h, leaves[2]), 1, AuditPath(h, 2, leaves)) == Root(h, leaves)
  {
    ThreeLeaves(h, leaves);
    HonestPath(h, 2, leaves);
    FoldIsByBits(h, LeafHash(h, leaves[2]), 1, AuditPath(h, 2, leaves));
    assert Sides(2, 3) == Sides(0, 1) + [true] == [true];
    assert Bits(1, 1) == [true] + Bits(0, 0) == [true];
  }

  /** The hashes of small trees, written out with the prefixes of section 2.1.1 of RFC 9162. */
  lemma SmallRoots(h: Hash, a: Bytes, b: Bytes, c: Bytes)
    ensures Root(h, [a]) == h([0] + a)
    ensures Root(h, [a, b]) == h([1] + h([0] + a) + h([0] + b))
    ensures Root(h, [a, b, c]) == h([1] + h([1] + h([0] + a) + h([0] + b)) + h([0] + c))
  {
    SplitsSmall();
    assert [a, b][..1] == [a] && [a, b][1..] == [b];
    assert [a, b, c][..2] == [a, b] && [a, b, c][2..] == [c];
  }

  lemma SplitsSmall()
    ensures Split(2) == 1 && Split(3) == 2
  {
    assert Height(2) == 1 && Height(3) == 2;
  }
}
