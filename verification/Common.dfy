/** Result and option types shared by every component of the model. */
module Common {

  datatype Option<+T> = None | Some(value: T) {
    function GetOr(default: T): T {
      match this
      case Some(v) => v
      case None => default
    }
  }

  datatype Result<+T, +E> = Ok(value: T) | Err(error: E)

  function Min(a: int, b: int): int { if a <= b then a else b }

  function Max(a: int, b: int): int { if a >= b then a else b }

  /** Python's notion of white space, as used by `str.strip` and `str.isspace`. */
  predicate IsSpace(c: char) {
    || '\t' <= c <= '\r' || '\U{1c}' <= c <= ' '
    || c == '\U{85}' || c == '\U{a0}' || c == '\U{1680}'
    || '\U{2000}' <= c <= '\U{200a}' || c == '\U{2028}' || c == '\U{2029}'
    || c == '\U{202f}' || c == '\U{205f}' || c == '\U{3000}'
  }

  predicate IsDigit(c: char) { '0' <= c <= '9' }

  /** True when `strip()` would leave nothing. */
  predicate IsBlank(s: string) {
    forall i :: 0 <= i < |s| ==> IsSpace(s[i])
  }

  lemma SubsetSize<T>(a: set<T>, b: set<T>)
    requires a <= b
    ensures |a| <= |b|
    ensures |a| == |b| ==> a == b
  {
    assert |b - a| == |b| - |a| by { assert b == a + (b - a); }
  }

  /** Python's string order: lexicographic by code point. */
  predicate Leq(a: string, b: string) {
    a == [] || (b != [] && (a[0] < b[0] || (a[0] == b[0] && Leq(a[1..], b[1..]))))
  }

  lemma {:induction false} LeqTotal(a: string, b: string)
    ensures Leq(a, b) || Leq(b, a)
  {
    if a != [] && b != [] && a[0] == b[0] { LeqTotal(a[1..], b[1..]); }
  }

  lemma {:induction false} LeqAntisymmetric(a: string, b: string)
    requires Leq(a, b) && Leq(b, a)
    ensures a == b
  {
    if a != [] && b != [] {
      LeqAntisymmetric(a[1..], b[1..]);
      assert a == [a[0]] + a[1..] && b == [b[0]] + b[1..];
    }
  }

  lemma {:induction false} LeqTransitive(a: string, b: string, c: string)
    requires Leq(a, b) && Leq(b, c)
    ensures Leq(a, c)
  {
    if a != [] && a[0] == b[0] == c[0] { LeqTransitive(a[1..], b[1..], c[1..]); }
  }

  /** The texts agree before position `k`; there `a` has ended and `b` has not, or has the smaller code point. */
  predicate SmallerAt(a: string, b: string, k: int) {
    && 0 <= k <= |a| && k < |b|
    && (forall i :: 0 <= i < k ==> a[i] == b[i])
    && (k < |a| ==> a[k] < b[k])
  }

  /** One text comes before another: a proper prefix of it, or smaller where they first differ. */
  ghost predicate TextBefore(a: string, b: string) { exists k :: SmallerAt(a, b, k) }

  lemma {:induction false} LeqMeans(a: string, b: string)
    ensures Leq(a, b) <==> a == b || TextBefore(a, b)
  {
    if a == [] || b == [] {
      if b != [] { assert SmallerAt(a, b, 0); }
    } else if a[0] != b[0] {
      if a[0] < b[0] { assert SmallerAt(a, b, 0); }
    } else {
      LeqMeans(a[1..], b[1..]);
      assert a == [a[0]] + a[1..] && b == [b[0]] + b[1..];
      if k :| SmallerAt(a, b, k) { SmallerLater(a, b, k - 1); }
      if k :| SmallerAt(a[1..], b[1..], k) { SmallerLater(a, b, k); }
    }
  }

  lemma SmallerLater(a: string, b: string, k: int)
    requires a != [] && b != [] && a[0] == b[0]
    ensures SmallerAt(a[1..], b[1..], k) <==> k >= 0 && SmallerAt(a, b, k + 1)
  {
    var x, y := a[1..], b[1..];
    if SmallerAt(x, y, k) {
      assert forall i :: 1 <= i < k + 1 ==> a[i] == x[i - 1] && b[i] == y[i - 1];
    }
    if k >= 0 && SmallerAt(a, b, k + 1) {
      assert forall i :: 0 <= i < k ==> x[i] == a[i + 1] && y[i] == b[i + 1];
    }
  }

  /** That is a strict total order, and the order of `Leq`. */
  lemma TextBeforeMeans(a: string, b: string)
    ensures TextBefore(a, b) <==> !Leq(b, a)
  {
    LeqMeans(a, b);
    LeqMeans(b, a);
    LeqTotal(a, b);
    if Leq(a, b) && Leq(b, a) { LeqAntisymmetric(a, b); }
  }
}
