/** Stable sorting: what a stable sort makes of an order that was there before. */
module StableSorts {

  function Insert<T>(x: T, s: seq<T>, le: (T, T) -> bool): seq<T> {
    if s == [] || le(x, s[0]) then [x] + s else [s[0]] + Insert(x, s[1..], le)
  }

  function Sort<T>(s: seq<T>, le: (T, T) -> bool): seq<T> {
    if s == [] then [] else Insert(s[0], Sort(s[1..], le), le)
  }

  ghost predicate Preorder<T(!new)>(le: (T, T) -> bool) {
    && (forall a, b :: le(a, b) || le(b, a))
    && (forall a, b, c :: le(a, b) && le(b, c) ==> le(a, c))
  }

  ghost predicate Ordered<T>(r: (T, T) -> bool, s: seq<T>) {
    forall i, j :: 0 <= i < j < |s| ==> r(s[i], s[j])
  }

  ghost predicate Asymmetric<T(!new)>(r: (T, T) -> bool) {
    forall a, b :: r(a, b) ==> !r(b, a)
  }

  /** By `le`, and by `r` where `le` sees no difference. */
  function Then<T>(le: (T, T) -> bool, r: (T, T) -> bool): (T, T) -> bool {
    (a, b) => le(a, b) && (le(b, a) ==> r(a, b))
  }

  lemma {:induction false} InsertKeepsItems<T>(x: T, s: seq<T>, le: (T, T) -> bool)
    ensures multiset(Insert(x, s, le)) == multiset{x} + multiset(s)
  {
    if s != [] && !le(x, s[0]) {
      InsertKeepsItems(x, s[1..], le);
      assert s == [s[0]] + s[1..];
    }
  }

  lemma {:induction false} SortKeepsItems<T>(s: seq<T>, le: (T, T) -> bool)
    ensures multiset(Sort(s, le)) == multiset(s)
  {
    if s != [] {
      InsertKeepsItems(s[0], Sort(s[1..], le), le);
      SortKeepsItems(s[1..], le);
      assert s == [s[0]] + s[1..];
    }
  }

  ghost predicate BeforeAll<T>(r: (T, T) -> bool, x: T, s: seq<T>) {
    forall i :: 0 <= i < |s| ==> r(x, s[i])
  }

  lemma ConsOrdered<T>(r: (T, T) -> bool, x: T, s: seq<T>)
    requires Ordered(r, s) && BeforeAll(r, x, s)
    ensures Ordered(r, [x] + s)
  {}

  lemma BeforeAllOf<T>(r: (T, T) -> bool, x: T, s: seq<T>, t: seq<T>)
    requires multiset(s) == multiset(t) && BeforeAll(r, x, s)
    ensures BeforeAll(r, x, t)
  {
    forall i | 0 <= i < |t| ensures r(x, t[i]) {
      assert t[i] in multiset(t);
      assert t[i] in s;
    }
  }

  /** An element that preceded all of `s` lands in front of its equals. */
  lemma {:induction false} InsertRefines<T(!new)>(x: T, s: seq<T>, le: (T, T) -> bool, r: (T, T) -> bool)
    requires Preorder(le) && Ordered(Then(le, r), s) && BeforeAll(r, x, s)
    ensures Ordered(Then(le, r), Insert(x, s, le))
  {
    var lex := Then(le, r);
    if s == [] || le(x, s[0]) {
      forall i | 0 <= i < |s| ensures lex(x, s[i]) {
        assert r(x, s[i]) && (i > 0 ==> lex(s[0], s[i]));
      }
      ConsOrdered(lex, x, s);
    } else {
      var rest := s[1..];
      InsertRefines(x, rest, le, r);
      InsertKeepsItems(x, rest, le);
      assert BeforeAll(lex, s[0], [x] + rest);
      assert multiset([x] + rest) == multiset(Insert(x, rest, le));
      BeforeAllOf(lex, s[0], [x] + rest, Insert(x, rest, le));
      ConsOrdered(lex, s[0], Insert(x, rest, le));
    }
  }

  /** Whatever order the input had, `r`, survives as the tie-break of the sorted output. */
  lemma {:induction false} SortRefines<T(!new)>(s: seq<T>, le: (T, T) -> bool, r: (T, T) -> bool)
    requires Preorder(le) && Ordered(r, s)
    ensures Ordered(Then(le, r), Sort(s, le))
  {
    if s != [] {
      SortRefines(s[1..], le, r);
      SortKeepsItems(s[1..], le);
      assert BeforeAll(r, s[0], s[1..]);
      BeforeAllOf(r, s[0], s[1..], Sort(s[1..], le));
      InsertRefines(s[0], Sort(s[1..], le), le, r);
    }
  }

  /** One order has one arrangement, so any stable sort gives the same list. */
  lemma {:induction false} OrderedIsUnique<T(!new)>(r: (T, T) -> bool, s: seq<T>, t: seq<T>)
    requires Asymmetric(r) && multiset(s) == multiset(t) && Ordered(r, s) && Ordered(r, t)
    ensures s == t
    decreases |s|
  {
    assert |s| == |multiset(s)| == |multiset(t)| == |t|;
    if s != [] {
      SameFirst(r, s, t);
      TailItems(s);
      TailItems(t);
      OrderedIsUnique(r, s[1..], t[1..]);
      assert s == [s[0]] + s[1..] && t == [t[0]] + t[1..];
    }
  }

  lemma TailItems<T>(s: seq<T>)
    requires s != []
    ensures multiset(s[1..]) == multiset(s) - multiset{s[0]}
  {
    assert s == [s[0]] + s[1..];
  }

  lemma SameFirst<T(!new)>(r: (T, T) -> bool, s: seq<T>, t: seq<T>)
    requires Asymmetric(r) && multiset(s) == multiset(t) && Ordered(r, s) && Ordered(r, t) && s != [] && t != []
    ensures s[0] == t[0]
  {
    assert s[0] in multiset(s) && t[0] in multiset(t);
    var i :| 0 <= i < |t| && t[i] == s[0];
    var j :| 0 <= j < |s| && s[j] == t[0];
    var x, y := s[0], t[0];
    assert i > 0 ==> r(y, x);
    assert j > 0 ==> r(x, y);
  }
}
