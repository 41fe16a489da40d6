/** Items written one after another, and taken off again one by one. */
module PrefixCodes {
  import opened Common

  function PutAll<V, B>(put: V -> seq<B>, vs: seq<V>): seq<B> {
    if vs == [] then [] else put(vs[0]) + PutAll(put, vs[1..])
  }

  function Following<V, E>(v: seq<V>, rest: Result<seq<V>, E>): Result<seq<V>, E> {
    if rest.Err? then rest else Ok(v + rest.value)
  }

  /** Takes `count` items off; `trailing` is the error for anything left over. */
  function TakeAll<V, B(==), E>(take: seq<B> -> Result<(V, seq<B>), E>, s: seq<B>, count: nat,
                                trailing: E): Result<seq<V>, E>
    decreases count
  {
    if count == 0 then
      if s != [] then Err(trailing) else Ok([])
    else
      var first := take(s);
      if first.Err? then Err(first.error)
      else Following([first.value.0], TakeAll(take, first.value.1, count - 1, trailing))
  }

  /** What `put` writes for a fitting item is taken off exactly, and nothing else is. */
  ghost predicate Inverse<V(!new), B(!new), E>(put: V -> seq<B>, take: seq<B> -> Result<(V, seq<B>), E>,
                                               fits: V -> bool)
  {
    && (forall v, rest :: fits(v) ==> take(put(v) + rest) == Ok((v, rest)))
    && (forall s :: take(s).Ok? ==> fits(take(s).value.0) && s == put(take(s).value.0) + take(s).value.1)
  }

  ghost predicate AllFit<V>(fits: V -> bool, vs: seq<V>) {
    forall i :: 0 <= i < |vs| ==> fits(vs[i])
  }

  lemma {:induction false} PutThenTake<V(!new), B(!new), E>(
    put: V -> seq<B>, take: seq<B> -> Result<(V, seq<B>), E>, fits: V -> bool, vs: seq<V>, trailing: E)
    requires Inverse(put, take, fits) && AllFit(fits, vs)
    ensures TakeAll(take, PutAll(put, vs), |vs|, trailing) == Ok(vs)
    decreases |vs|
  {
    if vs != [] {
      PutThenTake(put, take, fits, vs[1..], trailing);
      assert vs == [vs[0]] + vs[1..];
    }
  }

  lemma {:induction false} TakeThenPut<V(!new), B(!new), E>(
    put: V -> seq<B>, take: seq<B> -> Result<(V, seq<B>), E>, fits: V -> bool, s: seq<B>, count: nat, trailing: E)
    requires Inverse(put, take, fits) && TakeAll(take, s, count, trailing).Ok?
    ensures var vs := TakeAll(take, s, count, trailing).value;
            |vs| == count && AllFit(fits, vs) && s == PutAll(put, vs)
    decreases count
  {
    if count > 0 {
      var (v, rest) := take(s).value;
      TakeThenPut(put, take, fits, rest, count - 1, trailing);
      var vs := TakeAll(take, s, count, trailing).value;
      assert vs[1..] == TakeAll(take, rest, count - 1, trailing).value;
    }
  }

  lemma {:induction false} PutAllAppend<V, B>(put: V -> seq<B>, vs: seq<V>, i: nat)
    requires i < |vs|
    ensures PutAll(put, vs[..i + 1]) == PutAll(put, vs[..i]) + put(vs[i])
    decreases i
  {
    if i == 0 {
      assert vs[..1] == [vs[0]];
      assert PutAll(put, [vs[0]]) == put(vs[0]) + PutAll(put, []);
    } else {
      PutAllAppend(put, vs[1..], i - 1);
      assert vs[..i + 1][1..] == vs[1..][..i] && vs[..i][1..] == vs[1..][..i - 1];
    }
  }

  lemma {:induction false} PutAllGrows<V, B>(put: V -> seq<B>, vs: seq<V>, i: nat)
    requires i <= |vs|
    ensures |PutAll(put, vs[..i])| <= |PutAll(put, vs)|
    decreases |vs| - i
  {
    if i < |vs| {
      PutAllAppend(put, vs, i);
      PutAllGrows(put, vs, i + 1);
    } else {
      assert vs[..i] == vs;
    }
  }

  /** One more item in the accumulator of a decoding loop. */
  lemma FollowingOne<V, E>(vs: seq<V>, v: V, rest: Result<seq<V>, E>)
    ensures Following(vs, Following([v], rest)) == Following(vs + [v], rest)
  {
    if rest.Ok? { assert vs + ([v] + rest.value) == vs + [v] + rest.value; }
  }

  lemma TakeOne<V, B, E>(take: seq<B> -> Result<(V, seq<B>), E>, s: seq<B>, count: nat, trailing: E, v: V, rest: seq<B>)
    requires count > 0 && take(s) == Ok((v, rest))
    ensures TakeAll(take, s, count, trailing) == Following([v], TakeAll(take, rest, count - 1, trailing))
  {}
}
