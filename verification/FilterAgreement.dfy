/**
 The translated WHERE fragment keeps exactly the rows the in-memory evaluator selects, for every filter and row that
 stay clear of the forms on which the two provably differ.
 */
module FilterAgreement {
  import opened Common
  import opened Filters

  // ---------------------------------------------------------------- fragments that read as one operand

  ghost predicate Spans(ts: seq<Sql>, p: nat, end: nat, seg: seq<Sql>) {
    p <= end <= |ts| && ts[p..end] == seg
  }

  /** Wherever `seg` stands, it reads as one operand of NOT, AND and OR, with value `b`. */
  ghost predicate ReadsAs(s: Scope, seg: seq<Sql>, b: bool) {
    forall ts, p: nat, end: nat :: Spans(ts, p, end, seg) ==> ReadNot(s, ts, p) == Some((Truth(b), end))
  }

  lemma SplitSpan(ts: seq<Sql>, p: nat, end: nat, a: seq<Sql>, t: Sql, b: seq<Sql>) returns (q: nat)
    requires Spans(ts, p, end, a + [t] + b)
    ensures q == p + |a| && p <= q < end && Spans(ts, p, q, a) && ts[q] == t && Spans(ts, q + 1, end, b)
  {
    q := p + |a|;
    var seg := ts[p..end];
    assert seg[..|a|] == a && seg[|a|] == t && seg[|a| + 1..] == b;
    assert ts[p..q] == seg[..|a|] && ts[q + 1..end] == seg[|a| + 1..];
  }

  lemma NegationReads(s: Scope, seg: seq<Sql>, b: bool)
    requires ReadsAs(s, seg, b)
    ensures ReadsAs(s, [NotWord] + seg, !b)
  {
    forall ts, p: nat, end: nat | Spans(ts, p, end, [NotWord] + seg)
      ensures ReadNot(s, ts, p) == Some((Truth(!b), end))
    {
      assert [NotWord] + seg == [] + [NotWord] + seg;
      var q := SplitSpan(ts, p, end, [], NotWord, seg);
      assert ReadNot(s, ts, p + 1) == Some((Truth(b), end));
    }
  }

  function AllTrue(bs: seq<bool>): bool { forall i :: 0 <= i < |bs| ==> bs[i] }

  function AnyTrue(bs: seq<bool>): bool { exists i :: 0 <= i < |bs| && bs[i] }

  ghost predicate AllRead(s: Scope, clauses: seq<seq<Sql>>, bs: seq<bool>) {
    |bs| == |clauses| && forall i :: 0 <= i < |clauses| ==> ReadsAs(s, clauses[i], bs[i])
  }

  lemma DropLast(s: Scope, clauses: seq<seq<Sql>>, bs: seq<bool>)
    requires AllRead(s, clauses, bs) && clauses != []
    ensures AllRead(s, clauses[..|clauses| - 1], bs[..|bs| - 1])
    ensures ReadsAs(s, clauses[|clauses| - 1], bs[|bs| - 1])
    ensures AllTrue(bs) == (AllTrue(bs[..|bs| - 1]) && bs[|bs| - 1])
    ensures AnyTrue(bs) == (AnyTrue(bs[..|bs| - 1]) || bs[|bs| - 1])
  {
    var prior := bs[..|bs| - 1];
    assert forall i :: 0 <= i < |prior| ==> prior[i] == bs[i];
    assert bs == prior + [bs[|bs| - 1]];
    if AnyTrue(prior) {
      var i :| 0 <= i < |prior| && prior[i];
      assert bs[i];
    }
  }

  lemma AndStep(s: Scope, ts: seq<Sql>, a: bool, q: nat, end: nat, b: bool)
    requires q + 1 <= end <= |ts| && ts[q] == AndWord && ReadNot(s, ts, q + 1) == Some((Truth(b), end))
    ensures AndMore(s, ts, Truth(a), q) == AndMore(s, ts, Truth(a && b), end)
  {}

  /** A conjunction written out is consumed by the AND loop. */
  lemma {:induction false} ConjunctionReads(s: Scope, clauses: seq<seq<Sql>>, bs: seq<bool>, ts: seq<Sql>, p: nat,
                                            end: nat)
    requires AllRead(s, clauses, bs) && clauses != [] && Spans(ts, p, end, Join(clauses, AndWord))
    ensures ReadAnd(s, ts, p) == AndMore(s, ts, Truth(AllTrue(bs)), end)
    decreases |clauses|
  {
    if |clauses| == 1 {
      assert ReadNot(s, ts, p) == Some((Truth(bs[0]), end));
      assert AllTrue(bs) == bs[0];
    } else {
      var last, prior := clauses[|clauses| - 1], clauses[..|clauses| - 1];
      DropLast(s, clauses, bs);
      var q := SplitSpan(ts, p, end, Join(prior, AndWord), AndWord, last);
      ConjunctionReads(s, prior, bs[..|bs| - 1], ts, p, q);
      AndStep(s, ts, AllTrue(bs[..|bs| - 1]), q, end, bs[|bs| - 1]);
    }
  }

  lemma OrStep(s: Scope, ts: seq<Sql>, a: bool, q: nat, end: nat, b: bool)
    requires q + 1 <= end < |ts| && ts[q] == OrWord && ts[end] != AndWord
    requires ReadNot(s, ts, q + 1) == Some((Truth(b), end))
    ensures OrMore(s, ts, Truth(a), q) == OrMore(s, ts, Truth(a || b), end)
  {
    assert AndMore(s, ts, Truth(b), end) == Some((Truth(b), end));
    assert ReadAnd(s, ts, q + 1) == Some((Truth(b), end));
  }

  /** A disjunction written out is consumed by the OR loop. */
  lemma {:induction false} DisjunctionReads(s: Scope, clauses: seq<seq<Sql>>, bs: seq<bool>, ts: seq<Sql>, p: nat,
                                            end: nat)
    requires AllRead(s, clauses, bs) && clauses != [] && Spans(ts, p, end, Join(clauses, OrWord))
    requires end < |ts| && ts[end] != AndWord
    ensures ReadOr(s, ts, p) == OrMore(s, ts, Truth(AnyTrue(bs)), end)
    decreases |clauses|
  {
    if |clauses| == 1 {
      assert ReadNot(s, ts, p) == Some((Truth(bs[0]), end));
      assert AndMore(s, ts, Truth(bs[0]), end) == Some((Truth(bs[0]), end));
      assert AnyTrue(bs) == bs[0];
    } else {
      var last, prior := clauses[|clauses| - 1], clauses[..|clauses| - 1];
      DropLast(s, clauses, bs);
      var q := SplitSpan(ts, p, end, Join(prior, OrWord), OrWord, last);
      DisjunctionReads(s, prior, bs[..|bs| - 1], ts, p, q);
      assert ReadNot(s, ts, q + 1) == Some((Truth(bs[|bs| - 1]), end));
      OrStep(s, ts, AnyTrue(bs[..|bs| - 1]), q, end, bs[|bs| - 1]);
    }
  }

  lemma OpenReadClose(s: Scope, ts: seq<Sql>, p: nat, close: nat, v: Tri)
    requires p + 1 <= close < |ts| && ts[p] == Open && ts[close] == Close && ReadOr(s, ts, p + 1) == Some((v, close))
    ensures ReadNot(s, ts, p) == Some((v, close + 1))
  {}

  lemma ParenthesesRead(s: Scope, inner: seq<Sql>, b: bool)
    requires forall ts, p: nat, end: nat :: Spans(ts, p, end, inner) && end < |ts| && ts[end] == Close ==>
               ReadOr(s, ts, p) == Some((Truth(b), end))
    ensures ReadsAs(s, [Open] + inner + [Close], b)
  {
    forall ts, p: nat, end: nat | Spans(ts, p, end, [Open] + inner + [Close])
      ensures ReadNot(s, ts, p) == Some((Truth(b), end))
    {
      assert [Open] + inner + [Close] == ([Open] + inner) + [Close] + [];
      var close := SplitSpan(ts, p, end, [Open] + inner, Close, []);
      assert [Open] + inner == [] + [Open] + inner;
      var open := SplitSpan(ts, p, close, [], Open, inner);
      OpenReadClose(s, ts, p, close, Truth(b));
    }
  }

  /** The parenthesised conjunction or disjunction of two or more clauses is again one operand. */
  lemma GroupReads(s: Scope, clauses: seq<seq<Sql>>, bs: seq<bool>, separator: Sql)
    requires AllRead(s, clauses, bs) && clauses != [] && (separator == AndWord || separator == OrWord)
    ensures ReadsAs(s, Group(clauses, separator), if separator == AndWord then AllTrue(bs) else AnyTrue(bs))
  {
    if |clauses| == 1 {
      assert AllTrue(bs) == bs[0] && AnyTrue(bs) == bs[0];
    } else {
      var b := if separator == AndWord then AllTrue(bs) else AnyTrue(bs);
      var inner := Join(clauses, separator);
      forall ts, p: nat, end: nat | Spans(ts, p, end, inner) && end < |ts| && ts[end] == Close
        ensures ReadOr(s, ts, p) == Some((Truth(b), end))
      {
        if separator == AndWord {
          ConjunctionReads(s, clauses, bs, ts, p, end);
        } else {
          DisjunctionReads(s, clauses, bs, ts, p, end);
        }
      }
      ParenthesesRead(s, inner, b);
    }
  }

  // ---------------------------------------------------------------- single predicates

  /** Both numbers or both texts; in particular neither is null. */
  predicate Comparable(a: Value, b: Value) { (a.Num? && b.Num?) || (a.Text? && b.Text?) }

  predicate ScalarFits(value: Value, j: Json) { j.Scalar? && Comparable(value, j.v) }

  predicate AllFit(value: Value, items: seq<Json>) {
    forall i :: 0 <= i < |items| ==> ScalarFits(value, items[i])
  }

  /** An operator both sides support, over operands of the row value's own type. */
  predicate OperatorFits(value: Value, e: Field) {
    if e.key == "$in" || e.key == "$nin" then e.value.Arr? && AllFit(value, e.value.items)
    else SimpleOp(e.key).Some? && ScalarFits(value, e.value)
  }

  /** The operands occupy the placeholders from `idx` on. */
  ghost predicate Bound(bind: seq<Json>, idx: nat, params: seq<Json>) {
    idx + |params| <= |bind| && bind[idx..idx + |params|] == params
  }

  lemma SplitBound(bind: seq<Json>, idx: nat, a: seq<Json>, b: seq<Json>)
    requires Bound(bind, idx, a + b)
    ensures Bound(bind, idx, a) && Bound(bind, idx + |a|, b)
  {
    var all := bind[idx..idx + |a + b|];
    assert bind[idx..idx + |a|] == all[..|a|] == a;
    assert bind[idx + |a|..idx + |a| + |b|] == all[|a|..] == b;
  }

  lemma ComparisonAgrees(key: string, a: Value, b: Value)
    requires SimpleOp(key).Some? && Comparable(a, b)
    ensures SqlCompare(SimpleOp(key).value, a, b) == Truth(Matches(key, a, Scalar(b)))
  {
    if a.Text? {
      LeqTotal(a.s, b.s);
      if Leq(a.s, b.s) && Leq(b.s, a.s) { LeqAntisymmetric(a.s, b.s); }
    }
  }

  lemma ComparisonReads(s: Scope, col: string, op: SqlOp, idx: nat, b: Value, v: bool)
    requires Bound(s.bind, idx, [Scalar(b)]) && SqlCompare(op, s.cell(col), b) == Truth(v)
    ensures ReadsAs(s, [Col(col), Cmp(op), Param(idx)], v)
  {
    assert s.bind[idx..idx + 1][0] == s.bind[idx];
    forall ts, p: nat, end: nat | Spans(ts, p, end, [Col(col), Cmp(op), Param(idx)])
      ensures ReadNot(s, ts, p) == Some((Truth(v), end))
    {
      var seg := ts[p..end];
      assert end == p + 3 && seg[0] == ts[p] && seg[1] == ts[p + 1] && seg[2] == ts[p + 2];
      assert ReadParam(s, ts, p + 2) == Some((b, p + 3));
      assert ReadPredicate(s, ts, p + 1, s.cell(col)) == Some((Truth(v), p + 3));
    }
  }

  lemma {:induction false} ListReads(s: Scope, ts: seq<Sql>, p: nat, end: nat, a: Value, acc: bool, idx: nat,
                                     items: seq<Json>)
    requires items != [] && Bound(s.bind, idx, items) && AllFit(a, items)
    requires Spans(ts, p, end, Placeholders(idx, |items|)) && end < |ts| && ts[end] == Close
    ensures ReadList(s, ts, p, a, Truth(acc)) == Some((Truth(acc || Scalar(a) in items), end + 1))
    decreases |items|
  {
    ListHead(s, ts, p, end, idx, items);
    var b := items[0].v;
    assert SqlCompare(Equals, a, b) == Truth(items[0] == Scalar(a)) by { assert Comparable(a, b); }
    if |items| == 1 {
      assert items == [items[0]];
    } else {
      assert AllFit(a, items[1..]) && (Scalar(a) in items <==> Scalar(a) == items[0] || Scalar(a) in items[1..]);
      ListReads(s, ts, p + 2, end, a, acc || items[0] == Scalar(a), idx + 1, items[1..]);
    }
  }

  /** The first operand of a list, and what follows it. */
  lemma ListHead(s: Scope, ts: seq<Sql>, p: nat, end: nat, idx: nat, items: seq<Json>)
    requires items != [] && Bound(s.bind, idx, items) && items[0].Scalar?
    requires Spans(ts, p, end, Placeholders(idx, |items|)) && end < |ts|
    ensures ReadParam(s, ts, p) == Some((items[0].v, p + 1))
    ensures |items| == 1 ==> end == p + 1
    ensures |items| > 1 ==>
              && ts[p + 1] == Comma && Spans(ts, p + 2, end, Placeholders(idx + 1, |items| - 1)) &&
                 Bound(s.bind, idx + 1, items[1..])
  {
    var seg := ts[p..end];
    assert s.bind[idx..idx + |items|][0] == s.bind[idx];
    assert seg[0] == Param(idx) && ts[p] == seg[0];
    if |items| > 1 {
      assert seg[1] == Comma && ts[p + 1] == seg[1];
      assert ts[p + 2..end] == seg[2..] == Placeholders(idx + 1, |items| - 1);
      assert items == [items[0]] + items[1..];
      SplitBound(s.bind, idx, [items[0]], items[1..]);
    }
  }

  lemma InReads(s: Scope, ts: seq<Sql>, p: nat, end: nat, a: Value, idx: nat, items: seq<Json>)
    requires items != [] && Bound(s.bind, idx, items) && AllFit(a, items)
    requires Spans(ts, p, end, [Open] + Placeholders(idx, |items|) + [Close])
    ensures ReadIn(s, ts, p, a) == Some((Truth(Scalar(a) in items), end))
  {
    var mid := Placeholders(idx, |items|);
    assert [Open] + mid + [Close] == ([Open] + mid) + [Close] + [];
    var close := SplitSpan(ts, p, end, [Open] + mid, Close, []);
    assert [Open] + mid == [] + [Open] + mid;
    var open := SplitSpan(ts, p, close, [], Open, mid);
    ListReads(s, ts, p + 1, close, a, false, idx, items);
  }

  function ListOf(idx: nat, items: seq<Json>): seq<Sql> { [Open] + Placeholders(idx, |items|) + [Close] }

  lemma InClauseReads(s: Scope, col: string, idx: nat, items: seq<Json>, ts: seq<Sql>, p: nat, end: nat)
    requires items != [] && AllFit(s.cell(col), items) && Bound(s.bind, idx, items)
    requires Spans(ts, p, end, [Col(col)] + [InWord] + ListOf(idx, items))
    ensures ReadNot(s, ts, p) == Some((Truth(Scalar(s.cell(col)) in items), end))
  {
    var q := SplitSpan(ts, p, end, [Col(col)], InWord, ListOf(idx, items));
    assert ts[p..q][0] == ts[p];
    InReads(s, ts, p + 2, end, s.cell(col), idx, items);
  }

  lemma NotInClauseReads(s: Scope, col: string, idx: nat, items: seq<Json>, ts: seq<Sql>, p: nat, end: nat)
    requires items != [] && AllFit(s.cell(col), items) && Bound(s.bind, idx, items)
    requires Spans(ts, p, end, [Col(col), NotWord] + [InWord] + ListOf(idx, items))
    ensures ReadNot(s, ts, p) == Some((Truth(Scalar(s.cell(col)) !in items), end))
  {
    var q := SplitSpan(ts, p, end, [Col(col), NotWord], InWord, ListOf(idx, items));
    assert ts[p..q][0] == ts[p] && ts[p..q][1] == ts[p + 1];
    InReads(s, ts, p + 3, end, s.cell(col), idx, items);
  }

  lemma MembershipReads(s: Scope, col: string, idx: nat, items: seq<Json>, negate: bool)
    requires AllFit(s.cell(col), items) && Bound(s.bind, idx, items)
    ensures ReadsAs(s, BuildIn(col, Arr(items), idx, negate).value.tokens, (Scalar(s.cell(col)) in items) != negate)
  {
    var seg := BuildIn(col, Arr(items), idx, negate).value.tokens;
    var b := (Scalar(s.cell(col)) in items) != negate;
    if items != [] {
      assert seg == (if negate then [Col(col), NotWord] else [Col(col)]) + [InWord] + ListOf(idx, items);
    }
    forall ts, p: nat, end: nat | Spans(ts, p, end, seg) ensures ReadNot(s, ts, p) == Some((Truth(b), end)) {
      if items == [] {
        assert end == p + 1 && ts[p..end][0] == ts[p];
      } else if negate {
        NotInClauseReads(s, col, idx, items, ts, p, end);
      } else {
        InClauseReads(s, col, idx, items, ts, p, end);
      }
    }
  }

  lemma OperatorReads(s: Scope, col: string, e: Field, idx: nat)
    requires OperatorFits(s.cell(col), e)
    ensures BuildOperator(col, e, idx).Ok?
    ensures var p := BuildOperator(col, e, idx).value;
            p.tokens != [] &&
            (Bound(s.bind, idx, p.params) ==> ReadsAs(s, p.tokens, Matches(e.key, s.cell(col), e.value)))
  {
    var p := BuildOperator(col, e, idx).value;
    if Bound(s.bind, idx, p.params) {
      if e.key == "$in" || e.key == "$nin" {
        MembershipReads(s, col, idx, e.value.items, e.key == "$nin");
      } else {
        ComparisonAgrees(e.key, s.cell(col), e.value.v);
        ComparisonReads(s, col, SimpleOp(e.key).value, idx, e.value.v, Matches(e.key, s.cell(col), e.value));
      }
    }
  }

  // ---------------------------------------------------------------- whole filters

  predicate ConditionFits(value: Value, c: Json) {
    match c
    case Scalar(_) => ScalarFits(value, c)
    case Arr(_) => false
    case Obj(es) => es != [] && forall i :: 0 <= i < |es| ==> OperatorFits(value, es[i])
  }

  /** The filter constrains nothing and translates to nothing: built from `{}` and `$and` alone. */
  predicate Silent(f: Json)
    decreases f, 1
  {
    f.Obj? && forall i :: 0 <= i < |f.fields| ==> SilentEntry(f.fields[i])
  }

  predicate SilentEntry(e: Field)
    decreases e, 0
  {
    e.key == "$and" && e.value.Arr? && forall i :: 0 <= i < |e.value.items| ==> Silent(e.value.items[i])
  }

  /**
   The filters the two sides agree on, checked against the row: known fields, supported operators with operands of
   the field's own type, no null among them, no empty operator map, and nothing silent under `$or` or `$not`.
   */
  predicate Plain(schema: Schema, row: Row, f: Json)
    decreases f, 1
  {
    f.Obj? && forall i :: 0 <= i < |f.fields| ==> PlainEntry(schema, row, f.fields[i])
  }

  predicate PlainEntry(schema: Schema, row: Row, e: Field)
    decreases e, 0
  {
    if e.key == "$and" then
      e.value.Arr? && forall i :: 0 <= i < |e.value.items| ==> Plain(schema, row, e.value.items[i])
    else if e.key == "$or" then
      && e.value.Arr? && e.value.items != []
      && forall i :: 0 <= i < |e.value.items| ==> Plain(schema, row, e.value.items[i]) && !Silent(e.value.items[i])
    else if e.key == "$not" then Plain(schema, row, e.value) && !Silent(e.value)
    else !IsLogical(e.key) && e.key in schema && ConditionFits(Get(row, e.key), e.value)
  }

  /** The table row holds each field of `row` in its column. */
  ghost predicate CellsMatch(schema: Schema, row: Row, s: Scope) {
    forall k :: k in schema ==> s.cell(schema[k]) == Get(row, k)
  }

  /** What a translated filter must satisfy: silent exactly when empty, and otherwise reading as its meaning. */
  ghost predicate Faithful(s: Scope, idx: nat, p: Part, silent: bool, meaning: bool) {
    && (p.tokens == [] <==> silent)
    && (silent ==> meaning)
    && (!silent && Bound(s.bind, idx, p.params) ==> ReadsAs(s, p.tokens, meaning))
  }

  /** The same for a list of clauses collected from several parts. */
  ghost predicate FaithfulAll(s: Scope, idx: nat, ps: Parts, bs: seq<bool>) {
    && |bs| == |ps.clauses|
    && (forall i :: 0 <= i < |ps.clauses| ==> ps.clauses[i] != [])
    && (Bound(s.bind, idx, ps.params) ==> AllRead(s, ps.clauses, bs))
  }

  /** `bs` with one more value, unless it belongs to a silent part. */
  function AddValue(bs: seq<bool>, silent: bool, b: bool): seq<bool> { if silent then bs else bs + [b] }

  lemma AddFaithful(s: Scope, idx: nat, ps: Parts, bs: seq<bool>, p: Part, silent: bool, meaning: bool)
    requires FaithfulAll(s, idx, ps, bs) && Faithful(s, idx + |ps.params|, p, silent, meaning)
    ensures FaithfulAll(s, idx, AddPart(ps, p), AddValue(bs, silent, meaning))
  {
    if Bound(s.bind, idx, ps.params + p.params) { SplitBound(s.bind, idx, ps.params, p.params); }
  }

  lemma AddValueMeans(bs: seq<bool>, silent: bool, b: bool)
    requires silent ==> b
    ensures AllTrue(AddValue(bs, silent, b)) == (AllTrue(bs) && b)
    ensures AddValue(bs, silent, b) == [] <==> bs == [] && silent
    ensures !silent ==> AnyTrue(AddValue(bs, silent, b)) == (AnyTrue(bs) || b)
  {
    var more := bs + [b];
    assert more[|bs|] == b && forall i :: 0 <= i < |bs| ==> more[i] == bs[i];
    if AnyTrue(bs) { var i :| 0 <= i < |bs| && bs[i]; assert more[i]; }
  }

  lemma GroupFaithful(s: Scope, idx: nat, ps: Parts, bs: seq<bool>, separator: Sql)
    requires FaithfulAll(s, idx, ps, bs) && (separator == AndWord || (separator == OrWord && bs != []))
    ensures Faithful(s, idx, Part(Group(ps.clauses, separator), ps.params), ps.clauses == [],
                     if separator == AndWord then AllTrue(bs) else AnyTrue(bs))
  {
    if ps.clauses != [] {
      if |ps.clauses| == 1 { assert ps.clauses[0] != []; }
      if Bound(s.bind, idx, ps.params) { GroupReads(s, ps.clauses, bs, separator); }
    }
  }

  function MatchValues(value: Value, es: seq<Field>, bs: seq<bool>): seq<bool> {
    if es == [] then bs else MatchValues(value, es[1..], AddValue(bs, false, Matches(es[0].key, value, es[0].value)))
  }

  ghost predicate AllMatch(value: Value, es: seq<Field>) {
    forall i :: 0 <= i < |es| ==> Matches(es[i].key, value, es[i].value)
  }

  lemma {:induction false} MatchValuesMean(value: Value, es: seq<Field>, bs: seq<bool>)
    ensures AllTrue(MatchValues(value, es, bs)) == (AllTrue(bs) && AllMatch(value, es))
    ensures |MatchValues(value, es, bs)| == |bs| + |es|
    decreases |es|
  {
    if es != [] {
      var b := Matches(es[0].key, value, es[0].value);
      AddValueMeans(bs, false, b);
      MatchValuesMean(value, es[1..], AddValue(bs, false, b));
      assert es == [es[0]] + es[1..];
    }
  }

  lemma BuildOperatorsStep(col: string, es: seq<Field>, acc: Parts, base: nat, p: Part)
    requires es != [] && BuildOperator(col, es[0], base + |acc.params|) == Ok(p)
    ensures BuildOperators(col, es, acc, base) == BuildOperators(col, es[1..], AddPart(acc, p), base)
  {}

  ghost predicate OperatorsFit(value: Value, es: seq<Field>) {
    forall i :: 0 <= i < |es| ==> OperatorFits(value, es[i])
  }

  lemma {:induction false} OperatorsRead(s: Scope, col: string, es: seq<Field>, acc: Parts, base: nat, bs: seq<bool>)
    requires FaithfulAll(s, base, acc, bs) && OperatorsFit(s.cell(col), es)
    ensures BuildOperators(col, es, acc, base).Ok?
    ensures FaithfulAll(s, base, BuildOperators(col, es, acc, base).value, MatchValues(s.cell(col), es, bs))
    decreases |es|
  {
    if es != [] {
      var b := Matches(es[0].key, s.cell(col), es[0].value);
      assert OperatorFits(s.cell(col), es[0]) && OperatorsFit(s.cell(col), es[1..]);
      OperatorReads(s, col, es[0], base + |acc.params|);
      var p := BuildOperator(col, es[0], base + |acc.params|).value;
      AddFaithful(s, base, acc, bs, p, false, b);
      BuildOperatorsStep(col, es, acc, base, p);
      OperatorsRead(s, col, es[1..], AddPart(acc, p), base, AddValue(bs, false, b));
    }
  }

  lemma OperatorMapReads(s: Scope, col: string, es: seq<Field>, idx: nat)
    requires es != [] && forall i :: 0 <= i < |es| ==> OperatorFits(s.cell(col), es[i])
    ensures BuildOperators(col, es, NO_PARTS, idx).Ok?
    ensures var ps := BuildOperators(col, es, NO_PARTS, idx).value;
            ps.clauses != [] &&
            Faithful(s, idx, Part(Group(ps.clauses, AndWord), ps.params), false, AllMatch(s.cell(col), es))
  {
    var a := s.cell(col);
    OperatorsRead(s, col, es, NO_PARTS, idx, []);
    MatchValuesMean(a, es, []);
    GroupFaithful(s, idx, BuildOperators(col, es, NO_PARTS, idx).value, MatchValues(a, es, []), AndWord);
  }

  lemma MapMatches(value: Value, es: seq<Field>)
    requires es != [] && forall i :: 0 <= i < |es| ==> OperatorFits(value, es[i])
    ensures FieldMatches(value, Obj(es)) == AllMatch(value, es)
  {
    assert OperatorFits(value, es[0]) && es[0].key in FILTER_OPS;
  }

  lemma ConditionReads(s: Scope, col: string, c: Json, idx: nat)
    requires ConditionFits(s.cell(col), c)
    ensures BuildCondition(col, c, idx).Ok?
    ensures Faithful(s, idx, BuildCondition(col, c, idx).value, false, FieldMatches(s.cell(col), c))
  {
    if c.Obj? {
      OperatorMapReads(s, col, c.fields, idx);
      MapMatches(s.cell(col), c.fields);
    } else if Bound(s.bind, idx, [c]) {
      ComparisonReads(s, col, Equals, idx, c.v, c == Scalar(s.cell(col)));
    }
  }

  /** The truth values of the entries that are not silent, in order, after `bs`. */
  function EntryValues(row: Row, es: seq<Field>, bs: seq<bool>): seq<bool> {
    if es == [] then bs else EntryValues(row, es[1..], AddValue(bs, SilentEntry(es[0]), EntrySelects(row, es[0])))
  }

  /** The truth values of the items that are not silent, in order, after `bs`. */
  function ItemValues(row: Row, items: seq<Json>, bs: seq<bool>): seq<bool> {
    if items == [] then bs else ItemValues(row, items[1..], AddValue(bs, Silent(items[0]), Selects(row, items[0])))
  }

  lemma {:induction false} SilenceSelects(row: Row, f: Json)
    requires Silent(f)
    ensures Selects(row, f)
    decreases f, 1
  {
    forall i | 0 <= i < |f.fields| ensures EntrySelects(row, f.fields[i]) { SilentEntrySelects(row, f.fields[i]); }
  }

  lemma {:induction false} SilentEntrySelects(row: Row, e: Field)
    requires SilentEntry(e)
    ensures EntrySelects(row, e)
    decreases e, 0
  {
    forall i | 0 <= i < |e.value.items| ensures Selects(row, e.value.items[i]) {
      SilenceSelects(row, e.value.items[i]);
    }
  }

  ghost predicate EntriesSelect(row: Row, es: seq<Field>) { forall i :: 0 <= i < |es| ==> EntrySelects(row, es[i]) }

  ghost predicate EntriesSilent(es: seq<Field>) { forall i :: 0 <= i < |es| ==> SilentEntry(es[i]) }

  lemma {:induction false} EntryValuesMean(row: Row, es: seq<Field>, bs: seq<bool>)
    ensures AllTrue(EntryValues(row, es, bs)) == (AllTrue(bs) && EntriesSelect(row, es))
    ensures EntryValues(row, es, bs) == [] <==> bs == [] && EntriesSilent(es)
    decreases |es|
  {
    if es != [] {
      assert es == [es[0]] + es[1..];
      if SilentEntry(es[0]) { SilentEntrySelects(row, es[0]); }
      AddValueMeans(bs, SilentEntry(es[0]), EntrySelects(row, es[0]));
      EntryValuesMean(row, es[1..], AddValue(bs, SilentEntry(es[0]), EntrySelects(row, es[0])));
    }
  }

  ghost predicate AllSelect(row: Row, items: seq<Json>) { forall i :: 0 <= i < |items| ==> Selects(row, items[i]) }

  ghost predicate AllSilent(items: seq<Json>) { forall i :: 0 <= i < |items| ==> Silent(items[i]) }

  /** Some item selects the row and is not silent. */
  ghost predicate LoudSelects(row: Row, items: seq<Json>) {
    exists i :: 0 <= i < |items| && !Silent(items[i]) && Selects(row, items[i])
  }

  lemma FirstItem(row: Row, items: seq<Json>)
    requires items != []
    ensures AllSelect(row, items) == (Selects(row, items[0]) && AllSelect(row, items[1..]))
    ensures AllSilent(items) == (Silent(items[0]) && AllSilent(items[1..]))
    ensures LoudSelects(row, items) == ((!Silent(items[0]) && Selects(row, items[0])) || LoudSelects(row, items[1..]))
  {
    var rest := items[1..];
    assert items == [items[0]] + rest;
    if i :| 0 <= i < |rest| && !Silent(rest[i]) && Selects(row, rest[i]) { assert items[i + 1] == rest[i]; }
    if i :| 0 < i < |items| && !Silent(items[i]) && Selects(row, items[i]) { assert rest[i - 1] == items[i]; }
  }

  lemma {:induction false} ItemValuesMean(row: Row, items: seq<Json>, bs: seq<bool>)
    ensures AllTrue(ItemValues(row, items, bs)) == (AllTrue(bs) && AllSelect(row, items))
    ensures ItemValues(row, items, bs) == [] <==> bs == [] && AllSilent(items)
    ensures AnyTrue(ItemValues(row, items, bs)) == (AnyTrue(bs) || LoudSelects(row, items))
    decreases |items|
  {
    if items != [] {
      FirstItem(row, items);
      if Silent(items[0]) { SilenceSelects(row, items[0]); }
      AddValueMeans(bs, Silent(items[0]), Selects(row, items[0]));
      ItemValuesMean(row, items[1..], AddValue(bs, Silent(items[0]), Selects(row, items[0])));
    }
  }

  lemma {:induction false} ObjectReads(schema: Schema, row: Row, s: Scope, f: Json, idx: nat)
    requires Plain(schema, row, f) && CellsMatch(schema, row, s)
    ensures BuildObject(schema, f, idx).Ok?
    ensures Faithful(s, idx, BuildObject(schema, f, idx).value, Silent(f), Selects(row, f))
    decreases f, 1
  {
    EntriesRead(schema, row, s, f.fields, NO_PARTS, idx, []);
    EntryValuesMean(row, f.fields, []);
    GroupFaithful(s, idx, BuildEntries(schema, f.fields, NO_PARTS, idx).value, EntryValues(row, f.fields, []), AndWord);
  }

  lemma BuildEntriesStep(schema: Schema, es: seq<Field>, acc: Parts, base: nat, p: Part)
    requires es != [] && BuildEntry(schema, es[0], base + |acc.params|) == Ok(p)
    ensures BuildEntries(schema, es, acc, base) == BuildEntries(schema, es[1..], AddPart(acc, p), base)
  {}

  lemma EntryValuesStep(row: Row, es: seq<Field>, bs: seq<bool>)
    requires es != []
    ensures EntryValues(row, es, bs) ==
            EntryValues(row, es[1..], AddValue(bs, SilentEntry(es[0]), EntrySelects(row, es[0])))
  {}

  lemma {:induction false} EntriesRead(schema: Schema, row: Row, s: Scope, es: seq<Field>, acc: Parts, base: nat,
                                       bs: seq<bool>)
    requires CellsMatch(schema, row, s) && FaithfulAll(s, base, acc, bs)
    requires forall i :: 0 <= i < |es| ==> PlainEntry(schema, row, es[i])
    ensures BuildEntries(schema, es, acc, base).Ok?
    ensures FaithfulAll(s, base, BuildEntries(schema, es, acc, base).value, EntryValues(row, es, bs))
    decreases es, 0
  {
    if es != [] {
      EntryReads(schema, row, s, es[0], base + |acc.params|);
      var p := BuildEntry(schema, es[0], base + |acc.params|).value;
      AddFaithful(s, base, acc, bs, p, SilentEntry(es[0]), EntrySelects(row, es[0]));
      BuildEntriesStep(schema, es, acc, base, p);
      EntryValuesStep(row, es, bs);
      EntriesRead(schema, row, s, es[1..], AddPart(acc, p), base,
                  AddValue(bs, SilentEntry(es[0]), EntrySelects(row, es[0])));
    }
  }

  lemma {:induction false} LogicalReads(schema: Schema, row: Row, s: Scope, e: Field, idx: nat)
    requires CellsMatch(schema, row, s) && PlainEntry(schema, row, e) && (e.key == "$and" || e.key == "$or")
    ensures BuildLogical(schema, e, idx).Ok?
    ensures Faithful(s, idx, BuildLogical(schema, e, idx).value, SilentEntry(e), EntrySelects(row, e))
    decreases e, 1
  {
    var items := e.value.items;
    var bs := ItemValues(row, items, []);
    ItemsRead(schema, row, s, items, NO_PARTS, idx, []);
    ItemValuesMean(row, items, []);
    var ps := BuildItems(schema, items, NO_PARTS, idx).value;
    if e.key == "$or" {
      assert !Silent(items[0]);
      assert EntrySelects(row, e) == LoudSelects(row, items);
      GroupFaithful(s, idx, ps, bs, OrWord);
    } else {
      assert EntrySelects(row, e) == AllSelect(row, items);
      GroupFaithful(s, idx, ps, bs, AndWord);
    }
  }

  lemma {:induction false} EntryReads(schema: Schema, row: Row, s: Scope, e: Field, idx: nat)
    requires CellsMatch(schema, row, s) && PlainEntry(schema, row, e)
    ensures BuildEntry(schema, e, idx).Ok?
    ensures Faithful(s, idx, BuildEntry(schema, e, idx).value, SilentEntry(e), EntrySelects(row, e))
    decreases e, 2
  {
    if e.key == "$not" {
      ObjectReads(schema, row, s, e.value, idx);
      var p := BuildObject(schema, e.value, idx).value;
      if Bound(s.bind, idx, p.params) { NegationReads(s, p.tokens, Selects(row, e.value)); }
    } else if e.key == "$and" || e.key == "$or" {
      LogicalReads(schema, row, s, e, idx);
    } else {
      ConditionReads(s, schema[e.key], e.value, idx);
    }
  }

  lemma BuildItemsStep(schema: Schema, items: seq<Json>, acc: Parts, base: nat, p: Part)
    requires items != [] && BuildObject(schema, items[0], base + |acc.params|) == Ok(p)
    ensures BuildItems(schema, items, acc, base) == BuildItems(schema, items[1..], AddPart(acc, p), base)
  {}

  lemma ItemValuesStep(row: Row, items: seq<Json>, bs: seq<bool>)
    requires items != []
    ensures ItemValues(row, items, bs) ==
            ItemValues(row, items[1..], AddValue(bs, Silent(items[0]), Selects(row, items[0])))
  {}

  lemma {:induction false} ItemsRead(schema: Schema, row: Row, s: Scope, items: seq<Json>, acc: Parts, base: nat,
                                     bs: seq<bool>)
    requires CellsMatch(schema, row, s) && FaithfulAll(s, base, acc, bs)
    requires forall i :: 0 <= i < |items| ==> Plain(schema, row, items[i])
    ensures BuildItems(schema, items, acc, base).Ok?
    ensures FaithfulAll(s, base, BuildItems(schema, items, acc, base).value, ItemValues(row, items, bs))
    decreases items, 0
  {
    if items != [] {
      ObjectReads(schema, row, s, items[0], base + |acc.params|);
      var p := BuildObject(schema, items[0], base + |acc.params|).value;
      AddFaithful(s, base, acc, bs, p, Silent(items[0]), Selects(row, items[0]));
      BuildItemsStep(schema, items, acc, base, p);
      ItemValuesStep(row, items, bs);
      ItemsRead(schema, row, s, items[1..], AddPart(acc, p), base,
                AddValue(bs, Silent(items[0]), Selects(row, items[0])));
    }
  }

  /** Reading a whole fragment that is one operand. */
  lemma KeepsMeans(s: Scope, ts: seq<Sql>, b: bool)
    requires ts != [] && ReadsAs(s, ts, b)
    ensures Keeps(s, ts) <==> b
  {
    assert ts[0..|ts|] == ts;
    assert Spans(ts, 0, |ts|, ts);
    assert ReadNot(s, ts, 0) == Some((Truth(b), |ts|));
    assert ReadAnd(s, ts, 0) == Some((Truth(b), |ts|));
    assert ReadOr(s, ts, 0) == Some((Truth(b), |ts|));
  }

  lemma WholeBinding(s: Scope, params: seq<Json>)
    requires s.bind == params
    ensures Bound(s.bind, 0, params)
  {
    assert s.bind[0..|params|] == params;
  }

  /**
   Main result: for every plain filter, the WHERE fragment, read with SQL's precedences and three-valued logic over the
   row and its bound operands, keeps the row exactly when `evaluate_filter` selects it.
   */
  lemma TranslationAgrees(schema: Schema, row: Row, f: Json, s: Scope)
    requires Plain(schema, row, f) && CellsMatch(schema, row, s)
    requires Translate(schema, f).Ok? ==> s.bind == Translate(schema, f).value.params
    ensures Translate(schema, f).Ok?
    ensures Keeps(s, Translate(schema, f).value.tokens) <==> Selects(row, f)
  {
    ObjectReads(schema, row, s, f, 0);
    var p := Translate(schema, f).value;
    WholeBinding(s, p.params);
    if p.tokens != [] { KeepsMeans(s, p.tokens, Selects(row, f)); }
  }

  // ---------------------------------------------------------------- where the two sides differ

  function Only(key: string, value: Json): Json { Obj([Field(key, value)]) }

  lemma OnlyEntry(schema: Schema, key: string, value: Json, p: Part)
    requires BuildEntry(schema, Field(key, value), 0) == Ok(p)
    ensures Translate(schema, Only(key, value)) == Ok(p)
  {
    var e := Field(key, value);
    var es := [e];
    assert es[0] == e && es[1..] == [];
    assert BuildEntries(schema, es, NO_PARTS, 0) == BuildEntries(schema, [], AddPart(NO_PARTS, p), 0);
    assert [] + p.params == p.params;
    assert [] + [p.tokens] == [p.tokens];
  }

  /**
   `$or` over plain items: the translation drops silent items, the evaluator takes them as true. They agree on a row
   exactly when the list is not empty and no silent item hides that all the others reject the row.
   */
  lemma OrAgreesExactlyWhen(schema: Schema, row: Row, items: seq<Json>, s: Scope)
    requires CellsMatch(schema, row, s) && forall i :: 0 <= i < |items| ==> Plain(schema, row, items[i])
    requires var t := Translate(schema, Only("$or", Arr(items))); t.Ok? ==> s.bind == t.value.params
    ensures Translate(schema, Only("$or", Arr(items))).Ok?
    ensures (Keeps(s, Translate(schema, Only("$or", Arr(items))).value.tokens) <==>
             Selects(row, Only("$or", Arr(items))))
            <==> items != [] && ((forall i :: 0 <= i < |items| ==> !Silent(items[i])) ||
                                 AllSilent(items) || LoudSelects(row, items))
  {
    var e := Field("$or", Arr(items));
    ItemsRead(schema, row, s, items, NO_PARTS, 0, []);
    ItemValuesMean(row, items, []);
    var ps := BuildItems(schema, items, NO_PARTS, 0).value;
    var p := Part(Group(ps.clauses, OrWord), ps.params);
    assert BuildEntry(schema, e, 0) == Ok(p);
    OnlyEntry(schema, "$or", Arr(items), p);
    WholeBinding(s, p.params);
    OrMeaning(row, items);
    if !AllSilent(items) {
      GroupFaithful(s, 0, ps, ItemValues(row, items, []), OrWord);
      KeepsMeans(s, p.tokens, LoudSelects(row, items));
    }
  }

  lemma OrMeaning(row: Row, items: seq<Json>)
    ensures Selects(row, Only("$or", Arr(items))) <==>
            LoudSelects(row, items) || exists i :: 0 <= i < |items| && Silent(items[i])
  {
    var f := Only("$or", Arr(items));
    assert f.fields[0] == Field("$or", Arr(items));
    assert Selects(row, f) <==> EntrySelects(row, f.fields[0]);
    if i :| 0 <= i < |items| && Silent(items[i]) { SilenceSelects(row, items[i]); }
  }

  /** `$not` over a plain filter agrees exactly when that filter is not silent. */
  lemma NotAgreesExactlyWhen(schema: Schema, row: Row, g: Json, s: Scope)
    requires CellsMatch(schema, row, s) && Plain(schema, row, g)
    requires var t := Translate(schema, Only("$not", g)); t.Ok? ==> s.bind == t.value.params
    ensures Translate(schema, Only("$not", g)).Ok?
    ensures (Keeps(s, Translate(schema, Only("$not", g)).value.tokens) <==> Selects(row, Only("$not", g)))
            <==> !Silent(g)
  {
    var f := Only("$not", g);
    assert f.fields[0] == Field("$not", g);
    assert Selects(row, f) <==> !Selects(row, g);
    ObjectReads(schema, row, s, g, 0);
    var q := BuildObject(schema, g, 0).value;
    var p := if q.tokens == [] then q else q.(tokens := [NotWord] + q.tokens);
    OnlyEntry(schema, "$not", g, p);
    WholeBinding(s, p.params);
    if q.tokens != [] {
      NegationReads(s, q.tokens, Selects(row, g));
      KeepsMeans(s, p.tokens, !Selects(row, g));
    }
  }

  /** An empty operator map is written as `()`, which no reader accepts. */
  lemma EmptyOperatorMapIsUnreadable(schema: Schema, key: string, s: Scope)
    requires key in schema && !IsLogical(key)
    ensures Translate(schema, Only(key, Obj([]))) == Ok(Part([Open, Close], []))
    ensures ReadOr(s, [Open, Close], 0) == None
  {
    assert [Open] + Join([], AndWord) + [Close] == [Open, Close];
    OnlyEntry(schema, key, Obj([]), Part([Open, Close], []));
    assert ReadOr(s, [Open, Close], 1) == None;
  }

  lemma BetweenTranslates(schema: Schema, key: string, low: Json, high: Json)
    requires key in schema && !IsLogical(key)
    ensures Translate(schema, Only(key, Only("$between", Arr([low, high])))) ==
              Ok(Part([Col(schema[key]), BetweenWord, Param(0), AndWord, Param(1)], [low, high]))
  {
    var op := Field("$between", Arr([low, high]));
    var c := Obj([op]);
    var p := Part([Col(schema[key]), BetweenWord, Param(0), AndWord, Param(1)], [low, high]);
    assert c.fields[0] == op && c.fields[1..] == [];
    assert BuildOperator(schema[key], op, 0) == Ok(p);
    assert [] + p.params == p.params && [] + [p.tokens] == [p.tokens];
    assert BuildOperators(schema[key], c.fields, NO_PARTS, 0) == Ok(AddPart(NO_PARTS, p));
    OnlyEntry(schema, key, c, p);
  }

  lemma BetweenReads(s: Scope, col: string, low: Value, high: Value)
    requires s.bind == [Scalar(low), Scalar(high)]
    ensures Keeps(s, [Col(col), BetweenWord, Param(0), AndWord, Param(1)]) <==>
              SqlCompare(AtLeast, s.cell(col), low) == Yes && SqlCompare(AtMost, s.cell(col), high) == Yes
  {
    var ts := [Col(col), BetweenWord, Param(0), AndWord, Param(1)];
    var v := TriAnd(SqlCompare(AtLeast, s.cell(col), low), SqlCompare(AtMost, s.cell(col), high));
    assert ReadPredicate(s, ts, 1, s.cell(col)) == Some((v, 5));
    assert ReadNot(s, ts, 0) == Some((v, 5));
    assert ReadAnd(s, ts, 0) == Some((v, 5));
    assert ReadOr(s, ts, 0) == Some((v, 5));
  }

  /** The evaluator does not know `$between` and never selects by it; the fragment keeps the rows in range. */
  lemma BetweenIsOneSided(schema: Schema, row: Row, key: string, low: Value, high: Value, s: Scope)
    requires key in schema && !IsLogical(key) && CellsMatch(schema, row, s)
    requires s.bind == [Scalar(low), Scalar(high)]
    ensures var f := Only(key, Only("$between", Arr([Scalar(low), Scalar(high)])));
            && !Selects(row, f)
            && Translate(schema, f).Ok? && Translate(schema, f).value.params == s.bind
            && (Keeps(s, Translate(schema, f).value.tokens) <==>
                  SqlCompare(AtLeast, Get(row, key), low) == Yes && SqlCompare(AtMost, Get(row, key), high) == Yes)
  {
    BetweenTranslates(schema, key, Scalar(low), Scalar(high));
    BetweenReads(s, schema[key], low, high);
    var op := Field("$between", Arr([Scalar(low), Scalar(high)]));
    var f := Only(key, Obj([op]));
    assert f.fields[0] == Field(key, Obj([op])) && Obj([op]).fields[0] == op;
    assert !EntrySelects(row, f.fields[0]);
  }
}
