/** Every placeholder of a translated filter is bound to its own operand. */
module FilterPlaceholders {
  import opened Common
  import opened Filters

  /** The placeholder numbers of a fragment, in the order they appear. */
  function Indices(ts: seq<Sql>): seq<nat> {
    if ts == [] then []
    else Indices(ts[..|ts| - 1]) + if ts[|ts| - 1].Param? then [ts[|ts| - 1].index] else []
  }

  function Range(from: nat, count: nat): seq<nat> { seq(count, i requires 0 <= i < count => from + i) }

  lemma {:induction false} IndicesConcat(a: seq<Sql>, b: seq<Sql>)
    ensures Indices(a + b) == Indices(a) + Indices(b)
  {
    if b == [] {
      assert a + b == a;
    } else {
      IndicesConcat(a, b[..|b| - 1]);
      assert (a + b)[..|a + b| - 1] == a + b[..|b| - 1];
    }
  }

  lemma RangeConcat(from: nat, m: nat, n: nat)
    ensures Range(from, m) + Range(from + m, n) == Range(from, m + n)
  {}

  lemma {:induction false} PlaceholderIndices(from: nat, count: nat)
    ensures Indices(Placeholders(from, count)) == Range(from, count)
    decreases count
  {
    if count == 1 {
      assert Indices([Param(from)]) == [from];
    } else if count > 1 {
      PlaceholderIndices(from + 1, count - 1);
      IndicesConcat([Param(from), Comma], Placeholders(from + 1, count - 1));
      assert [Param(from), Comma][..1] == [Param(from)] && Indices([Param(from)]) == [from];
      RangeConcat(from, 1, count - 1);
    }
  }

  /** A part uses exactly the placeholders of its own operands, once each and in order. */
  ghost predicate Numbered(p: Part, base: nat) { Indices(p.tokens) == Range(base, |p.params|) }

  ghost predicate AllNumbered(ps: Parts, base: nat) { Indices(Join(ps.clauses, AndWord)) == Range(base, |ps.params|) }

  lemma {:induction false} NoIndices(ts: seq<Sql>)
    requires forall i :: 0 <= i < |ts| ==> !ts[i].Param?
    ensures Indices(ts) == []
  {
    if ts != [] { NoIndices(ts[..|ts| - 1]); }
  }

  /** Separators carry no placeholder, so it does not matter which one joins the clauses. */
  lemma {:induction false} SeparatorsDoNotCount(clauses: seq<seq<Sql>>, separator: Sql)
    requires !separator.Param?
    ensures Indices(Join(clauses, separator)) == Indices(Join(clauses, AndWord))
    decreases |clauses|
  {
    if |clauses| > 1 {
      var prior, last := clauses[..|clauses| - 1], clauses[|clauses| - 1];
      SeparatorsDoNotCount(prior, separator);
      JoinedIndices(prior, separator, last);
      JoinedIndices(prior, AndWord, last);
    }
  }

  lemma BracketsDoNotCount(inner: seq<Sql>)
    ensures Indices([Open] + inner + [Close]) == Indices(inner)
  {
    NoIndices([Open]);
    NoIndices([Close]);
    IndicesConcat([Open] + inner, [Close]);
    IndicesConcat([Open], inner);
  }

  lemma JoinIndices(clauses: seq<seq<Sql>>, separator: Sql)
    requires !separator.Param?
    ensures Indices(Group(clauses, separator)) == Indices(Join(clauses, AndWord))
    ensures Indices([Open] + Join(clauses, separator) + [Close]) == Indices(Join(clauses, AndWord))
  {
    SeparatorsDoNotCount(clauses, separator);
    BracketsDoNotCount(Join(clauses, separator));
  }

  lemma JoinedIndices(prior: seq<seq<Sql>>, separator: Sql, last: seq<Sql>)
    requires !separator.Param?
    ensures Indices(Join(prior, separator) + [separator] + last) == Indices(Join(prior, separator)) + Indices(last)
  {
    assert Indices([separator]) == [];
    IndicesConcat(Join(prior, separator) + [separator], last);
    IndicesConcat(Join(prior, separator), [separator]);
  }

  lemma AddNumbered(ps: Parts, p: Part, base: nat)
    requires AllNumbered(ps, base) && Numbered(p, base + |ps.params|)
    ensures AllNumbered(AddPart(ps, p), base)
  {
    RangeConcat(base, |ps.params|, |p.params|);
    if p.tokens != [] {
      var more := ps.clauses + [p.tokens];
      assert more[..|more| - 1] == ps.clauses;
      if ps.clauses != [] { JoinedIndices(ps.clauses, AndWord, p.tokens); }
    }
  }

  lemma InNumbered(col: string, operand: Json, idx: nat, negate: bool)
    requires BuildIn(col, operand, idx, negate).Ok?
    ensures Numbered(BuildIn(col, operand, idx, negate).value, idx)
  {
    if operand.items == [] {
      NoIndices([if negate then Always else Never]);
    } else {
      var head := [Col(col)] + (if negate then [NotWord, InWord] else [InWord]) + [Open];
      var mid := Placeholders(idx, |operand.items|);
      NoIndices(head);
      NoIndices([Close]);
      PlaceholderIndices(idx, |operand.items|);
      IndicesConcat(head + mid, [Close]);
      IndicesConcat(head, mid);
    }
  }

  lemma ThreeTokens(a: Sql, b: Sql, idx: nat)
    requires !a.Param? && !b.Param?
    ensures Indices([a, b, Param(idx)]) == [idx]
  {
    assert [a, b, Param(idx)][..2] == [a, b] && [a, b][..1] == [a];
    assert Indices([a]) == [] && Indices([a, b]) == [];
  }

  lemma OperatorNumbered(col: string, e: Field, idx: nat)
    requires BuildOperator(col, e, idx).Ok?
    ensures Numbered(BuildOperator(col, e, idx).value, idx)
  {
    if e.key == "$in" || e.key == "$nin" {
      InNumbered(col, e.value, idx, e.key == "$nin");
    } else if e.key == "$between" {
      ThreeTokens(Col(col), BetweenWord, idx);
      var ts := [Col(col), BetweenWord, Param(idx), AndWord, Param(idx + 1)];
      IndicesConcat([Col(col), BetweenWord, Param(idx)], [AndWord, Param(idx + 1)]);
      assert ts == [Col(col), BetweenWord, Param(idx)] + [AndWord, Param(idx + 1)];
      assert [AndWord, Param(idx + 1)][..1] == [AndWord] && Indices([AndWord]) == [];
    } else if e.key == "$contains" {
      ThreeTokens(Col(col), LikeWord, idx);
    } else {
      ThreeTokens(Col(col), Cmp(SimpleOp(e.key).value), idx);
    }
  }

  lemma OperatorsStep(col: string, es: seq<Field>, acc: Parts, base: nat) returns (p: Part)
    requires es != [] && BuildOperators(col, es, acc, base).Ok?
    ensures BuildOperator(col, es[0], base + |acc.params|) == Ok(p)
    ensures BuildOperators(col, es, acc, base) == BuildOperators(col, es[1..], AddPart(acc, p), base)
  {
    p := BuildOperator(col, es[0], base + |acc.params|).value;
  }

  lemma {:induction false} OperatorsNumbered(col: string, es: seq<Field>, acc: Parts, base: nat)
    requires AllNumbered(acc, base) && BuildOperators(col, es, acc, base).Ok?
    ensures AllNumbered(BuildOperators(col, es, acc, base).value, base)
    decreases |es|
  {
    if es != [] {
      var p := OperatorsStep(col, es, acc, base);
      OperatorNumbered(col, es[0], base + |acc.params|);
      AddNumbered(acc, p, base);
      OperatorsNumbered(col, es[1..], AddPart(acc, p), base);
    }
  }

  lemma ConditionNumbered(col: string, c: Json, idx: nat)
    requires BuildCondition(col, c, idx).Ok?
    ensures Numbered(BuildCondition(col, c, idx).value, idx)
  {
    if c.Obj? {
      OperatorsNumbered(col, c.fields, NO_PARTS, idx);
      JoinIndices(BuildOperators(col, c.fields, NO_PARTS, idx).value.clauses, AndWord);
    } else {
      ThreeTokens(Col(col), Cmp(Equals), idx);
    }
  }

  /**
   Every translation, of any filter it accepts, numbers its placeholders consecutively from `idx` in the order they
   appear, one per bound operand, so no placeholder is shared or skipped.
   */
  lemma {:induction false} PlaceholdersAreDistinct(schema: Schema, f: Json, idx: nat)
    requires BuildObject(schema, f, idx).Ok?
    ensures Numbered(BuildObject(schema, f, idx).value, idx)
    decreases f, 1
  {
    EntriesNumbered(schema, f.fields, NO_PARTS, idx);
    JoinIndices(BuildEntries(schema, f.fields, NO_PARTS, idx).value.clauses, AndWord);
  }

  lemma EntriesStep(schema: Schema, es: seq<Field>, acc: Parts, base: nat) returns (p: Part)
    requires es != [] && BuildEntries(schema, es, acc, base).Ok?
    ensures BuildEntry(schema, es[0], base + |acc.params|) == Ok(p)
    ensures BuildEntries(schema, es, acc, base) == BuildEntries(schema, es[1..], AddPart(acc, p), base)
  {
    p := BuildEntry(schema, es[0], base + |acc.params|).value;
  }

  lemma {:induction false} EntriesNumbered(schema: Schema, es: seq<Field>, acc: Parts, base: nat)
    requires AllNumbered(acc, base) && BuildEntries(schema, es, acc, base).Ok?
    ensures AllNumbered(BuildEntries(schema, es, acc, base).value, base)
    decreases es, 0
  {
    if es != [] {
      var p := EntriesStep(schema, es, acc, base);
      EntryNumbered(schema, es[0], base + |acc.params|);
      AddNumbered(acc, p, base);
      EntriesNumbered(schema, es[1..], AddPart(acc, p), base);
    }
  }

  lemma {:induction false} EntryNumbered(schema: Schema, e: Field, idx: nat)
    requires BuildEntry(schema, e, idx).Ok?
    ensures Numbered(BuildEntry(schema, e, idx).value, idx)
    decreases e, 2
  {
    if !IsLogical(e.key) {
      ConditionNumbered(schema[e.key], e.value, idx);
    } else if e.key == "$not" {
      PlaceholdersAreDistinct(schema, e.value, idx);
      assert Indices([NotWord]) == [];
      IndicesConcat([NotWord], BuildObject(schema, e.value, idx).value.tokens);
    } else {
      ItemsNumbered(schema, e.value.items, NO_PARTS, idx);
      JoinIndices(BuildItems(schema, e.value.items, NO_PARTS, idx).value.clauses,
                  if e.key == "$and" then AndWord else OrWord);
    }
  }

  lemma ItemsStep(schema: Schema, items: seq<Json>, acc: Parts, base: nat) returns (p: Part)
    requires items != [] && BuildItems(schema, items, acc, base).Ok?
    ensures BuildObject(schema, items[0], base + |acc.params|) == Ok(p)
    ensures BuildItems(schema, items, acc, base) == BuildItems(schema, items[1..], AddPart(acc, p), base)
  {
    p := BuildObject(schema, items[0], base + |acc.params|).value;
  }

  lemma {:induction false} ItemsNumbered(schema: Schema, items: seq<Json>, acc: Parts, base: nat)
    requires AllNumbered(acc, base) && BuildItems(schema, items, acc, base).Ok?
    ensures AllNumbered(BuildItems(schema, items, acc, base).value, base)
    decreases items, 0
  {
    if items != [] {
      var p := ItemsStep(schema, items, acc, base);
      PlaceholdersAreDistinct(schema, items[0], base + |acc.params|);
      AddNumbered(acc, p, base);
      ItemsNumbered(schema, items[1..], AddPart(acc, p), base);
    }
  }
}
