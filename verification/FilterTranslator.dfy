/**
 The translator object: a counter and a parameter table updated while the filter is walked. The table is kept as a
 sequence whose entry `i` is the operand bound to placeholder `p<i>`.
 */
module FilterTranslator {
  import opened Common
  import opened Filters

  class Translator {
    const schema: Schema
    var paramIndex: nat
    var params: seq<Json>

    ghost predicate Valid()
      reads this
    {
      paramIndex == |params|
    }

    /** A call that found `before` in the table did what the building function says. */
    ghost predicate Agrees(r: Result<seq<Sql>, FilterError>, before: seq<Json>, built: Built)
      reads this
    {
      match built
      case Err(e) => r == Err(e)
      case Ok(p) => r == Ok(p.tokens) && params == before + p.params && Valid()
    }

    /** The same for a call that collects several clauses. */
    ghost predicate Collects(r: Result<seq<seq<Sql>>, FilterError>, before: seq<Json>,
                             built: Result<Parts, FilterError>)
      reads this
    {
      match built
      case Err(e) => r == Err(e)
      case Ok(p) => r == Ok(p.clauses) && params == before + p.params && Valid()
    }

    constructor (schema: Schema)
      ensures this.schema == schema && params == [] && Valid()
    {
      this.schema, paramIndex, params := schema, 0, [];
    }

    method NextParam(value: Json) returns (index: nat)
      requires Valid()
      modifies this
      ensures Valid() && index == |old(params)| && params == old(params) + [value]
    {
      index := paramIndex;
      paramIndex := paramIndex + 1;
      params := params + [value];
    }

    method BindAll(items: seq<Json>) returns (placeholders: seq<Sql>)
      requires Valid() && items != []
      modifies this
      ensures Valid() && params == old(params) + items
      ensures placeholders == Placeholders(|old(params)|, |items|)
    {
      placeholders := [];
      for i := 0 to |items|
        invariant Valid() && params == old(params) + items[..i]
        invariant placeholders == Placeholders(|old(params)|, i)
      {
        var index := NextParam(items[i]);
        assert items[..i + 1] == items[..i] + [items[i]];
        if i > 0 { PlaceholdersSnoc(|old(params)|, i); }
        placeholders := placeholders + (if i == 0 then [] else [Comma]) + [Param(index)];
      }
      assert items[..|items|] == items;
    }

    method TranslateIn(col: string, operand: Json, negate: bool) returns (r: Result<seq<Sql>, FilterError>)
      requires Valid()
      modifies this
      ensures Agrees(r, old(params), BuildIn(col, operand, |old(params)|, negate))
    {
      if !operand.Arr? { return Err(FilterInvalid); }
      if operand.items == [] { return Ok([if negate then Always else Never]); }
      var list := BindAll(operand.items);
      r := Ok([Col(col)] + (if negate then [NotWord, InWord] else [InWord]) + [Open] + list + [Close]);
    }

    method TranslateOperator(col: string, e: Field) returns (r: Result<seq<Sql>, FilterError>)
      requires Valid()
      modifies this
      ensures Agrees(r, old(params), BuildOperator(col, e, |old(params)|))
    {
      if e.key == "$in" {
        r := TranslateIn(col, e.value, false);
      } else if e.key == "$nin" {
        r := TranslateIn(col, e.value, true);
      } else if e.key == "$between" {
        if !e.value.Arr? || |e.value.items| != 2 { return Err(FilterInvalid); }
        var low := NextParam(e.value.items[0]);
        var high := NextParam(e.value.items[1]);
        assert e.value.items == [e.value.items[0]] + [e.value.items[1]];
        r := Ok([Col(col), BetweenWord, Param(low), AndWord, Param(high)]);
      } else if e.key == "$contains" {
        var index := NextParam(LikePattern(e.value));
        r := Ok([Col(col), LikeWord, Param(index)]);
      } else {
        var op := SimpleOp(e.key);
        if op.None? { return Err(FilterInvalid); }
        var index := NextParam(e.value);
        r := Ok([Col(col), Cmp(op.value), Param(index)]);
      }
    }

    method TranslateCondition(col: string, condition: Json) returns (r: Result<seq<Sql>, FilterError>)
      requires Valid()
      modifies this
      ensures Agrees(r, old(params), BuildCondition(col, condition, |old(params)|))
    {
      if !condition.Obj? {
        var index := NextParam(condition);
        return Ok([Col(col), Cmp(Equals), Param(index)]);
      }
      var parts := CollectOperators(col, condition.fields);
      if parts.Err? { return Err(parts.error); }
      r := Ok(if |parts.value| == 1 then parts.value[0] else [Open] + Join(parts.value, AndWord) + [Close]);
    }

    method CollectOperators(col: string, es: seq<Field>) returns (r: Result<seq<seq<Sql>>, FilterError>)
      requires Valid()
      modifies this
      ensures Collects(r, old(params), BuildOperators(col, es, NO_PARTS, |old(params)|))
    {
      ghost var acc := NO_PARTS;
      ghost var whole := OperatorsAt(col, es, 0, acc, |params|);
      assert es[0..] == es;
      var parts: seq<seq<Sql>> := [];
      for i := 0 to |es|
        invariant Holds(parts, acc, old(params)) && whole == OperatorsAt(col, es, i, acc, |old(params)|)
      {
        var one;
        one, acc := AddOperator(col, es, i, parts, acc, old(params));
        if one.Err? { return Err(one.error); }
        parts := one.value;
      }
      r := Ok(parts);
    }

    /** One turn of that loop. */
    method AddOperator(col: string, es: seq<Field>, i: nat, parts: seq<seq<Sql>>, ghost acc: Parts,
                       ghost before: seq<Json>)
      returns (r: Result<seq<seq<Sql>>, FilterError>, ghost next: Parts)
      requires i < |es| && Holds(parts, acc, before)
      modifies this
      ensures r.Err? ==> OperatorsAt(col, es, i, acc, |before|) == Err(r.error)
      ensures r.Ok? ==>
              Holds(r.value, next, before) &&
              OperatorsAt(col, es, i, acc, |before|) == OperatorsAt(col, es, i + 1, next, |before|)
    {
      next := acc;
      OperatorsFrom(col, es, i, acc, |before|);
      var one := TranslateOperator(col, es[i]);
      if one.Err? { return Err(one.error), next; }
      var all;
      all, next := AddClause(parts, one.value, acc, before, BuildOperator(col, es[i], |before| + |acc.params|).value);
      r := Ok(all);
    }

    /** `_build_object`: collect the clauses of the entries, drop the empty ones, join the rest. */
    method TranslateObject(f: Json) returns (r: Result<seq<Sql>, FilterError>)
      requires Valid()
      modifies this
      ensures Agrees(r, old(params), BuildObject(schema, f, |old(params)|))
      decreases f, 1
    {
      if !f.Obj? { return Err(FilterInvalid); }
      var clauses := CollectEntries(f);
      if clauses.Err? { return Err(clauses.error); }
      r := Ok(Group(clauses.value, AndWord));
    }

    method CollectEntries(f: Json) returns (r: Result<seq<seq<Sql>>, FilterError>)
      requires Valid() && f.Obj?
      modifies this
      ensures Collects(r, old(params), BuildEntries(schema, f.fields, NO_PARTS, |old(params)|))
      decreases f, 0
    {
      var es := f.fields;
      ghost var acc := NO_PARTS;
      assert es[0..] == es;
      var clauses: seq<seq<Sql>> := [];
      for i := 0 to |es|
        invariant Holds(clauses, acc, old(params))
        invariant BuildEntries(schema, es, NO_PARTS, |old(params)|) == BuildEntries(schema, es[i..], acc, |old(params)|)
      {
        var one := TranslateEntry(es[i]);
        EntriesFrom(schema, es, i, acc, |old(params)|);
        if one.Err? { return Err(one.error); }
        clauses, acc := AddClause(clauses, one.value, acc, old(params),
                                  BuildEntry(schema, es[i], |old(params)| + |acc.params|).value);
      }
      r := Ok(clauses);
    }

    method TranslateEntry(e: Field) returns (r: Result<seq<Sql>, FilterError>)
      requires Valid()
      modifies this
      ensures Agrees(r, old(params), BuildEntry(schema, e, |old(params)|))
      decreases e, 2
    {
      if IsLogical(e.key) {
        r := TranslateLogical(e);
      } else {
        if e.key !in schema { return Err(FieldUnknown); }
        r := TranslateCondition(schema[e.key], e.value);
      }
    }

    method TranslateLogical(e: Field) returns (r: Result<seq<Sql>, FilterError>)
      requires Valid()
      modifies this
      ensures Agrees(r, old(params), BuildLogical(schema, e, |old(params)|))
      decreases e, 1
    {
      if e.key == "$not" {
        r := TranslateObject(e.value);
        if r.Ok? && r.value != [] { r := Ok([NotWord] + r.value); }
        return;
      }
      if e.key != "$and" && e.key != "$or" { return Err(FilterInvalid); }
      if !e.value.Arr? { return Err(FilterInvalid); }
      var clauses := CollectItems(e.value);
      if clauses.Err? { return Err(clauses.error); }
      r := Ok(Group(clauses.value, if e.key == "$and" then AndWord else OrWord));
    }

    method CollectItems(list: Json) returns (r: Result<seq<seq<Sql>>, FilterError>)
      requires Valid() && list.Arr?
      modifies this
      ensures Collects(r, old(params), BuildItems(schema, list.items, NO_PARTS, |old(params)|))
      decreases list, 2
    {
      var items := list.items;
      ghost var acc := NO_PARTS;
      assert items[0..] == items;
      var clauses: seq<seq<Sql>> := [];
      for i := 0 to |items|
        invariant Holds(clauses, acc, old(params))
        invariant BuildItems(schema, items, NO_PARTS, |old(params)|) ==
                  BuildItems(schema, items[i..], acc, |old(params)|)
      {
        var one := TranslateObject(items[i]);
        ItemsFrom(schema, items, i, acc, |old(params)|);
        if one.Err? { return Err(one.error); }
        clauses, acc := AddClause(clauses, one.value, acc, old(params),
                                  BuildObject(schema, items[i], |old(params)| + |acc.params|).value);
      }
      r := Ok(clauses);
    }

    /** The clauses and operands gathered so far. */
    ghost predicate Holds(clauses: seq<seq<Sql>>, acc: Parts, before: seq<Json>)
      reads this
    {
      Valid() && clauses == acc.clauses && params == before + acc.params
    }

    /** Appends a clause unless it is empty. */
    method AddClause(clauses: seq<seq<Sql>>, clause: seq<Sql>, ghost acc: Parts, ghost before: seq<Json>, ghost p: Part)
      returns (next: seq<seq<Sql>>, ghost nextAcc: Parts)
      requires Valid() && clauses == acc.clauses && clause == p.tokens && params == before + acc.params + p.params
      ensures nextAcc == AddPart(acc, p) && Holds(next, nextAcc, before)
    {
      next := if clause == [] then clauses else clauses + [clause];
      nextAcc := AddPart(acc, p);
      assert before + acc.params + p.params == before + (acc.params + p.params);
    }
  }

  lemma {:induction false} PlaceholdersSnoc(from: nat, count: nat)
    requires count > 0
    ensures Placeholders(from, count + 1) == Placeholders(from, count) + [Comma, Param(from + count)]
    decreases count
  {
    if count > 1 { PlaceholdersSnoc(from + 1, count - 1); }
  }

  ghost function OperatorsAt(col: string, es: seq<Field>, i: int, acc: Parts, base: nat): Result<Parts, FilterError> {
    if 0 <= i <= |es| then BuildOperators(col, es[i..], acc, base) else Err(FilterInvalid)
  }

  lemma OperatorsFrom(col: string, es: seq<Field>, i: nat, acc: Parts, base: nat)
    requires i < |es|
    ensures BuildOperators(col, es[i..], acc, base) ==
              match BuildOperator(col, es[i], base + |acc.params|)
              case Err(e) => Err(e)
              case Ok(p) => BuildOperators(col, es[i + 1..], AddPart(acc, p), base)
  {
    assert es[i..][0] == es[i] && es[i..][1..] == es[i + 1..];
  }

  lemma EntriesFrom(schema: Schema, es: seq<Field>, i: nat, acc: Parts, base: nat)
    requires i < |es|
    ensures BuildEntries(schema, es[i..], acc, base) ==
              match BuildEntry(schema, es[i], base + |acc.params|)
              case Err(e) => Err(e)
              case Ok(p) => BuildEntries(schema, es[i + 1..], AddPart(acc, p), base)
  {
    assert es[i..][0] == es[i] && es[i..][1..] == es[i + 1..];
  }

  lemma ItemsFrom(schema: Schema, items: seq<Json>, i: nat, acc: Parts, base: nat)
    requires i < |items|
    ensures BuildItems(schema, items[i..], acc, base) ==
              match BuildObject(schema, items[i], base + |acc.params|)
              case Err(e) => Err(e)
              case Ok(p) => BuildItems(schema, items[i + 1..], AddPart(acc, p), base)
  {
    assert items[i..][0] == items[i] && items[i..][1..] == items[i + 1..];
  }
}
