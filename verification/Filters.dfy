/**
 NWP query filters: the in-memory evaluator, the translator to a SQL WHERE fragment, and a reader of such fragments.

 A filter is a JSON value. The translator produces the fragment as a sequence of SQL tokens with numbered
 placeholders; the reader evaluates a fragment over a row with SQL's precedences (NOT over AND over OR) and SQL's
 three-valued logic.
 */
module Filters {
  import opened Common

  // ---------------------------------------------------------------- data

  datatype Value = Null | Num(n: real) | Text(s: string)

  datatype Json = Scalar(v: Value) | Arr(items: seq<Json>) | Obj(fields: seq<Field>)

  datatype Field = Field(key: string, value: Json)

  type Row = map<string, Value>

  function Get(row: Row, key: string): Value { if key in row then row[key] else Null }

  // ---------------------------------------------------------------- in-memory evaluation

  const FILTER_OPS := {"$eq", "$ne", "$gt", "$gte", "$lt", "$lte", "$in", "$nin", "$contains"}

  predicate IsInfix(x: string, s: string) { exists i :: 0 <= i <= |s| && x <= s[i..] }

  /** `left < right`, or false where Python raises a TypeError. */
  predicate Below(a: Value, b: Value) {
    match (a, b)
    case (Num(x), Num(y)) => x < y
    case (Text(x), Text(y)) => !Leq(y, x)
    case _ => false
  }

  /** `_cmp`. */
  predicate Matches(op: string, left: Value, right: Json) {
    if op == "$eq" then right == Scalar(left)
    else if op == "$ne" then right != Scalar(left)
    else if op == "$in" then right.Arr? && Scalar(left) in right.items
    else if op == "$nin" then right.Arr? && Scalar(left) !in right.items
    else if op == "$contains" then right.Scalar? && left.Text? && right.v.Text? && IsInfix(right.v.s, left.s)
    else if left.Null? || !right.Scalar? then false
    else if op == "$gt" then Below(right.v, left)
    else if op == "$gte" then Below(right.v, left) || (!right.v.Null? && left == right.v)
    else if op == "$lt" then Below(left, right.v)
    else if op == "$lte" then Below(left, right.v) || (!right.v.Null? && left == right.v)
    else false
  }

  predicate HasOperator(fields: seq<Field>) { exists i :: 0 <= i < |fields| && fields[i].key in FILTER_OPS }

  predicate FieldMatches(value: Value, condition: Json) {
    if condition.Obj? && HasOperator(condition.fields) then
      forall i :: 0 <= i < |condition.fields| ==>
        condition.fields[i].key in FILTER_OPS && Matches(condition.fields[i].key, value, condition.fields[i].value)
    else condition == Scalar(value)
  }

  /** `evaluate_filter`; an operand of `$and` or `$or` that is not an array counts as an empty one. */
  predicate Selects(row: Row, f: Json)
    decreases f, 1
  {
    match f
    case Scalar(v) => v.Null?
    case Arr(_) => false
    case Obj(fields) => forall i :: 0 <= i < |fields| ==> EntrySelects(row, fields[i])
  }

  predicate EntrySelects(row: Row, e: Field)
    decreases e, 0
  {
    if e.key == "$and" then e.value.Arr? ==> forall i :: 0 <= i < |e.value.items| ==> Selects(row, e.value.items[i])
    else if e.key == "$or" then e.value.Arr? && exists i :: 0 <= i < |e.value.items| && Selects(row, e.value.items[i])
    else if e.key == "$not" then !Selects(row, e.value)
    else FieldMatches(Get(row, e.key), e.value)
  }

  /** The filter `{field: {op: operand}}`. */
  function Single(field: string, op: string, operand: Json): Json {
    Obj([Field(field, Obj([Field(op, operand)]))])
  }

  /** What the comparison operators select, for numbers and for texts. */
  lemma ComparisonsSelect(row: Row, field: string, op: string, x: Value, y: Value)
    requires field !in {"$and", "$or", "$not"} && op in {"$gt", "$gte", "$lt", "$lte"} && Get(row, field) == x
    ensures x.Num? && y.Num? ==>
              (Selects(row, Single(field, op, Scalar(y))) <==>
                 if op == "$gt" then x.n > y.n else if op == "$gte" then x.n >= y.n
                 else if op == "$lt" then x.n < y.n else x.n <= y.n)
    ensures x.Text? && y.Text? ==>
              (Selects(row, Single(field, op, Scalar(y))) <==>
                 if op == "$gt" then TextBefore(y.s, x.s) else if op == "$gte" then x == y || TextBefore(y.s, x.s)
                 else if op == "$lt" then TextBefore(x.s, y.s) else x == y || TextBefore(x.s, y.s))
    ensures !(x.Num? && y.Num?) && !(x.Text? && y.Text?) ==> !Selects(row, Single(field, op, Scalar(y)))
  {
    SingleSelects(row, field, op, Scalar(y));
    if x.Text? && y.Text? {
      TextBeforeMeans(x.s, y.s);
      TextBeforeMeans(y.s, x.s);
    }
  }

  lemma SingleSelects(row: Row, field: string, op: string, operand: Json)
    requires field !in {"$and", "$or", "$not"} && op in FILTER_OPS
    ensures Selects(row, Single(field, op, operand)) <==> Matches(op, Get(row, field), operand)
  {
    var c := [Field(op, operand)];
    assert c[0].key in FILTER_OPS && HasOperator(c);
    var f := Single(field, op, operand);
    assert f.fields[0] == Field(field, Obj(c));
    assert Selects(row, f) <==> EntrySelects(row, f.fields[0]);
  }

  /** What equality and membership select; a missing cell equals a null. */
  lemma EqualitiesSelect(row: Row, field: string, y: Json, items: seq<Json>)
    requires field !in {"$and", "$or", "$not"}
    ensures Selects(row, Single(field, "$eq", y)) <==> y == Scalar(Get(row, field))
    ensures Selects(row, Single(field, "$ne", y)) <==> y != Scalar(Get(row, field))
    ensures Selects(row, Single(field, "$in", Arr(items))) <==> Scalar(Get(row, field)) in items
    ensures Selects(row, Single(field, "$nin", Arr(items))) <==> Scalar(Get(row, field)) !in items
  {
    SingleSelects(row, field, "$eq", y);
    SingleSelects(row, field, "$ne", y);
    SingleSelects(row, field, "$in", Arr(items));
    SingleSelects(row, field, "$nin", Arr(items));
  }

  // ---------------------------------------------------------------- SQL fragments

  datatype SqlOp = Equals | Differs | Less | AtMost | Greater | AtLeast

  datatype Sql =
    | Open | Close | Comma | AndWord | OrWord | NotWord | InWord | BetweenWord | LikeWord
    | Always | Never  // 1=1 and 1=0
    | Col(name: string) | Cmp(op: SqlOp) | Param(index: nat)

  datatype FilterError = FilterInvalid | FieldUnknown

  /** Field names of the schema and the columns they stand for. */
  type Schema = map<string, string>

  /** A translated part: its tokens, and the operands bound to its placeholders in order. */
  datatype Part = Part(tokens: seq<Sql>, params: seq<Json>)

  /** Several parts, the silent ones dropped. */
  datatype Parts = Parts(clauses: seq<seq<Sql>>, params: seq<Json>)

  type Built = Result<Part, FilterError>

  function Join(clauses: seq<seq<Sql>>, separator: Sql): seq<Sql> {
    if clauses == [] then []
    else if |clauses| == 1 then clauses[0]
    else Join(clauses[..|clauses| - 1], separator) + [separator] + clauses[|clauses| - 1]
  }

  /** Nothing for no clause, the clause itself for one, and a parenthesised list for more. */
  function Group(clauses: seq<seq<Sql>>, separator: Sql): seq<Sql> {
    if |clauses| <= 1 then Join(clauses, separator) else [Open] + Join(clauses, separator) + [Close]
  }

  function SimpleOp(op: string): Option<SqlOp> {
    if op == "$eq" then Some(Equals) else if op == "$ne" then Some(Differs)
    else if op == "$lt" then Some(Less) else if op == "$lte" then Some(AtMost)
    else if op == "$gt" then Some(Greater) else if op == "$gte" then Some(AtLeast) else None
  }

  function Placeholders(from: nat, count: nat): seq<Sql>
    decreases count
  {
    if count == 0 then []
    else if count == 1 then [Param(from)]
    else [Param(from), Comma] + Placeholders(from + 1, count - 1)
  }

  /** The pattern bound for `$contains`. */
  function LikePattern(operand: Json): Json {
    if operand.Scalar? && operand.v.Text? then Scalar(Text("%" + operand.v.s + "%")) else operand
  }

  function BuildIn(col: string, operand: Json, idx: nat, negate: bool): Built {
    if !operand.Arr? then Err(FilterInvalid)
    else if operand.items == [] then Ok(Part([if negate then Always else Never], []))
    else Ok(Part(
      [Col(col)] + (if negate then [NotWord, InWord] else [InWord]) + [Open] +
        Placeholders(idx, |operand.items|) + [Close],
      operand.items))
  }

  /** One operator of a field condition. */
  function BuildOperator(col: string, e: Field, idx: nat): Built {
    if e.key == "$in" then BuildIn(col, e.value, idx, false)
    else if e.key == "$nin" then BuildIn(col, e.value, idx, true)
    else if e.key == "$between" then
      if e.value.Arr? && |e.value.items| == 2
      then Ok(Part([Col(col), BetweenWord, Param(idx), AndWord, Param(idx + 1)], e.value.items))
      else Err(FilterInvalid)
    else if e.key == "$contains" then Ok(Part([Col(col), LikeWord, Param(idx)], [LikePattern(e.value)]))
    else match SimpleOp(e.key)
      case Some(op) => Ok(Part([Col(col), Cmp(op), Param(idx)], [e.value]))
      case None => Err(FilterInvalid)
  }

  function AddPart(ps: Parts, p: Part): Parts {
    Parts(if p.tokens == [] then ps.clauses else ps.clauses + [p.tokens], ps.params + p.params)
  }

  const NO_PARTS := Parts([], [])

  /** Adds the operators of a field condition to the clauses built so far; placeholders start at `base`. */
  function BuildOperators(col: string, es: seq<Field>, acc: Parts, base: nat): Result<Parts, FilterError> {
    if es == [] then Ok(acc)
    else match BuildOperator(col, es[0], base + |acc.params|)
      case Err(e) => Err(e)
      case Ok(p) => BuildOperators(col, es[1..], AddPart(acc, p), base)
  }

  /** `_build_field_condition`; an empty operator map comes out as an empty pair of parentheses. */
  function BuildCondition(col: string, condition: Json, idx: nat): Built {
    if !condition.Obj? then Ok(Part([Col(col), Cmp(Equals), Param(idx)], [condition]))
    else match BuildOperators(col, condition.fields, NO_PARTS, idx)
      case Err(e) => Err(e)
      case Ok(ps) =>
        Ok(Part(if |ps.clauses| == 1 then ps.clauses[0] else [Open] + Join(ps.clauses, AndWord) + [Close], ps.params))
  }

  predicate IsLogical(key: string) { key != [] && key[0] == '$' }

  function BuildObject(schema: Schema, f: Json, idx: nat): Built
    decreases f, 1
  {
    if !f.Obj? then Err(FilterInvalid)
    else match BuildEntries(schema, f.fields, NO_PARTS, idx)
      case Err(e) => Err(e)
      case Ok(ps) => Ok(Part(Group(ps.clauses, AndWord), ps.params))
  }

  function BuildEntries(schema: Schema, es: seq<Field>, acc: Parts, base: nat): Result<Parts, FilterError>
    decreases es, 0
  {
    if es == [] then Ok(acc)
    else match BuildEntry(schema, es[0], base + |acc.params|)
      case Err(e) => Err(e)
      case Ok(p) => BuildEntries(schema, es[1..], AddPart(acc, p), base)
  }

  function BuildEntry(schema: Schema, e: Field, idx: nat): Built
    decreases e, 2
  {
    if IsLogical(e.key) then BuildLogical(schema, e, idx)
    else if e.key !in schema then Err(FieldUnknown)
    else BuildCondition(schema[e.key], e.value, idx)
  }

  function BuildLogical(schema: Schema, e: Field, idx: nat): Built
    decreases e, 1
  {
    if e.key == "$not" then
      match BuildObject(schema, e.value, idx)
      case Err(x) => Err(x)
      case Ok(p) => Ok(if p.tokens == [] then p else p.(tokens := [NotWord] + p.tokens))
    else if e.key != "$and" && e.key != "$or" then Err(FilterInvalid)
    else if !e.value.Arr? then Err(FilterInvalid)
    else match BuildItems(schema, e.value.items, NO_PARTS, idx)
      case Err(x) => Err(x)
      case Ok(ps) => Ok(Part(Group(ps.clauses, if e.key == "$and" then AndWord else OrWord), ps.params))
  }

  function BuildItems(schema: Schema, items: seq<Json>, acc: Parts, base: nat): Result<Parts, FilterError>
    decreases items, 0
  {
    if items == [] then Ok(acc)
    else match BuildObject(schema, items[0], base + |acc.params|)
      case Err(e) => Err(e)
      case Ok(p) => BuildItems(schema, items[1..], AddPart(acc, p), base)
  }

  /** `translate`: no fragment for no filter. */
  function Translate(schema: Schema, f: Json): Built {
    if f == Scalar(Null) then Ok(Part([], [])) else BuildObject(schema, f, 0)
  }

  // ---------------------------------------------------------------- reading a fragment

  datatype Tri = Yes | No | Unknown

  function Truth(b: bool): Tri { if b then Yes else No }

  function TriNot(a: Tri): Tri { match a case Yes => No case No => Yes case Unknown => Unknown }

  function TriAnd(a: Tri, b: Tri): Tri {
    if a == No || b == No then No else if a == Yes && b == Yes then Yes else Unknown
  }

  function TriOr(a: Tri, b: Tri): Tri {
    if a == Yes || b == Yes then Yes else if a == No && b == No then No else Unknown
  }

  /** Numbers sort before text, as in SQLite. */
  predicate SqlBelow(a: Value, b: Value) {
    match (a, b)
    case (Num(x), Num(y)) => x < y
    case (Text(x), Text(y)) => !Leq(y, x)
    case (Num(_), Text(_)) => true
    case _ => false
  }

  function SqlCompare(op: SqlOp, a: Value, b: Value): Tri {
    if a.Null? || b.Null? then Unknown
    else Truth(match op
      case Equals => a == b
      case Differs => a != b
      case Less => SqlBelow(a, b)
      case AtMost => !SqlBelow(b, a)
      case Greater => SqlBelow(b, a)
      case AtLeast => !SqlBelow(a, b))
  }

  /** What a fragment is evaluated over: the cells of the row by column, the bound operands, and LIKE. */
  datatype Scope = Scope(cell: string -> Value, bind: seq<Json>, like: (Value, Value) -> Tri)

  type Read<T> = Option<(T, nat)>

  /** Only scalars can be bound. */
  function ReadParam(s: Scope, ts: seq<Sql>, p: nat): Read<Value> {
    if p < |ts| && ts[p].Param? && ts[p].index < |s.bind| && s.bind[ts[p].index].Scalar?
    then Some((s.bind[ts[p].index].v, p + 1)) else None
  }

  /** The rest of a parenthesised list of placeholders; yields membership of `a`. */
  function ReadList(s: Scope, ts: seq<Sql>, p: nat, a: Value, acc: Tri): (r: Read<Tri>)
    ensures r.Some? ==> p < r.value.1 <= |ts|
    decreases |ts| - p
  {
    match ReadParam(s, ts, p)
    case None => None
    case Some((b, q)) =>
      var found := TriOr(acc, SqlCompare(Equals, a, b));
      if q < |ts| && ts[q] == Comma then ReadList(s, ts, q + 1, a, found)
      else if q < |ts| && ts[q] == Close then Some((found, q + 1))
      else None
  }

  function ReadIn(s: Scope, ts: seq<Sql>, p: nat, a: Value): (r: Read<Tri>)
    ensures r.Some? ==> p < r.value.1 <= |ts|
  {
    if p < |ts| && ts[p] == Open then ReadList(s, ts, p + 1, a, No) else None
  }

  /** A predicate on column value `a`, after the column name. */
  function ReadPredicate(s: Scope, ts: seq<Sql>, p: nat, a: Value): (r: Read<Tri>)
    ensures r.Some? ==> p < r.value.1 <= |ts|
  {
    if p >= |ts| then None
    else match ts[p]
      case Cmp(op) =>
        (match ReadParam(s, ts, p + 1) case None => None case Some((b, q)) => Some((SqlCompare(op, a, b), q)))
      case LikeWord =>
        (match ReadParam(s, ts, p + 1) case None => None case Some((b, q)) => Some((s.like(a, b), q)))
      case InWord => ReadIn(s, ts, p + 1, a)
      case NotWord =>
        if p + 1 < |ts| && ts[p + 1] == InWord then
          (match ReadIn(s, ts, p + 2, a) case None => None case Some((v, q)) => Some((TriNot(v), q)))
        else None
      case BetweenWord =>
        (match ReadParam(s, ts, p + 1)
         case None => None
         case Some((low, q)) =>
           if q < |ts| && ts[q] == AndWord then
             match ReadParam(s, ts, q + 1)
             case None => None
             case Some((high, r)) => Some((TriAnd(SqlCompare(AtLeast, a, low), SqlCompare(AtMost, a, high)), r))
           else None)
      case _ => None
  }

  function ReadOr(s: Scope, ts: seq<Sql>, p: nat): (r: Read<Tri>)
    ensures r.Some? ==> p < r.value.1 <= |ts|
    decreases |ts| - p, 4
  {
    match ReadAnd(s, ts, p)
    case None => None
    case Some((v, q)) => OrMore(s, ts, v, q)
  }

  function OrMore(s: Scope, ts: seq<Sql>, acc: Tri, p: nat): (r: Read<Tri>)
    requires p <= |ts|
    ensures r.Some? ==> p <= r.value.1 <= |ts|
    decreases |ts| - p, 5
  {
    if p == |ts| || ts[p] != OrWord then Some((acc, p))
    else match ReadAnd(s, ts, p + 1)
      case None => None
      case Some((v, q)) => OrMore(s, ts, TriOr(acc, v), q)
  }

  function ReadAnd(s: Scope, ts: seq<Sql>, p: nat): (r: Read<Tri>)
    ensures r.Some? ==> p < r.value.1 <= |ts|
    decreases |ts| - p, 3
  {
    match ReadNot(s, ts, p)
    case None => None
    case Some((v, q)) => AndMore(s, ts, v, q)
  }

  function AndMore(s: Scope, ts: seq<Sql>, acc: Tri, p: nat): (r: Read<Tri>)
    requires p <= |ts|
    ensures r.Some? ==> p <= r.value.1 <= |ts|
    decreases |ts| - p, 5
  {
    if p == |ts| || ts[p] != AndWord then Some((acc, p))
    else match ReadNot(s, ts, p + 1)
      case None => None
      case Some((v, q)) => AndMore(s, ts, TriAnd(acc, v), q)
  }

  function ReadNot(s: Scope, ts: seq<Sql>, p: nat): (r: Read<Tri>)
    ensures r.Some? ==> p < r.value.1 <= |ts|
    decreases |ts| - p, 2
  {
    if p < |ts| && ts[p] == NotWord then
      match ReadNot(s, ts, p + 1)
      case None => None
      case Some((v, q)) => Some((TriNot(v), q))
    else ReadPrimary(s, ts, p)
  }

  function ReadPrimary(s: Scope, ts: seq<Sql>, p: nat): (r: Read<Tri>)
    ensures r.Some? ==> p < r.value.1 <= |ts|
    decreases |ts| - p, 1
  {
    if p >= |ts| then None
    else match ts[p]
      case Open =>
        (match ReadOr(s, ts, p + 1)
         case None => None
         case Some((v, q)) => if q < |ts| && ts[q] == Close then Some((v, q + 1)) else None)
      case Always => Some((Yes, p + 1))
      case Never => Some((No, p + 1))
      case Col(name) => ReadPredicate(s, ts, p + 1, s.cell(name))
      case _ => None
  }

  /** The database keeps a row when the WHERE fragment reads to its end as true; no fragment keeps every row. */
  predicate Keeps(s: Scope, ts: seq<Sql>) {
    ts == [] || ReadOr(s, ts, 0) == Some((Yes, |ts|))
  }
}
