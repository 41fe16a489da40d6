/**
 What a condition means. Conditions are syntax trees with a denotation; a tree is written out with the fewest
 parentheses its precedences allow. The parser computes the denotation of every tree except those that compare a
 boolean literal on the left, and never consumes the tokens of such a tree completely.
 */
module ConditionMeaning {
  import opened Common
  import opened Condition

  datatype Operand = PathRef(raw: string) | NumberLit(raw: string) | TextLit(text: string) | BoolLit(b: bool) | NullLit

  datatype Cond =
    | Or(left: Cond, right: Cond)
    | And(left: Cond, right: Cond)
    | Not(inner: Cond)
    | Compare(lhs: Operand, op: Kind, rhs: Operand)
    | Test(operand: Operand)

  // ---------------------------------------------------------------- denotation

  function OperandValue(o: Operand, env: Env): Result<Value, CondError> {
    match o
    case PathRef(raw) => env(raw)
    case NumberLit(raw) => (match NumberValue(raw) case Some(r) => Ok(Num(r)) case None => Err(CondError))
    case TextLit(s) => Ok(Text(s))
    case BoolLit(b) => Ok(Bool(b))
    case NullLit => Ok(Nil)
  }

  /** Both sides of a connective are always evaluated, so an error anywhere is an error of the whole. */
  function Denote(c: Cond, env: Env): Result<bool, CondError> {
    match c
    case Or(l, r) =>
      (match Denote(l, env)
       case Err(e) => Err(e)
       case Ok(a) => match Denote(r, env) case Err(e) => Err(e) case Ok(b) => Ok(a || b))
    case And(l, r) =>
      (match Denote(l, env)
       case Err(e) => Err(e)
       case Ok(a) => match Denote(r, env) case Err(e) => Err(e) case Ok(b) => Ok(a && b))
    case Not(x) => (match Denote(x, env) case Err(e) => Err(e) case Ok(a) => Ok(!a))
    case Compare(l, op, r) =>
      (match OperandValue(l, env)
       case Err(e) => Err(e)
       case Ok(a) => match OperandValue(r, env) case Err(e) => Err(e) case Ok(b) => Ok(Compared(a, op, b)))
    case Test(o) => (match OperandValue(o, env) case Err(e) => Err(e) case Ok(v) => Ok(Truthy(v)))
  }

  /** Some comparison has a boolean literal on its left. */
  predicate ComparesLiteral(c: Cond) {
    match c
    case Or(l, r) => ComparesLiteral(l) || ComparesLiteral(r)
    case And(l, r) => ComparesLiteral(l) || ComparesLiteral(r)
    case Not(x) => ComparesLiteral(x)
    case Compare(l, _, _) => l.BoolLit?
    case Test(_) => false
  }

  predicate OpsAreComparisons(c: Cond) {
    match c
    case Or(l, r) => OpsAreComparisons(l) && OpsAreComparisons(r)
    case And(l, r) => OpsAreComparisons(l) && OpsAreComparisons(r)
    case Not(x) => OpsAreComparisons(x)
    case Compare(_, op, _) => IsComparison(op)
    case Test(_) => true
  }

  // ---------------------------------------------------------------- writing a condition out

  function OperandToken(o: Operand): Token {
    match o
    case PathRef(raw) => Token(PathTok, raw)
    case NumberLit(raw) => Token(NumberTok, raw)
    case TextLit(s) => Token(StringTok, s)
    case BoolLit(b) => if b then Token(TrueTok, "true") else Token(FalseTok, "false")
    case NullLit => Token(NullTok, "null")
  }

  function OpText(k: Kind): string {
    match k
    case Gt => ">" case Gte => ">=" case Lt => "<" case Lte => "<=" case Eq => "==" case Neq => "!="
    case AndTok => "&&" case OrTok => "||" case NotTok => "!" case LParen => "(" case RParen => ")"
    case _ => ""
  }

  function Op(k: Kind): Token { Token(k, OpText(k)) }

  function OrTokens(c: Cond): seq<Token>
    decreases c, if c.Or? then 0 else if c.And? then 1 else 2
  {
    if c.Or? then OrTokens(c.left) + [Op(OrTok)] + AndTokens(c.right) else AndTokens(c)
  }

  function AndTokens(c: Cond): seq<Token>
    decreases c, if c.Or? then 2 else if c.And? then 0 else 1
  {
    if c.And? then AndTokens(c.left) + [Op(AndTok)] + NotTokens(c.right) else NotTokens(c)
  }

  function NotTokens(c: Cond): seq<Token>
    decreases c, if c.Or? then 1 else if c.And? then 2 else 0
  {
    match c
    case Not(x) => [Op(NotTok)] + NotTokens(x)
    case Compare(l, op, r) => [OperandToken(l), Op(op), OperandToken(r)]
    case Test(o) => [OperandToken(o)]
    case _ => [Op(LParen)] + OrTokens(c) + [Op(RParen)]
  }

  // ---------------------------------------------------------------- reading it back

  /** `seg` is what stands between `p` and `end`, and at least one token follows. */
  ghost predicate Spans(ts: seq<Token>, p: nat, end: nat, seg: seq<Token>) {
    p < end < |ts| && ts[p..end] == seg
  }

  lemma SplitSpan(ts: seq<Token>, p: nat, end: nat, a: seq<Token>, t: Token, b: seq<Token>) returns (q: nat)
    requires p < end < |ts| && ts[p..end] == a + [t] + b
    ensures q == p + |a| && p <= q < end && ts[p..q] == a && ts[q] == t && ts[q + 1..end] == b
  {
    q := p + |a|;
    var seg := ts[p..end];
    assert seg[..|a|] == a && seg[|a|] == t && seg[|a| + 1..] == b;
    assert ts[p..q] == seg[..|a|] && ts[q + 1..end] == seg[|a| + 1..];
  }

  /** The value and end position a parse that reads exactly `c` yields, or its error. */
  function Reading(c: Cond, env: Env, end: nat): Parsed<bool> {
    match Denote(c, env)
    case Ok(b) => Ok((b, end))
    case Err(e) => Err(e)
  }

  predicate StopsOperand(t: Token) { !IsComparison(t.kind) }

  lemma OperandReads(ts: seq<Token>, p: nat, o: Operand, env: Env)
    requires Terminated(ts) && p + 1 < |ts| && ts[p] == OperandToken(o)
    ensures ParseValue(ts, p, env) == Located(OperandValue(o, env), p + 1)
  {}

  lemma CompareStep(ts: seq<Token>, p: nat, l: Operand, op: Kind, r: Operand, env: Env)
    requires Terminated(ts) && p + 3 < |ts|
    requires ts[p] == OperandToken(l) && ts[p + 1].kind == op && ts[p + 2] == OperandToken(r)
    requires IsComparison(op) && !l.BoolLit?
    ensures ParseComparison(ts, p, env) == Reading(Compare(l, op, r), env, p + 3)
  {
    LeadingKind(l);
    OperandReads(ts, p, l, env);
    OperandReads(ts, p + 2, r, env);
    ComparisonFrom(ts, p, env, OperandValue(l, env), OperandValue(r, env));
    CompareDenotes(l, op, r, env, p + 3);
  }

  lemma LeadingKind(o: Operand)
    requires !o.BoolLit?
    ensures OperandToken(o).kind !in {LParen, TrueTok, FalseTok}
  {}

  lemma CompareDenotes(l: Operand, op: Kind, r: Operand, env: Env, end: nat)
    ensures var a, b := OperandValue(l, env), OperandValue(r, env);
            Reading(Compare(l, op, r), env, end) == Comparing(a, op, b, end)
  {}

  /** The outcome of comparing two operand values, and the position after them. */
  function Comparing(a: Result<Value, CondError>, op: Kind, b: Result<Value, CondError>, end: nat): Parsed<bool> {
    if a.Err? then Err(a.error) else if b.Err? then Err(b.error) else Ok((Compared(a.value, op, b.value), end))
  }

  /** An operand's value together with the position after it. */
  function Located<V>(v: Result<V, CondError>, q: nat): Parsed<V> {
    match v case Ok(x) => Ok((x, q)) case Err(e) => Err(e)
  }

  lemma ComparisonFrom(ts: seq<Token>, p: nat, env: Env, a: Result<Value, CondError>, b: Result<Value, CondError>)
    requires Terminated(ts) && p + 3 < |ts| && IsComparison(ts[p + 1].kind)
    requires ts[p].kind !in {LParen, TrueTok, FalseTok}
    requires ParseValue(ts, p, env) == Located(a, p + 1) && ParseValue(ts, p + 2, env) == Located(b, p + 3)
    ensures ParseComparison(ts, p, env) == Comparing(a, ts[p + 1].kind, b, p + 3)
  {}

  lemma CompareReads(ts: seq<Token>, p: nat, end: nat, c: Cond, env: Env)
    requires c.Compare? && Terminated(ts) && Spans(ts, p, end, NotTokens(c))
    requires IsComparison(c.op) && !c.lhs.BoolLit?
    ensures ParseNot(ts, p, env) == Reading(c, env, end)
  {
    var seg := ts[p..end];
    assert seg == [OperandToken(c.lhs), Op(c.op), OperandToken(c.rhs)];
    assert end == p + 3 && seg[0] == ts[p] && seg[1] == ts[p + 1] && seg[2] == ts[p + 2];
    CompareStep(ts, p, c.lhs, c.op, c.rhs, env);
  }

  lemma TestReads(ts: seq<Token>, p: nat, end: nat, c: Cond, env: Env)
    requires c.Test? && Terminated(ts) && Spans(ts, p, end, NotTokens(c)) && StopsOperand(ts[end])
    ensures ParseNot(ts, p, env) == Reading(c, env, end)
  {
    assert end == p + 1 && ts[p..end][0] == ts[p];
    OperandReads(ts, p, c.operand, env);
  }

  /** What follows a read operand: the tail loops take over with its value. */
  function ThenAnd(ts: seq<Token>, d: Result<bool, CondError>, p: nat, env: Env): Parsed<bool>
    requires Terminated(ts) && p < |ts|
  {
    match d
    case Ok(b) => AndTail(ts, b, p, env)
    case Err(e) => Err(e)
  }

  function ThenOr(ts: seq<Token>, d: Result<bool, CondError>, p: nat, env: Env): Parsed<bool>
    requires Terminated(ts) && p < |ts|
  {
    match d
    case Ok(b) => OrTail(ts, b, p, env)
    case Err(e) => Err(e)
  }

  lemma AndTailStep(ts: seq<Token>, l: Cond, r: Cond, q: nat, end: nat, env: Env)
    requires Terminated(ts) && q + 1 < end < |ts| && ts[q].kind == AndTok
    requires ParseNot(ts, q + 1, env) == Reading(r, env, end)
    ensures ThenAnd(ts, Denote(l, env), q, env) == ThenAnd(ts, Denote(And(l, r), env), end, env)
  {}

  lemma OrTailStep(ts: seq<Token>, l: Cond, r: Cond, q: nat, end: nat, env: Env)
    requires Terminated(ts) && q + 1 < end < |ts| && ts[q].kind == OrTok && ts[end].kind != AndTok
    requires ParseAnd(ts, q + 1, env) == ThenAnd(ts, Denote(r, env), end, env)
    ensures ThenOr(ts, Denote(l, env), q, env) == ThenOr(ts, Denote(Or(l, r), env), end, env)
  {}

  lemma ParenStep(ts: seq<Token>, c: Cond, p: nat, end: nat, env: Env)
    requires Terminated(ts) && p + 1 < end < |ts| - 1 && ts[p].kind == LParen && ts[end].kind == RParen
    requires ParseOr(ts, p + 1, env) == ThenOr(ts, Denote(c, env), end, env)
    ensures ParseNot(ts, p, env) == Reading(c, env, end + 1)
  {}

  lemma NotStep(ts: seq<Token>, c: Cond, p: nat, end: nat, env: Env)
    requires Terminated(ts) && p + 1 < end < |ts| && ts[p].kind == NotTok
    requires ParseNot(ts, p + 1, env) == Reading(c, env, end)
    ensures ParseNot(ts, p, env) == Reading(Not(c), env, end)
  {}

  predicate Readable(c: Cond) { OpsAreComparisons(c) && !ComparesLiteral(c) }

  lemma {:induction false} TokensExist(c: Cond)
    ensures NotTokens(c) != [] && AndTokens(c) != [] && OrTokens(c) != []
  {
    if c.Or? { TokensExist(c.right); }
    if c.And? { TokensExist(c.right); }
  }

  lemma {:induction false} NotReads(ts: seq<Token>, p: nat, end: nat, c: Cond, env: Env)
    requires Terminated(ts) && Spans(ts, p, end, NotTokens(c)) && StopsOperand(ts[end]) && Readable(c)
    ensures ParseNot(ts, p, env) == Reading(c, env, end)
    decreases c, if c.Or? then 1 else if c.And? then 2 else 0
  {
    match c
    case Not(x) =>
      assert NotTokens(c) == [] + [Op(NotTok)] + NotTokens(x);
      var q := SplitSpan(ts, p, end, [], Op(NotTok), NotTokens(x));
      TokensExist(x);
      NotReads(ts, p + 1, end, x, env);
      NotStep(ts, x, p, end, env);
    case Compare(_, _, _) => CompareReads(ts, p, end, c, env);
    case Test(_) => TestReads(ts, p, end, c, env);
    case _ => ParenReads(ts, p, end, c, env);
  }

  lemma {:induction false} ParenReads(ts: seq<Token>, p: nat, end: nat, c: Cond, env: Env)
    requires c.Or? || c.And?
    requires Terminated(ts) && Spans(ts, p, end, NotTokens(c)) && Readable(c)
    ensures ParseNot(ts, p, env) == Reading(c, env, end)
    decreases c, if c.Or? then 1 else 2, 0
  {
    var inner := OrTokens(c);
    TokensExist(c);
    assert NotTokens(c) == ([Op(LParen)] + inner) + [Op(RParen)] + [];
    var close := SplitSpan(ts, p, end, [Op(LParen)] + inner, Op(RParen), []);
    assert ts[p..close] == [] + [Op(LParen)] + inner;
    var open := SplitSpan(ts, p, close, [], Op(LParen), inner);
    OrReads(ts, p + 1, close, c, env);
    ParenStep(ts, c, p, close, env);
  }

  lemma {:induction false} AndReads(ts: seq<Token>, p: nat, end: nat, c: Cond, env: Env)
    requires Terminated(ts) && Spans(ts, p, end, AndTokens(c)) && StopsOperand(ts[end]) && Readable(c)
    ensures ParseAnd(ts, p, env) == ThenAnd(ts, Denote(c, env), end, env)
    decreases c, if c.Or? then 2 else if c.And? then 0 else 1
  {
    if c.And? {
      TokensExist(c.left);
      TokensExist(c.right);
      var q := SplitSpan(ts, p, end, AndTokens(c.left), Op(AndTok), NotTokens(c.right));
      AndReads(ts, p, q, c.left, env);
      NotReads(ts, q + 1, end, c.right, env);
      AndTailStep(ts, c.left, c.right, q, end, env);
    } else {
      NotReads(ts, p, end, c, env);
    }
  }

  lemma {:induction false} OrReads(ts: seq<Token>, p: nat, end: nat, c: Cond, env: Env)
    requires Terminated(ts) && Spans(ts, p, end, OrTokens(c)) && StopsOperand(ts[end]) && ts[end].kind != AndTok
    requires Readable(c)
    ensures ParseOr(ts, p, env) == ThenOr(ts, Denote(c, env), end, env)
    decreases c, if c.Or? then 0 else if c.And? then 1 else 2
  {
    if c.Or? {
      TokensExist(c.left);
      TokensExist(c.right);
      var q := SplitSpan(ts, p, end, OrTokens(c.left), Op(OrTok), AndTokens(c.right));
      OrReads(ts, p, q, c.left, env);
      AndReads(ts, q + 1, end, c.right, env);
      OrTailStep(ts, c.left, c.right, q, end, env);
    } else {
      AndReads(ts, p, end, c, env);
    }
  }

  // ---------------------------------------------------------------- literals compared on the left

  /** The parse failed, or it stopped in front of a comparison operator. */
  ghost predicate Halts(ts: seq<Token>, r: Parsed<bool>) {
    r.Ok? ==> r.value.1 < |ts| && IsComparison(ts[r.value.1].kind)
  }

  lemma AndTailHalts(ts: seq<Token>, acc: bool, q: nat, env: Env)
    requires Terminated(ts) && q + 1 < |ts| && ts[q].kind == AndTok && Halts(ts, ParseNot(ts, q + 1, env))
    ensures Halts(ts, AndTail(ts, acc, q, env))
  {}

  lemma OrTailHalts(ts: seq<Token>, acc: bool, q: nat, env: Env)
    requires Terminated(ts) && q + 1 < |ts| && ts[q].kind == OrTok && Halts(ts, ParseAnd(ts, q + 1, env))
    ensures Halts(ts, OrTail(ts, acc, q, env))
  {}

  lemma {:induction false} NotHalts(ts: seq<Token>, p: nat, end: nat, c: Cond, env: Env)
    requires Terminated(ts) && Spans(ts, p, end, NotTokens(c)) && OpsAreComparisons(c) && ComparesLiteral(c)
    ensures Halts(ts, ParseNot(ts, p, env))
    decreases c, if c.Or? then 1 else if c.And? then 2 else 0
  {
    match c
    case Not(x) =>
      assert NotTokens(c) == [] + [Op(NotTok)] + NotTokens(x);
      var q := SplitSpan(ts, p, end, [], Op(NotTok), NotTokens(x));
      TokensExist(x);
      NotHalts(ts, p + 1, end, x, env);
    case Compare(_, _, _) =>
      var seg := ts[p..end];
      assert seg == [OperandToken(c.lhs), Op(c.op), OperandToken(c.rhs)];
      assert seg[0] == ts[p] && seg[1] == ts[p + 1];
    case _ => ParenHalts(ts, p, end, c, env);
  }

  lemma {:induction false} ParenHalts(ts: seq<Token>, p: nat, end: nat, c: Cond, env: Env)
    requires c.Or? || c.And?
    requires Terminated(ts) && Spans(ts, p, end, NotTokens(c)) && OpsAreComparisons(c) && ComparesLiteral(c)
    ensures Halts(ts, ParseNot(ts, p, env))
    decreases c, if c.Or? then 1 else 2, 0
  {
    var inner := OrTokens(c);
    TokensExist(c);
    assert NotTokens(c) == ([Op(LParen)] + inner) + [Op(RParen)] + [];
    var close := SplitSpan(ts, p, end, [Op(LParen)] + inner, Op(RParen), []);
    assert ts[p..close] == [] + [Op(LParen)] + inner;
    var open := SplitSpan(ts, p, close, [], Op(LParen), inner);
    OrHalts(ts, p + 1, close, c, env);
  }

  lemma {:induction false} AndHalts(ts: seq<Token>, p: nat, end: nat, c: Cond, env: Env)
    requires Terminated(ts) && Spans(ts, p, end, AndTokens(c)) && OpsAreComparisons(c) && ComparesLiteral(c)
    ensures Halts(ts, ParseAnd(ts, p, env))
    decreases c, if c.Or? then 2 else if c.And? then 0 else 1
  {
    if c.And? {
      TokensExist(c.left);
      TokensExist(c.right);
      var q := SplitSpan(ts, p, end, AndTokens(c.left), Op(AndTok), NotTokens(c.right));
      if ComparesLiteral(c.left) {
        AndHalts(ts, p, q, c.left, env);
      } else {
        AndReads(ts, p, q, c.left, env);
        NotHalts(ts, q + 1, end, c.right, env);
        if Denote(c.left, env).Ok? { AndTailHalts(ts, Denote(c.left, env).value, q, env); }
      }
    } else {
      NotHalts(ts, p, end, c, env);
    }
  }

  lemma {:induction false} OrHalts(ts: seq<Token>, p: nat, end: nat, c: Cond, env: Env)
    requires Terminated(ts) && Spans(ts, p, end, OrTokens(c)) && OpsAreComparisons(c) && ComparesLiteral(c)
    ensures Halts(ts, ParseOr(ts, p, env))
    decreases c, if c.Or? then 0 else if c.And? then 1 else 2
  {
    if c.Or? {
      TokensExist(c.left);
      TokensExist(c.right);
      var q := SplitSpan(ts, p, end, OrTokens(c.left), Op(OrTok), AndTokens(c.right));
      if ComparesLiteral(c.left) {
        OrHalts(ts, p, q, c.left, env);
      } else {
        OrReads(ts, p, q, c.left, env);
        AndHalts(ts, q + 1, end, c.right, env);
        if Denote(c.left, env).Ok? { OrTailHalts(ts, Denote(c.left, env).value, q, env); }
      }
    } else {
      AndHalts(ts, p, end, c, env);
    }
  }

  ghost predicate NoEnd(ts: seq<Token>) { forall i :: 0 <= i < |ts| ==> ts[i].kind != Eof }

  lemma {:induction false} TokensHaveNoEnd(c: Cond)
    requires OpsAreComparisons(c)
    ensures NoEnd(NotTokens(c)) && NoEnd(AndTokens(c)) && NoEnd(OrTokens(c))
  {
    match c
    case Or(l, r) =>
      TokensHaveNoEnd(l);
      TokensHaveNoEnd(r);
      JoinHasNoEnd(OrTokens(l), OrTok, AndTokens(r));
      WrapHasNoEnd(OrTokens(c));
    case And(l, r) =>
      TokensHaveNoEnd(l);
      TokensHaveNoEnd(r);
      JoinHasNoEnd(AndTokens(l), AndTok, NotTokens(r));
      WrapHasNoEnd(AndTokens(c));
    case Not(x) => TokensHaveNoEnd(x);
    case Compare(_, _, _) =>
    case Test(_) =>
  }

  lemma WrapHasNoEnd(inner: seq<Token>)
    requires NoEnd(inner)
    ensures NoEnd([Op(LParen)] + inner + [Op(RParen)])
  {}

  lemma JoinHasNoEnd(a: seq<Token>, k: Kind, b: seq<Token>)
    requires NoEnd(a) && NoEnd(b) && k != Eof
    ensures NoEnd(a + [Op(k)] + b)
  {}

  /**
   Exactly the conditions without a boolean literal on the left of a comparison are read to the end, with `&&` above
   `||` and `!` above a whole comparison, and yield their denotation; for the others a parse that succeeds
   stops short of the end.
   */
  lemma ParserComputesDenotation(c: Cond, env: Env)
    requires OpsAreComparisons(c)
    ensures var ts := OrTokens(c) + [EOF];
            && Terminated(ts)
            && (!ComparesLiteral(c) ==> ParseOr(ts, 0, env) == Reading(c, env, |ts| - 1))
            && (ComparesLiteral(c) ==> ParseOr(ts, 0, env).Ok? ==> ParseOr(ts, 0, env).value.1 < |ts| - 1)
  {
    var ts := OrTokens(c) + [EOF];
    TokensHaveNoEnd(c);
    TokensExist(c);
    assert Spans(ts, 0, |ts| - 1, OrTokens(c));
    if ComparesLiteral(c) {
      OrHalts(ts, 0, |ts| - 1, c, env);
    } else {
      OrReads(ts, 0, |ts| - 1, c, env);
    }
  }
}
