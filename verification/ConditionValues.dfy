/** What comparisons and bare operands of a condition text mean, by the values they are about. */
module ConditionValues {
  import opened Common
  import opened Condition
  import opened ConditionMeaning
  import opened ConditionText
  import opened Decimals

  /** The text `l op r`, with the given gaps between its tokens. */
  ghost function ComparisonText(l: Operand, op: Kind, r: Operand, gaps: seq<string>): string
    requires |gaps| >= 3
  {
    Written([OperandToken(l), Op(op), OperandToken(r)], gaps)
  }

  /** The two operands can be written, and have these values. */
  ghost predicate Compares(l: Operand, r: Operand, gaps: seq<string>, env: Env, a: Value, b: Value) {
    && !l.BoolLit? && OperandSpellable(l) && OperandSpellable(r) && |gaps| >= 3 && Gaps(gaps)
    && OperandValue(l, env) == Ok(a) && OperandValue(r, env) == Ok(b)
  }

  lemma ComparisonIsEvaluated(
    l: Operand, op: Kind, r: Operand, gaps: seq<string>, env: Env, a: Value, b: Value)
    requires Compares(l, r, gaps, env, a, b) && IsComparison(op)
    ensures Evaluate(ComparisonText(l, op, r, gaps), env) == Ok(Compared(a, op, b))
  {
    CompareTokens(Compare(l, op, r));
    EvaluateWritten(Compare(l, op, r), gaps, env);
  }

  lemma TextsCompared(x: string, y: string)
    ensures Compared(Text(x), Gt, Text(y)) <==> TextBefore(y, x)
    ensures Compared(Text(x), Gte, Text(y)) <==> x == y || TextBefore(y, x)
    ensures Compared(Text(x), Lt, Text(y)) <==> TextBefore(x, y)
    ensures Compared(Text(x), Lte, Text(y)) <==> x == y || TextBefore(x, y)
  {
    LeqMeans(x, y);
    LeqMeans(y, x);
    TextBeforeMeans(x, y);
    TextBeforeMeans(y, x);
  }

  /** Numbers are compared as numbers. */
  lemma NumbersCompare(l: Operand, op: Kind, r: Operand, gaps: seq<string>, env: Env, x: real, y: real)
    requires Compares(l, r, gaps, env, Num(x), Num(y)) && IsComparison(op)
    ensures Evaluate(ComparisonText(l, op, r, gaps), env) ==
            Ok(if op == Gt then x > y else if op == Gte then x >= y
               else if op == Lt then x < y else if op == Lte then x <= y
               else if op == Eq then x == y else x != y)
  {
    ComparisonIsEvaluated(l, op, r, gaps, env, Num(x), Num(y));
  }

  /** Texts are compared by the first code point that differs, a proper prefix being smaller. */
  lemma TextsCompare(l: Operand, op: Kind, r: Operand, gaps: seq<string>, env: Env, x: string, y: string)
    requires Compares(l, r, gaps, env, Text(x), Text(y)) && IsComparison(op)
    ensures Evaluate(ComparisonText(l, op, r, gaps), env) ==
            Ok(if op == Gt then TextBefore(y, x) else if op == Gte then x == y || TextBefore(y, x)
               else if op == Lt then TextBefore(x, y) else if op == Lte then x == y || TextBefore(x, y)
               else if op == Eq then x == y else x != y)
  {
    ComparisonIsEvaluated(l, op, r, gaps, env, Text(x), Text(y));
    TextsCompared(x, y);
  }

  /** No other two values are ordered either way. */
  lemma OthersDoNotCompare(l: Operand, op: Kind, r: Operand, gaps: seq<string>, env: Env, a: Value, b: Value)
    requires Compares(l, r, gaps, env, a, b) && op in {Gt, Gte, Lt, Lte}
    requires !(a.Num? && b.Num?) && !(a.Text? && b.Text?)
    ensures Evaluate(ComparisonText(l, op, r, gaps), env) == Ok(false)
  {
    ComparisonIsEvaluated(l, op, r, gaps, env, a, b);
  }

  /** A comparison whose operand has no value is an error. */
  lemma ErrorsSpread(l: Operand, op: Kind, r: Operand, gaps: seq<string>, env: Env)
    requires !l.BoolLit? && OperandSpellable(l) && OperandSpellable(r) && |gaps| >= 3 && Gaps(gaps) && IsComparison(op)
    requires OperandValue(l, env).Err? || OperandValue(r, env).Err?
    ensures Evaluate(ComparisonText(l, op, r, gaps), env).Err?
  {
    CompareTokens(Compare(l, op, r));
    EvaluateWritten(Compare(l, op, r), gaps, env);
  }

  /** A bare operand holds unless it is false, zero, the empty text or null. */
  lemma OperandHolds(o: Operand, gaps: seq<string>, env: Env, v: Value)
    requires OperandSpellable(o) && |gaps| >= 1 && Gaps(gaps) && OperandValue(o, env) == Ok(v)
    ensures Evaluate(Written([OperandToken(o)], gaps), env) ==
            Ok(v != Bool(false) && v != Num(0.0) && v != Text("") && v != Nil)
  {
    TestTokens(o);
    EvaluateWritten(Test(o), gaps, env);
    TruthyMeans(v);
  }

  lemma TestTokens(o: Operand)
    ensures OrTokens(Test(o)) == [OperandToken(o)]
  {
    assert AndTokens(Test(o)) == NotTokens(Test(o)) && OrTokens(Test(o)) == AndTokens(Test(o));
  }

  lemma TruthyMeans(v: Value)
    ensures Truthy(v) <==> v != Bool(false) && v != Num(0.0) && v != Text("") && v != Nil
  {}

  /** A condition of white space alone always holds. */
  lemma BlankHolds(condition: string, env: Env)
    requires forall c :: c in condition ==> IsSpace(c)
    ensures Evaluate(condition, env) == Ok(true)
  {}

  // ---------------------------------------------------------------- number literals

  lemma {:induction false} DigitsRead(s: string)
    requires Numeral(s)
    ensures Digits(s) == ParseNat(s)
  {
    if s != "" { DigitsRead(s[..|s| - 1]); }
  }

  lemma {:induction false} ScansDigits(s: string, i: nat, j: nat)
    requires i <= j <= |s| && (forall k :: i <= k < j ==> IsDigit(s[k])) && (j < |s| ==> s[j] == '.')
    ensures Scan(s, i, WordChars) == j
    decreases j - i
  {
    if i < j { ScansDigits(s, i + 1, j); }
  }

  /** `n` with `k` zeros after it. */
  function Shifted(n: nat, k: nat): nat { if k == 0 then n else 10 * Shifted(n, k - 1) }

  lemma {:induction false} ParseAppend(a: string, b: string)
    requires Numeral(a) && Numeral(b)
    ensures Numeral(a + b) && ParseNat(a + b) == Shifted(ParseNat(a), |b|) + ParseNat(b)
    decreases |b|
  {
    if b == "" {
      assert a + b == a;
    } else {
      var c := b[..|b| - 1];
      ParseAppend(a, c);
      assert (a + b)[..|a + b| - 1] == a + c;
    }
  }

  lemma {:induction false} ShiftScales(n: nat, k: nat)
    ensures Shifted(n, k) as real == n as real * PowerOfTen(k)
    decreases k
  {
    if k > 0 {
      ShiftScales(n, k - 1);
      TenTimes(n as real, PowerOfTen(k - 1));
    }
  }

  lemma TenTimes(a: real, t: real)
    ensures 10.0 * (a * t) == a * (10.0 * t)
  {}

  predicate Numeral(s: string) { forall i :: 0 <= i < |s| ==> IsDigit(s[i]) }

  lemma Shares(a: real, t: real, p: real, n: real)
    requires t > 0.0 && n == a * t + p
    ensures n / t == a + p / t
  {}

  /** The number spelled by digits before and after the point. */
  function Spelled(whole: string, part: string): real
    requires Numeral(whole) && Numeral(part)
  {
    ParseNat(whole) as real + ParseNat(part) as real / PowerOfTen(|part|)
  }

  lemma WholeReads(whole: string)
    requires Numeral(whole)
    ensures Decimal(whole) == Some(ParseNat(whole) as real) && Spelled(whole, "") == ParseNat(whole) as real
  {
    DigitsRead(whole);
    ScansDigits(whole, 0, |whole|);
  }

  lemma PointedReads(whole: string, part: string, raw: string)
    requires Numeral(whole) && Numeral(part) && raw == whole + "." + part
    ensures Decimal(raw) == Some(Spelled(whole, part))
  {
    PointedDigits(whole, part, raw);
    ParseAppend(whole, part);
    Splits(ParseNat(whole), ParseNat(part), ParseNat(whole + part), |part|);
  }

  lemma Splits(w: nat, p: nat, all: nat, k: nat)
    requires all == Shifted(w, k) + p
    ensures all as real / PowerOfTen(k) == w as real + p as real / PowerOfTen(k)
  {
    ShiftScales(w, k);
    Shares(w as real, PowerOfTen(k), p as real, all as real);
  }

  lemma PointedDigits(whole: string, part: string, raw: string)
    requires Numeral(whole) && Numeral(part) && raw == whole + "." + part
    ensures Numeral(whole + part) && Decimal(raw) == Some(ParseNat(whole + part) as real / PowerOfTen(|part|))
  {
    var k := |whole|;
    ScansDigits(raw, 0, k);
    ScansDigits(raw, k + 1, |raw|);
    assert raw[..k] == whole && raw[k + 1..] == part;
    DigitsRead(whole + part);
  }

  /** A literal is read as the number it spells: digits, perhaps a point and more digits, perhaps a minus sign. */
  lemma LiteralsRead(whole: string, part: string, raw: string)
    requires whole != "" && Numeral(whole) && Numeral(part)
    requires raw == whole + "." + part || (raw == whole && part == "")
    ensures NumberValue(raw) == Some(Spelled(whole, part)) && NumberValue("-" + raw) == Some(-Spelled(whole, part))
  {
    if raw == whole && part == "" { WholeReads(whole); } else { PointedReads(whole, part, raw); }
    assert raw[0] == whole[0] && IsDigit(whole[0]);
    SignedReads(raw);
  }

  lemma SignedReads(raw: string)
    requires raw != "" && raw[0] != '-' && Decimal(raw).Some?
    ensures NumberValue(raw) == Decimal(raw) && NumberValue("-" + raw) == Some(-Decimal(raw).value)
  {
    assert ("-" + raw)[1..] == raw;
  }
}
