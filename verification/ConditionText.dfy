/**
 Conditions as texts: every spelling of a condition's tokens, with or without space between them, tokenizes back to
 those tokens, so evaluating the text yields the condition's denotation.
 */
module ConditionText {
  import opened Common
  import opened Condition
  import opened ConditionMeaning

  /** A token as it is spelled; strings regain their quotes. */
  function Spelling(t: Token): string {
    if t.kind == StringTok then "\"" + t.raw + "\"" else t.raw
  }

  ghost predicate AllBelong(s: string, from: nat, k: CharClass) {
    forall i :: from <= i < |s| ==> Belongs(s[i], k)
  }

  /** A token the tokenizer can produce. */
  ghost predicate Spellable(t: Token) {
    match t.kind
    case PathTok => |t.raw| >= 2 && t.raw[0] == '$' && t.raw[1] == '.' && AllBelong(t.raw, 1, PathChars)
    case NumberTok =>
      && |t.raw| >= 1 && AllBelong(t.raw, 1, NumberChars)
      && (IsDigit(t.raw[0]) || (t.raw[0] == '-' && |t.raw| >= 2 && IsDigit(t.raw[1])))
    case StringTok => AllBelong(t.raw, 0, NotQuote)
    case TrueTok => t.raw == "true"
    case FalseTok => t.raw == "false"
    case NullTok => t.raw == "null"
    case Eof => false
    case k => t.raw == OpText(k)
  }

  ghost predicate OperandSpellable(o: Operand) { Spellable(OperandToken(o)) }

  /** Every path, number and string of the condition can be written down. */
  ghost predicate Writable(c: Cond) {
    match c
    case Or(l, r) => Writable(l) && Writable(r)
    case And(l, r) => Writable(l) && Writable(r)
    case Not(x) => Writable(x)
    case Compare(l, op, r) => IsComparison(op) && OperandSpellable(l) && OperandSpellable(r)
    case Test(o) => OperandSpellable(o)
  }

  /** `c` does not continue a token `t` that it follows. */
  predicate EndsBefore(t: Token, c: char) {
    match t.kind
    case PathTok => !Belongs(c, PathChars)
    case NumberTok => !Belongs(c, NumberChars)
    case TrueTok => !Belongs(c, WordChars)
    case FalseTok => !Belongs(c, WordChars)
    case NullTok => !Belongs(c, WordChars)
    case Gt => c != '='
    case Lt => c != '='
    case NotTok => c != '='
    case _ => true
  }

  /** `t` is spelled in `s` from `i` on, up to the end or a character that does not continue it. */
  ghost predicate WordAt(s: string, i: nat, t: Token) {
    var x := Spelling(t);
    && i + |x| <= |s| && s[i..i + |x|] == x
    && (i + |x| < |s| ==> EndsBefore(t, s[i + |x|]))
  }

  lemma {:induction false} ScanStopsAt(s: string, i: nat, j: nat, k: CharClass)
    requires i <= j <= |s| && (forall m :: i <= m < j ==> Belongs(s[m], k)) && (j < |s| ==> !Belongs(s[j], k))
    ensures Scan(s, i, k) == j
    decreases j - i
  {
    if i < j { ScanStopsAt(s, i + 1, j, k); }
  }

  /** What a run of characters after the first one scans to. */
  function RunClass(t: Token): CharClass {
    if t.kind == PathTok then PathChars else if t.kind == NumberTok then NumberChars else WordChars
  }

  predicate IsRun(t: Token) { t.kind in {PathTok, NumberTok, TrueTok, FalseTok, NullTok} }

  lemma ScanWord(s: string, i: nat, t: Token)
    requires IsRun(t) && WordAt(s, i, t) && |t.raw| >= 1 && AllBelong(t.raw, 1, RunClass(t))
    ensures Scan(s, i + 1, RunClass(t)) == i + |t.raw|
  {
    var x, k := t.raw, RunClass(t);
    forall m | i + 1 <= m < i + |x| ensures Belongs(s[m], k) {
      assert s[i..i + |x|][m - i] == s[m];
    }
    ScanStopsAt(s, i + 1, i + |x|, k);
  }

  lemma FirstChars(s: string, i: nat, x: string)
    requires i + |x| <= |s| && s[i..i + |x|] == x && |x| >= 1
    ensures i < |s| && s[i] == x[0] && (|x| >= 2 ==> i + 1 < |s| && s[i + 1] == x[1])
  {
    assert s[i..i + |x|][0] == s[i];
    if |x| >= 2 { assert s[i..i + |x|][1] == s[i + 1]; }
  }

  lemma LexString(s: string, i: nat, t: Token)
    requires t.kind == StringTok && Spellable(t) && WordAt(s, i, t)
    ensures Lex(s, i) == Found(t, i + |Spelling(t)|)
  {
    var x := Spelling(t);
    FirstChars(s, i, x);
    var j := i + |x| - 1;
    assert s[i..i + |x|][|x| - 1] == s[j] == '"';
    forall m | i + 1 <= m < j ensures Belongs(s[m], NotQuote) {
      assert s[i..i + |x|][m - i] == s[m] && x[m - i] == t.raw[m - i - 1];
    }
    ScanStopsAt(s, i + 1, j, NotQuote);
    SliceOfSlice(s, i, i + |x|, 1, |x| - 1);
    assert x[1..|x| - 1] == t.raw;
  }

  lemma SliceOfSlice(s: string, i: nat, j: nat, a: nat, b: nat)
    requires i <= j <= |s| && a <= b <= j - i
    ensures s[i..j][a..b] == s[i + a..i + b]
  {
    forall k | 0 <= k < b - a ensures s[i..j][a..b][k] == s[i + a..i + b][k] {
      assert s[i..j][a + k] == s[i + a + k];
    }
  }

  lemma LexWord(s: string, i: nat, t: Token)
    requires Spellable(t) && WordAt(s, i, t) && IsRun(t)
    ensures Lex(s, i) == Found(t, i + |t.raw|)
  {
    FirstChars(s, i, t.raw);
    ScanWord(s, i, t);
    if t.kind != PathTok && t.kind != NumberTok { LexKeyword(s, i, t); }
  }

  lemma LexKeyword(s: string, i: nat, t: Token)
    requires t.kind in {TrueTok, FalseTok, NullTok} && Spellable(t) && i + |t.raw| <= |s| && s[i..i + |t.raw|] == t.raw
    requires Scan(s, i + 1, WordChars) == i + |t.raw|
    ensures Lex(s, i) == Found(t, i + |t.raw|)
  {
    FirstChars(s, i, t.raw);
    KeywordOf(t);
  }

  lemma KeywordOf(t: Token)
    requires t.kind in {TrueTok, FalseTok, NullTok} && Spellable(t)
    ensures Keyword(t.raw) == Some(t.kind) && IsAlpha(t.raw[0])
  {
    assert "true"[0] == 't' && "false"[0] == 'f' && "null"[0] == 'n';
  }

  /** A one-character operator is not taken for the start of a longer one. */
  lemma LexOperator(s: string, i: nat, t: Token)
    requires Spellable(t) && WordAt(s, i, t) && !IsRun(t) && t.kind != StringTok
    ensures Lex(s, i) == Found(t, i + |t.raw|)
  {
    FirstChars(s, i, t.raw);
    if |t.raw| == 2 { assert s[i..i + 2] == t.raw; }
  }

  lemma LexSpelling(s: string, i: nat, t: Token)
    requires Spellable(t) && WordAt(s, i, t)
    ensures i < |s| && Lex(s, i) == Found(t, i + |Spelling(t)|)
  {
    FirstChars(s, i, Spelling(t));
    if t.kind == StringTok {
      LexString(s, i, t);
    } else if IsRun(t) {
      LexWord(s, i, t);
    } else {
      LexOperator(s, i, t);
    }
  }

  /** The tokens spelled one after the other, with `gaps[i]` between tokens `i` and `i + 1`. */
  function Written(ts: seq<Token>, gaps: seq<string>): string
    requires |gaps| >= |ts|
  {
    if ts == [] then ""
    else if |ts| == 1 then Spelling(ts[0])
    else Spelling(ts[0]) + gaps[0] + Written(ts[1..], gaps[1..])
  }

  /** White space only; a gap may be empty. */
  ghost predicate Gaps(gaps: seq<string>) {
    forall i :: 0 <= i < |gaps| ==> IsBlank(gaps[i])
  }

  /** `u` may follow `t` without a space. */
  predicate CanTouch(t: Token, u: Token) { Spelling(u) != "" && EndsBefore(t, Spelling(u)[0]) }

  /** Tokens that may not touch are kept apart. */
  ghost predicate Separated(ts: seq<Token>, gaps: seq<string>)
    requires |gaps| >= |ts|
  {
    forall i :: 0 <= i < |ts| - 1 ==> gaps[i] != "" || CanTouch(ts[i], ts[i + 1])
  }

  lemma {:induction false} SkipBlanks(s: string, i: nat, j: nat)
    requires i <= j <= |s| && forall m :: i <= m < j ==> IsSpace(s[m])
    ensures TokensFrom(s, i) == TokensFrom(s, j)
    decreases j - i
  {
    if i < j { SkipBlanks(s, i + 1, j); }
  }

  /** A token, a gap, and the rest, read off a text that continues with them. */
  lemma WordThenGap(s: string, i: nat, t: Token, gap: string, rest: string)
    requires i <= |s| && s[i..] == Spelling(t) + gap + rest && IsBlank(gap)
    requires gap != "" || (rest != "" && EndsBefore(t, rest[0]))
    ensures var x := Spelling(t);
            && WordAt(s, i, t) && i + |x| + |gap| <= |s|
            && (forall m :: i + |x| <= m < i + |x| + |gap| ==> IsSpace(s[m]))
            && s[i + |x| + |gap|..] == rest
  {
    var tail, x := s[i..], Spelling(t);
    assert tail[..|x|] == x && s[i..i + |x|] == tail[..|x|];
    assert s[i + |x| + |gap|..] == tail[|x| + |gap|..];
    forall m | i + |x| <= m < i + |x| + |gap| ensures IsSpace(s[m]) {
      assert s[m] == tail[m - i] == gap[m - i - |x|];
    }
    assert s[i + |x|] == tail[|x|] == if gap != "" then gap[0] else rest[0];
    if gap != "" { BlanksEnd(t, gap[0]); }
  }

  lemma BlanksEnd(t: Token, c: char)
    requires IsSpace(c)
    ensures EndsBefore(t, c)
  {}

  ghost predicate AllSpellable(ts: seq<Token>) { forall i :: 0 <= i < |ts| ==> Spellable(ts[i]) }

  lemma TokenizesLast(s: string, i: nat, t: Token)
    requires i <= |s| && Spellable(t) && s[i..] == Spelling(t)
    ensures TokensFrom(s, i) == Ok([t, EOF])
  {
    assert s[i..i + |Spelling(t)|] == s[i..];
    LexSpelling(s, i, t);
    assert [t] + [EOF] == [t, EOF];
    assert TokensFrom(s, |s|) == Ok([EOF]);
  }

  lemma LeadMeans(all: Result<seq<Token>, CondError>, rest: Result<seq<Token>, CondError>, ts: seq<Token>)
    requires ts != [] && all == Lead(ts[0], rest) && rest == Ok(ts[1..] + [EOF])
    ensures all == Ok(ts + [EOF])
  {
    assert ts + [EOF] == [ts[0]] + (ts[1..] + [EOF]);
  }

  lemma TokenizesMore(s: string, i: nat, t: Token, gap: string, next: nat)
    requires Spellable(t) && WordAt(s, i, t) && next == i + |Spelling(t)| + |gap| <= |s|
    requires forall m :: i + |Spelling(t)| <= m < next ==> IsSpace(s[m])
    ensures TokensFrom(s, i) == Lead(t, TokensFrom(s, next))
  {
    var end := i + |Spelling(t)|;
    LexSpelling(s, i, t);
    SkipBlanks(s, end, next);
    FoundLeads(s, i, t, end);
  }

  lemma FoundLeads(s: string, i: nat, t: Token, end: nat)
    requires i < |s| && Lex(s, i) == Found(t, end)
    ensures TokensFrom(s, i) == Lead(t, TokensFrom(s, end))
  {}

  lemma WrittenStarts(ts: seq<Token>, gaps: seq<string>)
    requires |gaps| >= |ts| > 0
    ensures Spelling(ts[0]) != "" ==> Written(ts, gaps) != "" && Written(ts, gaps)[0] == Spelling(ts[0])[0]
  {}

  /** After the first token comes a gap, or a token that may touch it. */
  lemma GapOrTouch(ts: seq<Token>, gaps: seq<string>)
    requires |gaps| >= |ts| > 1 && Gaps(gaps) && Separated(ts, gaps)
    ensures var rest := Written(ts[1..], gaps[1..]);
            IsBlank(gaps[0]) && (gaps[0] != "" || (rest != "" && EndsBefore(ts[0], rest[0])))
  {
    WrittenStarts(ts[1..], gaps[1..]);
    assert gaps[0] != "" || CanTouch(ts[0], ts[0 + 1]);
  }

  /** Where the first token and the gap after it end. */
  lemma FirstSplit(s: string, i: nat, ts: seq<Token>, gaps: seq<string>) returns (next: nat)
    requires |gaps| >= |ts| > 1 && Gaps(gaps) && Separated(ts, gaps)
    requires i <= |s| && s[i..] == Written(ts, gaps)
    ensures next == i + |Spelling(ts[0])| + |gaps[0]| <= |s| && s[next..] == Written(ts[1..], gaps[1..])
    ensures WordAt(s, i, ts[0]) && forall m :: i + |Spelling(ts[0])| <= m < next ==> IsSpace(s[m])
  {
    next := i + |Spelling(ts[0])| + |gaps[0]|;
    GapOrTouch(ts, gaps);
    WordThenGap(s, i, ts[0], gaps[0], Written(ts[1..], gaps[1..]));
  }

  lemma {:induction false} TokenizesAs(s: string, i: nat, ts: seq<Token>, gaps: seq<string>)
    requires |gaps| >= |ts| > 0 && Gaps(gaps) && Separated(ts, gaps) && AllSpellable(ts)
    requires i <= |s| && s[i..] == Written(ts, gaps)
    ensures TokensFrom(s, i) == Ok(ts + [EOF])
    decreases |ts|
  {
    if |ts| == 1 {
      TokenizesLast(s, i, ts[0]);
      assert ts + [EOF] == [ts[0], EOF];
    } else {
      var next := FirstSplit(s, i, ts, gaps);
      assert AllSpellable(ts[1..]) && Gaps(gaps[1..]) && Separated(ts[1..], gaps[1..]);
      TokenizesMore(s, i, ts[0], gaps[0], next);
      TokenizesAs(s, next, ts[1..], gaps[1..]);
      LeadMeans(TokensFrom(s, i), TokensFrom(s, next), ts);
    }
  }

  // ---------------------------------------------------------------- the whole evaluator

  lemma JoinSpellable(a: seq<Token>, k: Kind, b: seq<Token>)
    requires AllSpellable(a) && AllSpellable(b) && Spellable(Op(k))
    ensures AllSpellable(a + [Op(k)] + b)
  {}

  lemma OperatorsAreSpellable(k: Kind)
    requires k !in {PathTok, NumberTok, StringTok, TrueTok, FalseTok, NullTok, Eof}
    ensures Spellable(Op(k))
  {}

  lemma {:induction false} WritableTokens(c: Cond)
    requires Writable(c)
    ensures OpsAreComparisons(c)
    ensures AllSpellable(NotTokens(c)) && AllSpellable(AndTokens(c)) && AllSpellable(OrTokens(c))
  {
    OperatorsAreSpellable(LParen);
    OperatorsAreSpellable(RParen);
    match c
    case Or(l, r) =>
      WritableTokens(l);
      WritableTokens(r);
      OperatorsAreSpellable(OrTok);
      JoinSpellable(OrTokens(l), OrTok, AndTokens(r));
    case And(l, r) =>
      WritableTokens(l);
      WritableTokens(r);
      OperatorsAreSpellable(AndTok);
      JoinSpellable(AndTokens(l), AndTok, NotTokens(r));
    case Not(x) =>
      WritableTokens(x);
      OperatorsAreSpellable(NotTok);
    case Compare(_, op, _) =>
      OperatorsAreSpellable(op);
    case Test(_) =>
  }

  // ---------------------------------------------------------------- tokens that touch

  predicate IsOperand(t: Token) { IsRun(t) || t.kind == StringTok }

  predicate Opens(t: Token) { IsOperand(t) || t.kind == LParen || t.kind == NotTok }

  predicate Closes(t: Token) { IsOperand(t) || t.kind == RParen }

  ghost predicate AllTouch(ts: seq<Token>) { forall i :: 0 <= i < |ts| - 1 ==> CanTouch(ts[i], ts[i + 1]) }

  /** Tokens that may be written without any space, beginning and ending like an expression. */
  ghost predicate Fitting(ts: seq<Token>) {
    ts != [] && Opens(ts[0]) && Closes(ts[|ts| - 1]) && AllTouch(ts)
  }

  /** An operator that stands before an expression. */
  lemma TouchesNext(k: Kind, u: Token)
    requires Opens(u) && Spellable(u) && (IsComparison(k) || k in {AndTok, OrTok, NotTok, LParen})
    ensures CanTouch(Op(k), u)
  {}

  /** An operator that stands after one. */
  lemma TouchesBefore(t: Token, k: Kind)
    requires Closes(t) && (IsComparison(k) || k in {AndTok, OrTok, RParen})
    ensures CanTouch(t, Op(k))
  {}

  lemma JoinFits(a: seq<Token>, k: Kind, b: seq<Token>)
    requires Fitting(a) && Fitting(b) && Spellable(b[0]) && (IsComparison(k) || k in {AndTok, OrTok})
    ensures Fitting(a + [Op(k)] + b)
  {
    TouchesBefore(a[|a| - 1], k);
    TouchesNext(k, b[0]);
    var all := a + [Op(k)] + b;
    forall i | 0 <= i < |all| - 1 ensures CanTouch(all[i], all[i + 1]) {
      if i < |a| - 1 {
        assert all[i] == a[i] && all[i + 1] == a[i + 1];
      } else if i > |a| {
        assert all[i] == b[i - |a| - 1] && all[i + 1] == b[i - |a|];
      }
    }
  }

  lemma PrefixFits(k: Kind, b: seq<Token>)
    requires Fitting(b) && Spellable(b[0]) && (k == NotTok || k == LParen)
    ensures Fitting([Op(k)] + b)
  {
    TouchesNext(k, b[0]);
    var all := [Op(k)] + b;
    forall i | 0 <= i < |all| - 1 ensures CanTouch(all[i], all[i + 1]) {
      if i > 0 { assert all[i] == b[i - 1] && all[i + 1] == b[i]; }
    }
  }

  lemma CloseFits(a: seq<Token>)
    requires Fitting(a)
    ensures Fitting(a + [Op(RParen)])
  {
    TouchesBefore(a[|a| - 1], RParen);
  }

  lemma WrapFits(inner: seq<Token>)
    requires Fitting(inner) && Spellable(inner[0])
    ensures Fitting([Op(LParen)] + inner + [Op(RParen)])
  {
    PrefixFits(LParen, inner);
    CloseFits([Op(LParen)] + inner);
  }

  lemma OperandFits(o: Operand)
    ensures Fitting([OperandToken(o)])
  {}

  /** The tokens of a condition never run together, whether or not there is space between them. */
  lemma {:induction false} TokensFitTogether(c: Cond)
    requires Writable(c)
    ensures Fitting(NotTokens(c)) && Fitting(AndTokens(c)) && Fitting(OrTokens(c))
  {
    match c
    case Or(l, r) =>
      TokensFitTogether(l);
      TokensFitTogether(r);
      WritableTokens(r);
      JoinFits(OrTokens(l), OrTok, AndTokens(r));
      WritableTokens(c);
      WrapFits(OrTokens(c));
    case And(l, r) =>
      TokensFitTogether(l);
      TokensFitTogether(r);
      WritableTokens(r);
      JoinFits(AndTokens(l), AndTok, NotTokens(r));
      WritableTokens(c);
      WrapFits(AndTokens(c));
    case Not(x) =>
      TokensFitTogether(x);
      WritableTokens(x);
      PrefixFits(NotTok, NotTokens(x));
    case Compare(l, op, r) =>
      OperandFits(l);
      OperandFits(r);
      JoinFits([OperandToken(l)], op, [OperandToken(r)]);
      assert [OperandToken(l)] + [Op(op)] + [OperandToken(r)] == NotTokens(c);
    case Test(o) => OperandFits(o);
  }

  lemma SpellingHasNoEdgeBlanks(t: Token)
    requires Spellable(t)
    ensures var x := Spelling(t); |x| > 0 && !IsSpace(x[0]) && !IsSpace(x[|x| - 1])
  {}

  lemma {:induction false} WrittenHasNoEdgeBlanks(ts: seq<Token>, gaps: seq<string>)
    requires |gaps| >= |ts| > 0 && AllSpellable(ts)
    ensures var x := Written(ts, gaps); |x| > 0 && !IsSpace(x[0]) && !IsSpace(x[|x| - 1])
    decreases |ts|
  {
    SpellingHasNoEdgeBlanks(ts[0]);
    if |ts| > 1 { WrittenHasNoEdgeBlanks(ts[1..], gaps[1..]); }
  }

  /**
   Main result: writing out any condition, with any white space or none between its tokens, and evaluating the text
   gives the condition's denotation, whether that is a truth value or an error.
   */
  lemma EvaluateWritten(c: Cond, gaps: seq<string>, env: Env)
    requires Writable(c) && !ComparesLiteral(c)
    requires |gaps| >= |OrTokens(c)| && Gaps(gaps)
    ensures Evaluate(Written(OrTokens(c), gaps), env) == Denote(c, env)
  {
    EvaluatesParse(c, gaps, env);
    WholeParse(c, env);
  }

  /** A parse without the position where it stopped. */
  function Answer(p: Parsed<bool>): Result<bool, CondError> {
    match p case Ok((b, _)) => Ok(b) case Err(e) => Err(e)
  }

  lemma WholeParse(c: Cond, env: Env)
    requires Writable(c) && !ComparesLiteral(c)
    ensures Terminated(OrTokens(c) + [EOF]) && Answer(ParseOr(OrTokens(c) + [EOF], 0, env)) == Denote(c, env)
  {
    WritableTokens(c);
    ParserComputesDenotation(c, env);
  }

  lemma EvaluatesParse(c: Cond, gaps: seq<string>, env: Env)
    requires Writable(c) && |gaps| >= |OrTokens(c)| && Gaps(gaps)
    ensures Terminated(OrTokens(c) + [EOF])
    ensures Evaluate(Written(OrTokens(c), gaps), env) ==
              Answer(ParseOr(OrTokens(c) + [EOF], 0, env))
  {
    WritableTokens(c);
    TokensFitTogether(c);
    TokensHaveNoEnd(c);
    EvaluatesTokens(OrTokens(c), gaps, env);
  }

  lemma EvaluatesTokens(ts: seq<Token>, gaps: seq<string>, env: Env)
    requires |gaps| >= |ts| > 0 && Gaps(gaps) && Separated(ts, gaps) && AllSpellable(ts) && Terminated(ts + [EOF])
    ensures Evaluate(Written(ts, gaps), env) ==
              Answer(ParseOr(ts + [EOF], 0, env))
  {
    var text := Written(ts, gaps);
    WrittenHasNoEdgeBlanks(ts, gaps);
    assert Strip(text) == text && text[0..] == text;
    TokenizesAs(text, 0, ts, gaps);
  }

  lemma CompareTokens(c: Cond)
    requires c.Compare?
    ensures OrTokens(c) == [OperandToken(c.lhs), Op(c.op), OperandToken(c.rhs)]
  {
    assert AndTokens(c) == NotTokens(c);
    assert OrTokens(c) == AndTokens(c);
  }

  /** The excluded form: whatever a boolean literal is compared with, the literal itself is the answer. */
  lemma LeadingLiteralWins(c: Cond, gaps: seq<string>, env: Env)
    requires c.Compare? && c.lhs.BoolLit? && Writable(c) && |gaps| >= |OrTokens(c)| && Gaps(gaps)
    ensures Evaluate(Written(OrTokens(c), gaps), env) == Ok(c.lhs.b)
  {
    EvaluatesParse(c, gaps, env);
    LiteralLeads(c);
    LeadingLiteral(OrTokens(c) + [EOF], c.lhs.b, env);
  }

  lemma LiteralLeads(c: Cond)
    requires c.Compare? && c.lhs.BoolLit?
    ensures var ts := OrTokens(c) + [EOF];
            |ts| > 1 && ts[0].kind == (if c.lhs.b then TrueTok else FalseTok) && ts[1].kind == c.op
  {
    CompareTokens(c);
  }

  lemma LeadingLiteral(ts: seq<Token>, b: bool, env: Env)
    requires Terminated(ts) && |ts| > 1 && ts[0].kind == (if b then TrueTok else FalseTok) && IsComparison(ts[1].kind)
    ensures ParseOr(ts, 0, env) == Ok((b, 1))
  {
    assert ParseNot(ts, 0, env) == Ok((b, 1));
    assert ParseAnd(ts, 0, env) == Ok((b, 1));
  }

  /** So it is misread exactly when that is not its denotation. */
  lemma LiteralComparisonMisread(c: Cond, gaps: seq<string>, env: Env)
    requires c.Compare? && c.lhs.BoolLit? && Writable(c) && |gaps| >= |OrTokens(c)| && Gaps(gaps)
    ensures Evaluate(Written(OrTokens(c), gaps), env) == Denote(c, env) <==>
              OperandValue(c.rhs, env).Ok? && Compared(Bool(c.lhs.b), c.op, OperandValue(c.rhs, env).value) == c.lhs.b
  {
    LeadingLiteralWins(c, gaps, env);
  }

  /** A comparison written without any space. */
  function Compact(c: Cond): string
    requires c.Compare?
  {
    Spelling(OperandToken(c.lhs)) + OpText(c.op) + Spelling(OperandToken(c.rhs))
  }

  lemma CompactIsWritten(c: Cond, gaps: seq<string>)
    requires c.Compare? && IsComparison(c.op) && gaps == ["", "", ""]
    ensures |OrTokens(c)| == 3 && Gaps(gaps) && Written(OrTokens(c), gaps) == Compact(c)
  {
    CompareTokens(c);
    var ts := OrTokens(c);
    var rest := Written(ts[1..], gaps[1..]);
    assert Written(ts[1..][1..], gaps[1..][1..]) == Spelling(ts[2]);
    assert rest == Spelling(ts[1]) + "" + Spelling(ts[2]);
    assert Spelling(ts[0]) + "" + rest == Compact(c);
  }

  lemma EvaluateCompact(c: Cond, env: Env)
    requires c.Compare? && Writable(c)
    ensures Evaluate(Compact(c), env) == if c.lhs.BoolLit? then Ok(c.lhs.b) else Denote(c, env)
  {
    CompactIsWritten(c, ["", "", ""]);
    if c.lhs.BoolLit? { LeadingLiteralWins(c, ["", "", ""], env); } else { EvaluateWritten(c, ["", "", ""], env); }
  }

  /** Such a text: `true==false` is true. */
  lemma TrueEqualsFalse(text: string, c: Cond, env: Env)
    requires text == "true==false" && c == Compare(BoolLit(true), Eq, BoolLit(false))
    ensures Evaluate(text, env) == Ok(true) && Denote(c, env) == Ok(false)
  {
    assert Compact(c) == text;
    EvaluateCompact(c, env);
  }

  // ---------------------------------------------------------------- booleans and numbers

  /** A boolean and the number it is stored as. */
  predicate Confusable(a: Value, b: Value) {
    || (a.Bool? && b.Num? && b.n == if a.b then 1.0 else 0.0)
    || (a.Num? && b.Bool? && a.n == if b.b then 1.0 else 0.0)
  }

  /**
   The documented equality keeps booleans apart from numbers. Evaluating the text of an equality, or of an inequality,
   gives what it says exactly when the two values are not a boolean and the number 1 for true or 0 for false.
   */
  lemma BooleanEqualsNumber(l: Operand, r: Operand, gaps: seq<string>, env: Env, a: Value, b: Value)
    requires !l.BoolLit? && OperandSpellable(l) && OperandSpellable(r) && |gaps| >= 3 && Gaps(gaps)
    requires OperandValue(l, env) == Ok(a) && OperandValue(r, env) == Ok(b)
    ensures |OrTokens(Compare(l, Eq, r))| == |OrTokens(Compare(l, Neq, r))| == 3
    ensures Evaluate(Written(OrTokens(Compare(l, Eq, r)), gaps), env) == Ok(a == b) <==> !Confusable(a, b)
    ensures Evaluate(Written(OrTokens(Compare(l, Neq, r)), gaps), env) == Ok(a != b) <==> !Confusable(a, b)
  {
    CompareTokens(Compare(l, Eq, r));
    CompareTokens(Compare(l, Neq, r));
    EvaluateWritten(Compare(l, Eq, r), gaps, env);
    EvaluateWritten(Compare(l, Neq, r), gaps, env);
    EqualExactlyWhen(a, b);
  }

  lemma EqualExactlyWhen(a: Value, b: Value)
    ensures Equal(a, b) == (a == b) <==> !Confusable(a, b)
  {}

  /** Such an input: `$.ok==1` is true of a result whose field `ok` is the boolean true. */
  lemma TrueEqualsOne(text: string, c: Cond, env: Env)
    requires text == "$.ok==1" && c == Compare(PathRef("$.ok"), Eq, NumberLit("1")) && env("$.ok") == Ok(Bool(true))
    ensures Evaluate(text, env) == Ok(true)
  {
    OneIsOne();
    assert Compact(c) == text;
    assert OperandSpellable(c.lhs) && OperandSpellable(c.rhs);
    EvaluateCompact(c, env);
  }

  lemma OneIsOne()
    ensures NumberValue("1") == Some(1.0)
  {
    assert "1"[..0] == "" && Scan("1", 0, WordChars) == 1;
    assert Digits("1") == 1;
  }
}
