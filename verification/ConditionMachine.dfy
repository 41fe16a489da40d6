/** The tokenizer's index loop and the parser object with its moving position, as the source runs them. */
module ConditionMachine {
  import opened Common
  import opened Condition

  function Following(ts: seq<Token>, rest: Result<seq<Token>, CondError>): Result<seq<Token>, CondError> {
    match rest
    case Ok(more) => Ok(ts + more)
    case Err(e) => Err(e)
  }

  /** Moves past characters of class `k`. */
  method SkipOver(s: string, start: nat, k: CharClass) returns (i: nat)
    requires start <= |s|
    ensures i == Scan(s, start, k)
  {
    i := start;
    while i < |s| && Belongs(s[i], k)
      invariant start <= i <= |s| && Scan(s, start, k) == Scan(s, i, k)
    {
      i := i + 1;
    }
  }

  /** One turn of the loop: which token starts at `i`, and where the next turn starts. */
  method LexOne(s: string, i: nat) returns (r: Lexed)
    requires i < |s|
    ensures r == Lex(s, i)
  {
    var c := s[i];
    if IsSpace(c) { return Blank(i + 1); }
    if c == '$' && i + 1 < |s| && s[i + 1] == '.' {
      var j := SkipOver(s, i + 1, PathChars);
      return Found(Token(PathTok, s[i..j]), j);
    }
    if c == '"' {
      var j := SkipOver(s, i + 1, NotQuote);
      return Found(Token(StringTok, s[i + 1..j]), j + 1);
    }
    if IsDigit(c) || (c == '-' && i + 1 < |s| && IsDigit(s[i + 1])) {
      var j := SkipOver(s, i + 1, NumberChars);
      return Found(Token(NumberTok, s[i..j]), j);
    }
    if i + 1 < |s| && TwoChar(c, s[i + 1]).Some? {
      return Found(Token(TwoChar(c, s[i + 1]).value, s[i..i + 2]), i + 2);
    }
    if OneChar(c).Some? { return Found(Token(OneChar(c).value, [c]), i + 1); }
    if IsAlpha(c) {
      var j := SkipOver(s, i + 1, WordChars);
      if Keyword(s[i..j]).Some? { return Found(Token(Keyword(s[i..j]).value, s[i..j]), j); }
    }
    r := Bad;
  }

  method Tokenize(s: string) returns (r: Result<seq<Token>, CondError>)
    ensures r == TokensFrom(s, 0)
  {
    var i: nat, tokens: seq<Token> := 0, [];
    assert Following([], TokensFrom(s, 0)) == TokensFrom(s, 0) by {
      if TokensFrom(s, 0).Ok? { assert [] + TokensFrom(s, 0).value == TokensFrom(s, 0).value; }
    }
    while i < |s|
      invariant TokensFrom(s, 0) == Following(tokens, TokensFrom(s, i))
      decreases |s| + 1 - i
    {
      var lexed := LexOne(s, i);
      match lexed
      case Blank(next) => i := next;
      case Found(t, next) =>
        if TokensFrom(s, next).Ok? {
          assert tokens + ([t] + TokensFrom(s, next).value) == tokens + [t] + TokensFrom(s, next).value;
        }
        tokens, i := tokens + [t], next;
      case Bad => return Err(CondError);
    }
    r := Ok(tokens + [EOF]);
  }

  /** `_Parser`: the position only moves forward and never passes the end marker. */
  class Parser {
    const tokens: seq<Token>
    const env: Env
    var pos: nat

    ghost predicate Valid()
      reads this
    {
      Terminated(tokens) && pos < |tokens|
    }

    /** A call that returned `r` did what the parsing function says, leaving the position where it says. */
    ghost predicate Agrees<T>(r: Result<T, CondError>, p: Parsed<T>)
      reads this
    {
      match p
      case Err(e) => r == Err(e)
      case Ok((v, q)) => r == Ok(v) && pos == q
    }

    constructor (tokens: seq<Token>, env: Env)
      requires Terminated(tokens)
      ensures this.tokens == tokens && this.env == env && pos == 0 && Valid()
    {
      this.tokens, this.env, pos := tokens, env, 0;
    }

    method ParseOrExpr() returns (r: Result<bool, CondError>)
      requires Valid()
      modifies this
      ensures Agrees(r, ParseOr(tokens, old(pos), env))
      ensures r.Ok? ==> Valid() && pos > old(pos)
      decreases |tokens| - pos, 4
    {
      r := ParseAndExpr();
      if r.Err? { return; }
      while tokens[pos].kind == OrTok
        invariant Valid() && old(pos) < pos && r.Ok?
        invariant ParseOr(tokens, old(pos), env) == OrTail(tokens, r.value, pos, env)
        decreases |tokens| - pos
      {
        pos := pos + 1;
        var right := ParseAndExpr();
        if right.Err? { return right; }
        r := Ok(r.value || right.value);
      }
    }

    method ParseAndExpr() returns (r: Result<bool, CondError>)
      requires Valid()
      modifies this
      ensures Agrees(r, ParseAnd(tokens, old(pos), env))
      ensures r.Ok? ==> Valid() && pos > old(pos)
      decreases |tokens| - pos, 3
    {
      r := ParseNotExpr();
      if r.Err? { return; }
      while tokens[pos].kind == AndTok
        invariant Valid() && old(pos) < pos && r.Ok?
        invariant ParseAnd(tokens, old(pos), env) == AndTail(tokens, r.value, pos, env)
        decreases |tokens| - pos
      {
        pos := pos + 1;
        var right := ParseNotExpr();
        if right.Err? { return right; }
        r := Ok(r.value && right.value);
      }
    }

    method ParseNotExpr() returns (r: Result<bool, CondError>)
      requires Valid()
      modifies this
      ensures Agrees(r, ParseNot(tokens, old(pos), env))
      ensures r.Ok? ==> Valid() && pos > old(pos)
      decreases |tokens| - pos, 2
    {
      if tokens[pos].kind == NotTok {
        pos := pos + 1;
        r := ParseNotExpr();
        if r.Ok? { r := Ok(!r.value); }
      } else {
        r := ParseComparisonExpr();
      }
    }

    method ParseComparisonExpr() returns (r: Result<bool, CondError>)
      requires Valid()
      modifies this
      ensures Agrees(r, ParseComparison(tokens, old(pos), env))
      ensures r.Ok? ==> Valid() && pos > old(pos)
      decreases |tokens| - pos, 1
    {
      var kind := tokens[pos].kind;
      if kind == LParen {
        pos := pos + 1;
        r := ParseOrExpr();
        if r.Err? { return; }
        if tokens[pos].kind != RParen { return Err(CondError); }
        pos := pos + 1;
        return;
      }
      if kind == TrueTok { pos := pos + 1; return Ok(true); }
      if kind == FalseTok { pos := pos + 1; return Ok(false); }
      var lhs := ParseOperand();
      if lhs.Err? { return Err(lhs.error); }
      var op := tokens[pos].kind;
      if !IsComparison(op) { return Ok(Truthy(lhs.value)); }
      pos := pos + 1;
      var rhs := ParseOperand();
      if rhs.Err? { return Err(rhs.error); }
      r := Ok(Compared(lhs.value, op, rhs.value));
    }

    method ParseOperand() returns (r: Result<Value, CondError>)
      requires Valid()
      modifies this
      ensures Agrees(r, ParseValue(tokens, old(pos), env))
      ensures r.Ok? ==> Valid() && pos > old(pos)
    {
      var tok := tokens[pos];
      pos := pos + 1;
      r := ValueOf(tok, env);
    }
  }

  method EvaluateCondition(condition: string, env: Env) returns (r: Result<bool, CondError>)
    ensures r == Evaluate(condition, env)
  {
    if IsBlank(condition) { return Ok(true); }
    var tokens := Tokenize(Strip(condition));
    if tokens.Err? { return Err(tokens.error); }
    TokensAreTerminated(Strip(condition), 0);
    var parser := new Parser(tokens.value, env);
    r := parser.ParseOrExpr();
  }
}
