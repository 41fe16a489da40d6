/**
 The condition language of DAG nodes: tokens, the recursive-descent evaluator, and the values it compares.

 The tokenizer and the parser are given as functions of the text and of the position; the methods at the end are the
 source's index loops, proved against them. Letters and digits are the ASCII ones.
 */
module Condition {
  import opened Common

  // ---------------------------------------------------------------- tokens

  datatype Kind =
    | PathTok | NumberTok | StringTok | TrueTok | FalseTok | NullTok
    | Gt | Gte | Lt | Lte | Eq | Neq | AndTok | OrTok | NotTok | LParen | RParen | Eof

  datatype Token = Token(kind: Kind, raw: string)

  /** Raised for every syntax error and every evaluation error. */
  datatype CondError = CondError

  predicate IsComparison(k: Kind) { k in {Gt, Gte, Lt, Lte, Eq, Neq} }

  predicate IsAlpha(c: char) { 'a' <= c <= 'z' || 'A' <= c <= 'Z' }

  datatype CharClass = PathChars | NumberChars | WordChars | NotQuote

  predicate Belongs(c: char, k: CharClass) {
    match k
    case PathChars => IsAlpha(c) || IsDigit(c) || c == '_' || c == '.' || c == '$'
    case NumberChars => IsDigit(c) || c == '.'
    case WordChars => IsAlpha(c) || IsDigit(c)
    case NotQuote => c != '"'
  }

  /** The end of the longest stretch of `k` characters that starts at `i`. */
  function Scan(s: string, i: nat, k: CharClass): (j: nat)
    requires i <= |s|
    ensures i <= j <= |s|
    decreases |s| - i
  {
    if i < |s| && Belongs(s[i], k) then Scan(s, i + 1, k) else i
  }

  function TwoChar(c: char, d: char): Option<Kind> {
    if c == '>' && d == '=' then Some(Gte)
    else if c == '<' && d == '=' then Some(Lte)
    else if c == '=' && d == '=' then Some(Eq)
    else if c == '!' && d == '=' then Some(Neq)
    else if c == '&' && d == '&' then Some(AndTok)
    else if c == '|' && d == '|' then Some(OrTok)
    else None
  }

  function OneChar(c: char): Option<Kind> {
    match c
    case '>' => Some(Gt)
    case '<' => Some(Lt)
    case '!' => Some(NotTok)
    case '(' => Some(LParen)
    case ')' => Some(RParen)
    case _ => None
  }

  function Keyword(w: string): Option<Kind> {
    if w == "true" then Some(TrueTok) else if w == "false" then Some(FalseTok)
    else if w == "null" then Some(NullTok) else None
  }

  datatype Lexed = Blank(next: nat) | Found(token: Token, next: nat) | Bad

  /** One turn of the tokenizer's loop at position `i`. */
  function Lex(s: string, i: nat): (r: Lexed)
    requires i < |s|
    ensures r.Blank? || r.Found? ==> i < r.next <= |s| + 1
  {
    var c := s[i];
    if IsSpace(c) then Blank(i + 1)
    else if c == '$' && i + 1 < |s| && s[i + 1] == '.' then
      var j := Scan(s, i + 1, PathChars);
      Found(Token(PathTok, s[i..j]), j)
    else if c == '"' then
      var j := Scan(s, i + 1, NotQuote);
      Found(Token(StringTok, s[i + 1..j]), j + 1)
    else if IsDigit(c) || (c == '-' && i + 1 < |s| && IsDigit(s[i + 1])) then
      var j := Scan(s, i + 1, NumberChars);
      Found(Token(NumberTok, s[i..j]), j)
    else if i + 1 < |s| && TwoChar(c, s[i + 1]).Some? then
      Found(Token(TwoChar(c, s[i + 1]).value, s[i..i + 2]), i + 2)
    else if OneChar(c).Some? then Found(Token(OneChar(c).value, [c]), i + 1)
    else if IsAlpha(c) then
      var j := Scan(s, i + 1, WordChars);
      if Keyword(s[i..j]).Some? then Found(Token(Keyword(s[i..j]).value, s[i..j]), j) else Bad
    else Bad
  }

  const EOF := Token(Eof, "")

  function Lead(t: Token, rest: Result<seq<Token>, CondError>): Result<seq<Token>, CondError> {
    match rest
    case Ok(ts) => Ok([t] + ts)
    case Err(e) => Err(e)
  }

  /** `_tokenize` from position `i`; an unterminated string literal may leave `i` one past the end. */
  function TokensFrom(s: string, i: nat): Result<seq<Token>, CondError>
    decreases |s| + 1 - i
  {
    if i >= |s| then Ok([EOF])
    else match Lex(s, i)
      case Blank(next) => TokensFrom(s, next)
      case Found(t, next) => Lead(t, TokensFrom(s, next))
      case Bad => Err(CondError)
  }

  /** Exactly the last token is the end marker. */
  predicate Terminated(ts: seq<Token>) {
    && |ts| > 0 && ts[|ts| - 1].kind == Eof
    && forall i :: 0 <= i < |ts| - 1 ==> ts[i].kind != Eof
  }

  lemma {:induction false} TokensAreTerminated(s: string, i: nat)
    ensures TokensFrom(s, i).Ok? ==> Terminated(TokensFrom(s, i).value)
    decreases |s| + 1 - i
  {
    if i < |s| {
      match Lex(s, i)
      case Blank(next) => TokensAreTerminated(s, next);
      case Found(t, next) => TokensAreTerminated(s, next);
      case Bad =>
    }
  }

  // ---------------------------------------------------------------- values

  datatype Value = Bool(b: bool) | Num(n: real) | Text(s: string) | Nil | Structured(tag: int)

  function Digits(s: string): int {
    if s == [] then 0
    else Digits(s[..|s| - 1]) * 10 + if IsDigit(s[|s| - 1]) then (s[|s| - 1] - '0') as int else 0
  }

  function PowerOfTen(n: nat): (r: real)
    ensures r > 0.0
  {
    if n == 0 then 1.0 else 10.0 * PowerOfTen(n - 1)
  }

  /** `float(raw)` of a number token: digits with at most one point. Rounding is not modelled. */
  function Decimal(s: string): Option<real> {
    var k := Scan(s, 0, WordChars);
    if k == |s| then Some(Digits(s) as real)
    else if s[k] != '.' || Scan(s, k + 1, WordChars) != |s| then None
    else Some(Digits(s[..k] + s[k + 1..]) as real / PowerOfTen(|s| - k - 1))
  }

  function NumberValue(raw: string): Option<real> {
    if raw != [] && raw[0] == '-' then
      (match Decimal(raw[1..]) case Some(r) => Some(-r) case None => None)
    else Decimal(raw)
  }

  predicate Truthy(v: Value) {
    match v
    case Bool(b) => b
    case Num(n) => n != 0.0
    case Text(s) => |s| > 0
    case Nil => false
    case Structured(_) => true
  }

  /** Equality as the code computes it: a boolean equals the number 0 or 1. */
  predicate Equal(a: Value, b: Value) {
    match (a, b)
    case (Bool(x), Num(n)) => n == if x then 1.0 else 0.0
    case (Num(n), Bool(x)) => n == if x then 1.0 else 0.0
    case _ => a == b
  }

  predicate Compared(a: Value, op: Kind, b: Value) {
    if op == Eq then Equal(a, b)
    else if op == Neq then !Equal(a, b)
    else match (a, b)
      case (Num(x), Num(y)) =>
        (match op case Gt => x > y case Gte => x >= y case Lt => x < y case Lte => x <= y case _ => false)
      case (Text(x), Text(y)) =>
        (match op
         case Gt => !Leq(x, y) case Gte => Leq(y, x) case Lt => !Leq(y, x) case Lte => Leq(x, y) case _ => false)
      case _ => false
  }

  /** How paths resolve against the upstream results; an error is a malformed or too deep path. */
  type Env = string -> Result<Value, CondError>

  // ---------------------------------------------------------------- parser

  type Parsed<T> = Result<(T, nat), CondError>

  function ValueOf(t: Token, env: Env): Result<Value, CondError> {
    match t.kind
    case PathTok => env(t.raw)
    case NumberTok => (match NumberValue(t.raw) case Some(r) => Ok(Num(r)) case None => Err(CondError))
    case StringTok => Ok(Text(t.raw))
    case TrueTok => Ok(Bool(true))
    case FalseTok => Ok(Bool(false))
    case NullTok => Ok(Nil)
    case _ => Err(CondError)
  }

  function ParseValue(ts: seq<Token>, p: nat, env: Env): (r: Parsed<Value>)
    requires Terminated(ts) && p < |ts|
    ensures r.Ok? ==> r.value.1 == p + 1 < |ts|
  {
    match ValueOf(ts[p], env)
    case Ok(v) => Ok((v, p + 1))
    case Err(e) => Err(e)
  }

  function ParseOr(ts: seq<Token>, p: nat, env: Env): (r: Parsed<bool>)
    requires Terminated(ts) && p < |ts|
    ensures r.Ok? ==> p < r.value.1 < |ts|
    decreases |ts| - p, 4
  {
    match ParseAnd(ts, p, env)
    case Ok((b, q)) => OrTail(ts, b, q, env)
    case Err(e) => Err(e)
  }

  function OrTail(ts: seq<Token>, acc: bool, p: nat, env: Env): (r: Parsed<bool>)
    requires Terminated(ts) && p < |ts|
    ensures r.Ok? ==> p <= r.value.1 < |ts|
    decreases |ts| - p, 5
  {
    if ts[p].kind != OrTok then Ok((acc, p))
    else match ParseAnd(ts, p + 1, env)
      case Ok((b, q)) => OrTail(ts, acc || b, q, env)
      case Err(e) => Err(e)
  }

  function ParseAnd(ts: seq<Token>, p: nat, env: Env): (r: Parsed<bool>)
    requires Terminated(ts) && p < |ts|
    ensures r.Ok? ==> p < r.value.1 < |ts|
    decreases |ts| - p, 3
  {
    match ParseNot(ts, p, env)
    case Ok((b, q)) => AndTail(ts, b, q, env)
    case Err(e) => Err(e)
  }

  function AndTail(ts: seq<Token>, acc: bool, p: nat, env: Env): (r: Parsed<bool>)
    requires Terminated(ts) && p < |ts|
    ensures r.Ok? ==> p <= r.value.1 < |ts|
    decreases |ts| - p, 5
  {
    if ts[p].kind != AndTok then Ok((acc, p))
    else match ParseNot(ts, p + 1, env)
      case Ok((b, q)) => AndTail(ts, acc && b, q, env)
      case Err(e) => Err(e)
  }

  function ParseNot(ts: seq<Token>, p: nat, env: Env): (r: Parsed<bool>)
    requires Terminated(ts) && p < |ts|
    ensures r.Ok? ==> p < r.value.1 < |ts|
    decreases |ts| - p, 2
  {
    if ts[p].kind == NotTok then
      match ParseNot(ts, p + 1, env)
      case Ok((b, q)) => Ok((!b, q))
      case Err(e) => Err(e)
    else ParseComparison(ts, p, env)
  }

  function ParseComparison(ts: seq<Token>, p: nat, env: Env): (r: Parsed<bool>)
    requires Terminated(ts) && p < |ts|
    ensures r.Ok? ==> p < r.value.1 < |ts|
    decreases |ts| - p, 1
  {
    if ts[p].kind == LParen then
      match ParseOr(ts, p + 1, env)
      case Ok((b, q)) => if ts[q].kind == RParen then Ok((b, q + 1)) else Err(CondError)
      case Err(e) => Err(e)
    else if ts[p].kind == TrueTok then Ok((true, p + 1))
    else if ts[p].kind == FalseTok then Ok((false, p + 1))
    else match ParseValue(ts, p, env)
      case Err(e) => Err(e)
      case Ok((lhs, q)) =>
        if !IsComparison(ts[q].kind) then Ok((Truthy(lhs), q))
        else match ParseValue(ts, q + 1, env)
          case Err(e) => Err(e)
          case Ok((rhs, r)) => Ok((Compared(lhs, ts[q].kind, rhs), r))
  }

  function LeftStrip(s: string): string {
    if s != [] && IsSpace(s[0]) then LeftStrip(s[1..]) else s
  }

  function RightStrip(s: string): string {
    if s != [] && IsSpace(s[|s| - 1]) then RightStrip(s[..|s| - 1]) else s
  }

  function Strip(s: string): string { RightStrip(LeftStrip(s)) }

  /** `evaluate`: blank conditions hold; otherwise whatever prefix the parser consumes decides. */
  function Evaluate(condition: string, env: Env): Result<bool, CondError> {
    if IsBlank(condition) then Ok(true)
    else match TokensFrom(Strip(condition), 0)
      case Err(e) => Err(e)
      case Ok(ts) =>
        TokensAreTerminated(Strip(condition), 0);
        match ParseOr(ts, 0, env)
        case Ok((b, _)) => Ok(b)
        case Err(e) => Err(e)
  }
}
