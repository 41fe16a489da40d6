/**
 WHERE fragments as text: how the translator's tokens are printed, and that a reader of the text finds exactly those
 tokens again, so agreement with the in-memory evaluator holds for the printed text.
 */
module FilterText {
  import opened Common
  import opened Decimals
  import opened Filters
  import opened FilterAgreement
  import FilterPlaceholders

  // ---------------------------------------------------------------- printing

  /** `@` or `:`, the two placeholder styles. */
  datatype Style = AtName | NamedColon {
    function Mark(): char { match this case AtName => '@' case NamedColon => ':' }
  }

  function OpSign(op: SqlOp): string {
    match op
    case Equals => "=" case Differs => "<>"
    case Less => "<" case AtMost => "<="
    case Greater => ">" case AtLeast => ">="
  }

  function TokenText(t: Sql, style: Style): string {
    match t
    case Open => "(" case Close => ")" case Comma => ","
    case AndWord => "AND" case OrWord => "OR" case NotWord => "NOT" case InWord => "IN"
    case BetweenWord => "BETWEEN" case LikeWord => "LIKE"
    case Always => "1=1" case Never => "1=0"
    case Col(name) => "\"" + name + "\""
    case Cmp(op) => OpSign(op)
    case Param(i) => [style.Mark(), 'p'] + PrintNat(i)
  }

  /** Tokens are separated by one space, except inside parentheses and before a comma. */
  predicate Spaced(prev: Sql, next: Sql) { !prev.Open? && !next.Close? && !next.Comma? }

  function Gap(prev: Sql, next: Sql): string { if Spaced(prev, next) then " " else "" }

  function Chunk(style: Style): (Sql, Sql) -> string { (prev, next) => Gap(prev, next) + TokenText(next, style) }

  /** Each item of `ts` written with regard to the one before it. */
  function Chain<T>(prev: T, ts: seq<T>, chunk: (T, T) -> string): string {
    if ts == [] then "" else chunk(prev, ts[0]) + Chain(ts[0], ts[1..], chunk)
  }

  function PrintAfter(prev: Sql, ts: seq<Sql>, style: Style): string { Chain(prev, ts, Chunk(style)) }

  function Print(ts: seq<Sql>, style: Style): string {
    if ts == [] then "" else TokenText(ts[0], style) + PrintAfter(ts[0], ts[1..], style)
  }

  // ---------------------------------------------------------------- reading

  predicate IsUpper(c: char) { 'A' <= c <= 'Z' }

  datatype Run = Upper | Digit | Unquoted

  predicate InRun(c: char, k: Run) {
    match k case Upper => IsUpper(c) case Digit => IsDigit(c) case Unquoted => c != '"'
  }

  function RunEnd(s: string, i: nat, k: Run): (j: nat)
    requires i <= |s|
    ensures i <= j <= |s| && forall m :: i <= m < j ==> InRun(s[m], k)
    decreases |s| - i
  {
    if i < |s| && InRun(s[i], k) then RunEnd(s, i + 1, k) else i
  }

  function WordToken(w: string): Option<Sql> {
    if w == "AND" then Some(AndWord) else if w == "OR" then Some(OrWord) else if w == "NOT" then Some(NotWord)
    else if w == "IN" then Some(InWord) else if w == "BETWEEN" then Some(BetweenWord)
    else if w == "LIKE" then Some(LikeWord) else None
  }

  datatype Lexed = Blank | Found(token: Sql, next: nat) | Bad

  /** The token at position `i`: quoted names, words, numbered placeholders, and the longest operator. */
  function LexSql(s: string, i: nat, style: Style): (r: Lexed)
    requires i < |s|
    ensures r.Found? ==> i < r.next <= |s|
  {
    var c := s[i];
    var d := if i + 1 < |s| then s[i + 1] else ' ';
    if c == ' ' then Blank
    else if c == '(' then Found(Open, i + 1)
    else if c == ')' then Found(Close, i + 1)
    else if c == ',' then Found(Comma, i + 1)
    else if c == '"' then
      var j := RunEnd(s, i + 1, Unquoted);
      if j < |s| then Found(Col(s[i + 1..j]), j + 1) else Bad
    else if c == style.Mark() then
      if d == 'p' then
        var j := RunEnd(s, i + 2, Digit);
        if j > i + 2 then Found(Param(ParseNat(s[i + 2..j])), j) else Bad
      else Bad
    else if c == '1' then
      if d == '=' && i + 2 < |s| && s[i + 2] == '1' then Found(Always, i + 3)
      else if d == '=' && i + 2 < |s| && s[i + 2] == '0' then Found(Never, i + 3)
      else Bad
    else if c == '=' then Found(Cmp(Equals), i + 1)
    else if c == '<' then
      if d == '=' then Found(Cmp(AtMost), i + 2)
      else if d == '>' then Found(Cmp(Differs), i + 2)
      else Found(Cmp(Less), i + 1)
    else if c == '>' then
      if d == '=' then Found(Cmp(AtLeast), i + 2) else Found(Cmp(Greater), i + 1)
    else if IsUpper(c) then
      var j := RunEnd(s, i, Upper);
      if WordToken(s[i..j]).Some? then Found(WordToken(s[i..j]).value, j) else Bad
    else Bad
  }

  function Cons(t: Sql, rest: Option<seq<Sql>>): Option<seq<Sql>> {
    if rest.None? then None else Some([t] + rest.value)
  }

  function ReadText(s: string, i: nat, style: Style): Option<seq<Sql>>
    requires i <= |s|
    decreases |s| - i
  {
    if i == |s| then Some([])
    else match LexSql(s, i, style)
      case Blank => ReadText(s, i + 1, style)
      case Found(t, next) => Cons(t, ReadText(s, next, style))
      case Bad => None
  }

  // ---------------------------------------------------------------- the text holds the tokens

  /** A column name that quoting keeps intact. */
  predicate Printable(t: Sql) { t.Col? ==> '"' !in t.name }

  ghost predicate AllPrintable(ts: seq<Sql>) { forall i :: 0 <= i < |ts| ==> Printable(ts[i]) }

  /** `x` stands at `i`, up to the end or a character that separates tokens. */
  ghost predicate StandsAt(s: string, i: nat, x: string) {
    && i + |x| <= |s| && s[i..i + |x|] == x
    && (i + |x| < |s| ==> s[i + |x|] in {' ', ')', ','})
  }

  lemma CharsAt(s: string, i: nat, x: string)
    requires i + |x| <= |s| && s[i..i + |x|] == x
    ensures forall k :: 0 <= k < |x| ==> s[i + k] == x[k]
  {
    forall k | 0 <= k < |x| ensures s[i + k] == x[k] { assert s[i..i + |x|][k] == s[i + k]; }
  }

  lemma {:induction false} RunStops(s: string, i: nat, j: nat, k: Run)
    requires i <= j <= |s| && (forall m :: i <= m < j ==> InRun(s[m], k)) && (j < |s| ==> !InRun(s[j], k))
    ensures RunEnd(s, i, k) == j
    decreases j - i
  {
    if i < j { RunStops(s, i + 1, j, k); }
  }

  lemma LexColumn(s: string, i: nat, t: Sql, style: Style)
    requires t.Col? && Printable(t) && StandsAt(s, i, TokenText(t, style))
    ensures i < |s| && LexSql(s, i, style) == Found(t, i + |TokenText(t, style)|)
  {
    var x := TokenText(t, style);
    CharsAt(s, i, x);
    var j := i + |x| - 1;
    assert x[|x| - 1] == '"';
    forall m | i + 1 <= m < j ensures InRun(s[m], Unquoted) { assert s[i + (m - i)] == x[m - i] == t.name[m - i - 1]; }
    assert s[i + (|x| - 1)] == '"';
    RunStops(s, i + 1, j, Unquoted);
    forall k | 0 <= k < |t.name| ensures s[i + 1..j][k] == t.name[k] { assert s[i + (k + 1)] == x[k + 1]; }
    assert s[i + 1..j] == t.name;
  }

  lemma LexParam(s: string, i: nat, t: Sql, style: Style)
    requires t.Param? && StandsAt(s, i, TokenText(t, style))
    ensures i < |s| && LexSql(s, i, style) == Found(t, i + |TokenText(t, style)|)
  {
    var x, digits := TokenText(t, style), PrintNat(t.index);
    CharsAt(s, i, x);
    assert s[i + 0] == style.Mark() && s[i + 1] == 'p';
    var j := i + |x|;
    forall m | i + 2 <= m < j ensures InRun(s[m], Digit) { assert s[i + (m - i)] == x[m - i] == digits[m - i - 2]; }
    RunStops(s, i + 2, j, Digit);
    forall k | 0 <= k < |digits| ensures s[i + 2..j][k] == digits[k] { assert s[i + (k + 2)] == x[k + 2]; }
    assert s[i + 2..j] == digits;
  }

  predicate IsWord(t: Sql) { t.AndWord? || t.OrWord? || t.NotWord? || t.InWord? || t.BetweenWord? || t.LikeWord? }

  lemma LexWord(s: string, i: nat, t: Sql, style: Style)
    requires IsWord(t) && StandsAt(s, i, TokenText(t, style))
    ensures i < |s| && LexSql(s, i, style) == Found(t, i + |TokenText(t, style)|)
  {
    var x := TokenText(t, style);
    WordsAreUpper(t, style);
    CharsAt(s, i, x);
    forall m | i <= m < i + |x| ensures InRun(s[m], Upper) { assert s[i + (m - i)] == x[m - i]; }
    RunStops(s, i, i + |x|, Upper);
    assert s[i + 0] == x[0];
  }

  lemma WordsAreUpper(t: Sql, style: Style)
    requires IsWord(t)
    ensures var x := TokenText(t, style);
            |x| > 0 && WordToken(x) == Some(t) && forall k :: 0 <= k < |x| ==> IsUpper(x[k])
  {}

  lemma LexSign(s: string, i: nat, t: Sql, style: Style)
    requires !t.Col? && !t.Param? && !IsWord(t) && !t.Open? && StandsAt(s, i, TokenText(t, style))
    ensures i < |s| && LexSql(s, i, style) == Found(t, i + |TokenText(t, style)|)
  {
    var x := TokenText(t, style);
    CharsAt(s, i, x);
    assert s[i + 0] == x[0];
    if |x| >= 2 { assert s[i + 1] == x[1]; }
    if |x| >= 3 { assert s[i + 2] == x[2]; }
  }

  lemma LexToken(s: string, i: nat, t: Sql, style: Style)
    requires Printable(t) && !t.Open? && StandsAt(s, i, TokenText(t, style))
    ensures i < |s| && LexSql(s, i, style) == Found(t, i + |TokenText(t, style)|)
  {
    if t.Col? { LexColumn(s, i, t, style); }
    else if t.Param? { LexParam(s, i, t, style); }
    else if IsWord(t) { LexWord(s, i, t, style); }
    else { LexSign(s, i, t, style); }
  }

  /** A token followed by what the printer puts after it is found, and the rest begins where it ends. */
  lemma HeadIsFound(s: string, i: nat, ts: seq<Sql>, style: Style) returns (next: nat)
    requires ts != [] && AllPrintable(ts) && i <= |s|
    requires s[i..] == TokenText(ts[0], style) + PrintAfter(ts[0], ts[1..], style)
    ensures next <= |s| && i < |s| && LexSql(s, i, style) == Found(ts[0], next) &&
            s[next..] == PrintAfter(ts[0], ts[1..], style)
  {
    next := i + |TokenText(ts[0], style)|;
    var rest := PrintAfter(ts[0], ts[1..], style);
    SplitAt(s, i, TokenText(ts[0], style), rest);
    if rest != "" && !ts[0].Open? { AfterIsSeparated(ts[0], ts[1..], style); }
    assert Printable(ts[0]);
    LexAny(s, i, ts[0], style);
  }

  lemma LexAny(s: string, i: nat, t: Sql, style: Style)
    requires Printable(t) && i + |TokenText(t, style)| <= |s| && s[i..i + |TokenText(t, style)|] == TokenText(t, style)
    requires t.Open? || StandsAt(s, i, TokenText(t, style))
    ensures i < |s| && LexSql(s, i, style) == Found(t, i + |TokenText(t, style)|)
  {
    if t.Open? {
      CharsAt(s, i, "(");
      assert s[i + 0] == '(';
    } else {
      LexToken(s, i, t, style);
    }
  }

  lemma SplitAt(s: string, i: nat, x: string, rest: string)
    requires i <= |s| && s[i..] == x + rest
    ensures var next := i + |x|;
            next <= |s| && s[i..next] == x && s[next..] == rest && (next < |s| ==> rest != "" && s[next] == rest[0])
  {
    var tail, next := s[i..], i + |x|;
    assert s[i..next] == tail[..|x|] && s[next..] == tail[|x|..];
    if next < |s| { assert s[next] == s[next..][0]; }
  }

  lemma AfterIsSeparated(prev: Sql, ts: seq<Sql>, style: Style)
    requires !prev.Open? && PrintAfter(prev, ts, style) != ""
    ensures PrintAfter(prev, ts, style)[0] in {' ', ')', ','}
  {}

  lemma Assoc<T>(a: seq<T>, b: seq<T>, c: seq<T>)
    ensures a + b + c == a + (b + c)
  {}

  lemma FoundIsRead(s: string, i: nat, t: Sql, next: nat, style: Style)
    requires i < |s| && LexSql(s, i, style) == Found(t, next)
    ensures ReadText(s, i, style) == Cons(t, ReadText(s, next, style))
  {}

  lemma SpaceIsSkipped(s: string, i: nat, style: Style)
    requires i < |s| && s[i] == ' '
    ensures ReadText(s, i, style) == ReadText(s, i + 1, style)
  {}

  /** Where the next token starts, past the space if there is one. */
  lemma NextStarts(s: string, i: nat, prev: Sql, ts: seq<Sql>, style: Style) returns (start: nat)
    requires ts != [] && i <= |s| && s[i..] == PrintAfter(prev, ts, style)
    ensures start <= |s| && s[start..] == TokenText(ts[0], style) + PrintAfter(ts[0], ts[1..], style)
    ensures ReadText(s, i, style) == ReadText(s, start, style)
  {
    var x, rest := TokenText(ts[0], style), PrintAfter(ts[0], ts[1..], style);
    var gap := Gap(prev, ts[0]);
    Assoc(gap, x, rest);
    SplitAt(s, i, gap, x + rest);
    start := i + |gap|;
    if Spaced(prev, ts[0]) {
      assert s[i..start][0] == s[i];
      SpaceIsSkipped(s, i, style);
    }
  }

  /** The first token is read, and then the rest. */
  lemma HeadIsRead(s: string, i: nat, ts: seq<Sql>, style: Style) returns (next: nat)
    requires ts != [] && AllPrintable(ts) && i <= |s|
    requires s[i..] == TokenText(ts[0], style) + PrintAfter(ts[0], ts[1..], style)
    ensures next <= |s| && s[next..] == PrintAfter(ts[0], ts[1..], style)
    ensures ReadText(s, i, style) == Cons(ts[0], ReadText(s, next, style))
  {
    next := HeadIsFound(s, i, ts, style);
    FoundIsRead(s, i, ts[0], next, style);
  }

  lemma ConsHead(ts: seq<Sql>)
    requires ts != []
    ensures Cons(ts[0], Some(ts[1..])) == Some(ts)
  {
    assert [ts[0]] + ts[1..] == ts;
  }

  lemma {:induction false} AfterIsRead(s: string, i: nat, prev: Sql, ts: seq<Sql>, style: Style)
    requires AllPrintable(ts) && i <= |s| && s[i..] == PrintAfter(prev, ts, style)
    ensures ReadText(s, i, style) == Some(ts)
    decreases |ts|
  {
    if ts == [] {
      assert i == |s|;
    } else {
      var start := NextStarts(s, i, prev, ts, style);
      var next := HeadIsRead(s, start, ts, style);
      AfterIsRead(s, next, ts[0], ts[1..], style);
      ConsHead(ts);
    }
  }

  /** Reading a printed fragment gives back its tokens, in either placeholder style. */
  lemma PrintedIsRead(ts: seq<Sql>, style: Style)
    requires AllPrintable(ts)
    ensures ReadText(Print(ts, style), 0, style) == Some(ts)
  {
    var s := Print(ts, style);
    assert s[0..] == s;
    if ts != [] {
      var next := HeadIsRead(s, 0, ts, style);
      AfterIsRead(s, next, ts[0], ts[1..], style);
      ConsHead(ts);
    }
  }

  // ---------------------------------------------------------------- the translator's templates

  lemma {:induction false} ChainAppend<T>(prev: T, a: seq<T>, b: seq<T>, chunk: (T, T) -> string)
    requires a != []
    ensures Chain(prev, a + b, chunk) == Chain(prev, a, chunk) + Chain(a[|a| - 1], b, chunk)
    decreases |a|
  {
    assert (a + b)[1..] == a[1..] + b;
    if |a| > 1 {
      ChainAppend(a[0], a[1..], b, chunk);
      Assoc(chunk(prev, a[0]), Chain(a[0], a[1..], chunk), Chain(a[|a| - 1], b, chunk));
    } else {
      assert a[1..] + b == b;
    }
  }

  lemma RegroupFive(x: string, y: string, g: string, z: string, w: string)
    ensures x + (y + (g + z + w)) == x + y + g + (z + w)
  {}

  /** Two fragments in a row print as their texts with at most one space between them. */
  lemma PrintAppend(a: seq<Sql>, b: seq<Sql>, style: Style)
    requires a != [] && b != []
    ensures Print(a + b, style) == Print(a, style) + Gap(a[|a| - 1], b[0]) + Print(b, style)
  {
    var last := a[|a| - 1];
    assert (a + b)[1..] == a[1..] + b && (a + b)[0] == a[0];
    if |a| > 1 {
      ChainAppend(a[0], a[1..], b, Chunk(style));
      assert a[1..][|a[1..]| - 1] == last;
    } else {
      assert a[1..] + b == b && "" + PrintAfter(last, b, style) == PrintAfter(last, b, style);
    }
    AfterStep(last, b, style);
    RegroupFive(TokenText(a[0], style), PrintAfter(a[0], a[1..], style), Gap(last, b[0]), TokenText(b[0], style),
      PrintAfter(b[0], b[1..], style));
  }

  lemma AfterStep(prev: Sql, ts: seq<Sql>, style: Style)
    requires ts != []
    ensures PrintAfter(prev, ts, style) ==
            Gap(prev, ts[0]) + TokenText(ts[0], style) + PrintAfter(ts[0], ts[1..], style)
  {}

  lemma PrintsOne(t: Sql, style: Style)
    ensures Print([t], style) == TokenText(t, style)
  {
    assert [t][1..] == [];
    assert TokenText(t, style) + "" == TokenText(t, style);
  }

  /** Does not begin or end where a space would be swallowed. */
  predicate Proper(ts: seq<Sql>) { ts != [] && !ts[0].Close? && !ts[0].Comma? && !ts[|ts| - 1].Open? }

  /** `f"NOT {inner}"`. */
  lemma PrintsNot(inner: seq<Sql>, style: Style)
    requires Proper(inner)
    ensures Print([NotWord] + inner, style) == "NOT " + Print(inner, style)
  {
    PrintAppend([NotWord], inner, style);
    PrintsOne(NotWord, style);
    Assoc("NOT", " ", Print(inner, style));
  }

  /** `"(" + inner + ")"`. */
  lemma PrintsParentheses(inner: seq<Sql>, style: Style)
    requires inner != []
    ensures Print([Open] + inner + [Close], style) == "(" + Print(inner, style) + ")"
  {
    PrintAppend([Open] + inner, [Close], style);
    PrintAppend([Open], inner, style);
    PrintsOne(Open, style);
    PrintsOne(Close, style);
  }

  /** `separator.join(clauses)`. */
  function JoinText(clauses: seq<seq<Sql>>, separator: string, style: Style): string {
    if clauses == [] then ""
    else if |clauses| == 1 then Print(clauses[0], style)
    else JoinText(clauses[..|clauses| - 1], separator, style) + separator + Print(clauses[|clauses| - 1], style)
  }

  ghost predicate AllProper(clauses: seq<seq<Sql>>) { forall i :: 0 <= i < |clauses| ==> Proper(clauses[i]) }

  /** `" AND "` or `" OR "`. */
  function SeparatorText(separator: Sql, style: Style): string { " " + TokenText(separator, style) + " " }

  lemma RegroupSpaces(h: string, w: string, l: string)
    ensures h + " " + w + " " + l == h + (" " + w + " ") + l
  {}

  lemma PrintsBetween(head: seq<Sql>, separator: Sql, last: seq<Sql>, style: Style)
    requires Proper(head) && Proper(last) && (separator == AndWord || separator == OrWord)
    ensures Print(head + [separator] + last, style) ==
            Print(head, style) + SeparatorText(separator, style) + Print(last, style)
  {
    PrintAppend(head + [separator], last, style);
    PrintAppend(head, [separator], style);
    PrintsOne(separator, style);
    RegroupSpaces(Print(head, style), TokenText(separator, style), Print(last, style));
  }

  lemma {:induction false} PrintsJoin(clauses: seq<seq<Sql>>, separator: Sql, style: Style)
    requires clauses != [] && AllProper(clauses) && (separator == AndWord || separator == OrWord)
    ensures Proper(Join(clauses, separator))
    ensures Print(Join(clauses, separator), style) == JoinText(clauses, SeparatorText(separator, style), style)
    decreases |clauses|
  {
    if |clauses| > 1 {
      var prior, last := clauses[..|clauses| - 1], clauses[|clauses| - 1];
      PrintsJoin(prior, separator, style);
      assert Proper(last);
      PrintsBetween(Join(prior, separator), separator, last, style);
    }
  }

  /** `f"{col} {sql_op} {placeholder}"`. */
  lemma PrintsComparison(col: string, op: SqlOp, index: nat, style: Style)
    ensures Print([Col(col), Cmp(op), Param(index)], style) ==
              TokenText(Col(col), style) + " " + OpSign(op) + " " + TokenText(Param(index), style)
  {
    var ts := [Col(col), Cmp(op), Param(index)];
    assert ts == [Col(col)] + [Cmp(op)] + [Param(index)];
    PrintAppend([Col(col)] + [Cmp(op)], [Param(index)], style);
    PrintAppend([Col(col)], [Cmp(op)], style);
    PrintsOne(Col(col), style);
    PrintsOne(Cmp(op), style);
    PrintsOne(Param(index), style);
  }

  // ---------------------------------------------------------------- agreement of the text

  /** Column names without quotes, which the source does not escape. */
  ghost predicate QuoteFree(schema: Schema) { forall key :: key in schema ==> '"' !in schema[key] }

  ghost predicate Tidy(ts: seq<Sql>) { AllPrintable(ts) && (ts != [] ==> Proper(ts)) }

  ghost predicate AllTidy(ps: Parts) {
    forall i :: 0 <= i < |ps.clauses| ==> ps.clauses[i] != [] && Tidy(ps.clauses[i])
  }

  lemma AddTidy(acc: Parts, p: Part)
    requires AllTidy(acc) && Tidy(p.tokens)
    ensures AllTidy(AddPart(acc, p))
  {}

  lemma {:induction false} JoinTidy(clauses: seq<seq<Sql>>, separator: Sql)
    requires (forall i :: 0 <= i < |clauses| ==> clauses[i] != [] && Tidy(clauses[i])) &&
             (separator == AndWord || separator == OrWord)
    ensures Tidy(Join(clauses, separator)) && (clauses != [] ==> Join(clauses, separator) != [])
    decreases |clauses|
  {
    if |clauses| > 1 { JoinTidy(clauses[..|clauses| - 1], separator); }
  }

  lemma GroupTidy(ps: Parts, separator: Sql)
    requires AllTidy(ps) && (separator == AndWord || separator == OrWord)
    ensures Tidy(Group(ps.clauses, separator)) && Tidy([Open] + Join(ps.clauses, separator) + [Close])
  {
    JoinTidy(ps.clauses, separator);
  }

  lemma {:induction false} PlaceholdersTidy(from: nat, count: nat)
    ensures AllPrintable(Placeholders(from, count))
    decreases count
  {
    if count > 1 { PlaceholdersTidy(from + 1, count - 1); }
  }

  lemma OperatorTidy(col: string, e: Field, idx: nat, p: Part)
    requires '"' !in col && BuildOperator(col, e, idx) == Ok(p)
    ensures Tidy(p.tokens)
  {
    if e.value.Arr? { PlaceholdersTidy(idx, |e.value.items|); }
  }

  lemma {:induction false} OperatorsTidy(col: string, es: seq<Field>, acc: Parts, base: nat)
    requires '"' !in col && AllTidy(acc) && BuildOperators(col, es, acc, base).Ok?
    ensures AllTidy(BuildOperators(col, es, acc, base).value)
    decreases |es|
  {
    if es != [] {
      var p := FilterPlaceholders.OperatorsStep(col, es, acc, base);
      OperatorTidy(col, es[0], base + |acc.params|, p);
      AddTidy(acc, p);
      OperatorsTidy(col, es[1..], AddPart(acc, p), base);
    }
  }

  lemma ConditionTidy(col: string, c: Json, idx: nat)
    requires '"' !in col && BuildCondition(col, c, idx).Ok?
    ensures Tidy(BuildCondition(col, c, idx).value.tokens)
  {
    if c.Obj? {
      OperatorsTidy(col, c.fields, NO_PARTS, idx);
      GroupTidy(BuildOperators(col, c.fields, NO_PARTS, idx).value, AndWord);
    }
  }

  lemma {:induction false} ObjectTidy(schema: Schema, f: Json, idx: nat, p: Part)
    requires QuoteFree(schema) && BuildObject(schema, f, idx) == Ok(p)
    ensures Tidy(p.tokens)
    decreases f, 1
  {
    EntriesTidy(schema, f.fields, NO_PARTS, idx);
    GroupTidy(BuildEntries(schema, f.fields, NO_PARTS, idx).value, AndWord);
  }

  lemma {:induction false} EntriesTidy(schema: Schema, es: seq<Field>, acc: Parts, base: nat)
    requires QuoteFree(schema) && AllTidy(acc) && BuildEntries(schema, es, acc, base).Ok?
    ensures AllTidy(BuildEntries(schema, es, acc, base).value)
    decreases es, 0
  {
    if es != [] {
      var p := FilterPlaceholders.EntriesStep(schema, es, acc, base);
      EntryTidy(schema, es[0], base + |acc.params|, p);
      AddTidy(acc, p);
      EntriesTidy(schema, es[1..], AddPart(acc, p), base);
    }
  }

  lemma {:induction false} EntryTidy(schema: Schema, e: Field, idx: nat, p: Part)
    requires QuoteFree(schema) && BuildEntry(schema, e, idx) == Ok(p)
    ensures Tidy(p.tokens)
    decreases e, 2
  {
    if !IsLogical(e.key) {
      ConditionTidy(schema[e.key], e.value, idx);
    } else if e.key == "$not" {
      ObjectTidy(schema, e.value, idx, BuildObject(schema, e.value, idx).value);
    } else {
      ItemsTidy(schema, e.value.items, NO_PARTS, idx);
      GroupTidy(BuildItems(schema, e.value.items, NO_PARTS, idx).value, if e.key == "$and" then AndWord else OrWord);
    }
  }

  lemma {:induction false} ItemsTidy(schema: Schema, items: seq<Json>, acc: Parts, base: nat)
    requires QuoteFree(schema) && AllTidy(acc) && BuildItems(schema, items, acc, base).Ok?
    ensures AllTidy(BuildItems(schema, items, acc, base).value)
    decreases items, 0
  {
    if items != [] {
      var p := FilterPlaceholders.ItemsStep(schema, items, acc, base);
      ItemTidy(schema, items, acc, base, p);
      ItemsTidy(schema, items[1..], AddPart(acc, p), base);
    }
  }

  lemma {:induction false} ItemTidy(schema: Schema, items: seq<Json>, acc: Parts, base: nat, p: Part)
    requires QuoteFree(schema) && AllTidy(acc) && items != [] &&
             BuildObject(schema, items[0], base + |acc.params|) == Ok(p)
    ensures AllTidy(AddPart(acc, p))
    decreases items[0], 2
  {
    ObjectTidy(schema, items[0], base + |acc.params|, p);
    AddTidy(acc, p);
  }

  /** The database reads the WHERE text and keeps the row. */
  predicate KeepsText(s: Scope, text: string, style: Style) {
    var ts := ReadText(text, 0, style);
    ts.Some? && Keeps(s, ts.value)
  }

  /** The text of every translation reads back as its tokens, whatever the filter. */
  lemma TranslationIsReadBack(schema: Schema, f: Json, style: Style)
    requires QuoteFree(schema) && Translate(schema, f).Ok?
    ensures var ts := Translate(schema, f).value.tokens; ReadText(Print(ts, style), 0, style) == Some(ts)
  {
    if f != Scalar(Null) { ObjectTidy(schema, f, 0, Translate(schema, f).value); }
    PrintedIsRead(Translate(schema, f).value.tokens, style);
  }

  /**
   Main result on text: for every plain filter, the printed WHERE text, read with SQL's precedences and three-valued
   logic, keeps the row exactly when `evaluate_filter` selects it, in either placeholder style.
   */
  lemma TextAgrees(schema: Schema, row: Row, f: Json, s: Scope, style: Style)
    requires QuoteFree(schema) && Plain(schema, row, f) && CellsMatch(schema, row, s)
    requires Translate(schema, f).Ok? ==> s.bind == Translate(schema, f).value.params
    ensures Translate(schema, f).Ok?
    ensures KeepsText(s, Print(Translate(schema, f).value.tokens, style), style) <==> Selects(row, f)
  {
    TranslationAgrees(schema, row, f, s);
    TranslationIsReadBack(schema, f, style);
  }
}
