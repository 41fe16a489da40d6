/** Following a query's cursors to the end, for both providers, with and without a token budget. */
module Paging {
  import opened Common

  datatype Page<T> = Page(rows: seq<T>, next: Option<string>)

  /** How offsets are written into cursors and read back. */
  datatype Cursors = Cursors(write: int -> string, read: string -> int)

  ghost predicate Faithful(z: Cursors) {
    forall n :: z.write(n) != "" && z.read(z.write(n)) == n
  }

  function OffsetOf(z: Cursors, cursor: Option<string>): int {
    if cursor.None? || cursor.value == "" then 0 else z.read(cursor.value)
  }

  /** A Python slice bound. */
  function Bound(i: int, n: nat): (b: nat)
    ensures b <= n
  {
    if i < 0 then Max(i + n, 0) else Min(i, n)
  }

  /** `s[a:b]`. */
  function Slice<T>(s: seq<T>, a: int, b: int): seq<T> {
    var from, to := Bound(a, |s|), Bound(b, |s|);
    if from <= to then s[from..to] else []
  }

  // ---------------------------------------------------------------- the two providers

  /** The in-memory provider; `full` is the whole filtered and ordered result. */
  function MemoryPage<T>(full: seq<T>, limit: int, z: Cursors, cursor: Option<string>): Page<T> {
    var offset := OffsetOf(z, cursor);
    Page(Slice(full, offset, offset + limit), if offset + limit < |full| then Some(z.write(offset + limit)) else None)
  }

  function EncodeCursor(z: Cursors, offset: int): Option<string> { if offset <= 0 then None else Some(z.write(offset)) }

  /** LIMIT and OFFSET applied by the database to a fixed result. */
  function Fetch<T>(full: seq<T>, limit: int, offset: int): seq<T> {
    var from := Max(offset, 0);
    Slice(full, from, from + Max(limit, 0))
  }

  /** The SQL provider: one row more than the limit is fetched to see whether a page follows. */
  function SqlPage<T>(full: seq<T>, limit: int, z: Cursors, cursor: Option<string>): Page<T> {
    var offset := OffsetOf(z, cursor);
    var rows := Fetch(full, limit + 1, offset);
    Page(Slice(rows, 0, limit), if |rows| > limit then EncodeCursor(z, offset + limit) else None)
  }

  /** A zero in the request means the configured default. */
  function SqlLimit(asked: int, default: int, most: int): int { Min(if asked == 0 then default else asked, most) }

  // ---------------------------------------------------------------- following cursors

  type Fetcher<!T> = Option<string> -> Page<T>

  /** Everything collected by asking at most `steps` times, if that reaches the last page. */
  function Follow<T>(fetch: Fetcher<T>, cursor: Option<string>, steps: nat): Option<seq<T>>
    decreases steps
  {
    if steps == 0 then None
    else
      var p := fetch(cursor);
      if p.next.None? then Some(p.rows)
      else
        var rest := Follow(fetch, p.next, steps - 1);
        if rest.None? then None else Some(p.rows + rest.value)
  }

  function PageCount(n: int, limit: int): nat
    requires limit > 0
    decreases n
  {
    if n <= limit then 1 else 1 + PageCount(n - limit, limit)
  }

  function CursorAt(z: Cursors, offset: int): Option<string> { if offset == 0 then None else Some(z.write(offset)) }

  /** `fetch` cuts `full` into consecutive pages. */
  ghost predicate Cuts<T>(fetch: Fetcher<T>, full: seq<T>, limit: int, z: Cursors) {
    forall o: int :: 0 <= o <= |full| ==> fetch(CursorAt(z, o)) == PageAt(full, limit, z, o)
  }

  function PageAt<T>(full: seq<T>, limit: int, z: Cursors, o: int): Page<T> {
    Page(Slice(full, o, o + limit), if o + limit < |full| then Some(z.write(o + limit)) else None)
  }

  lemma MemoryCuts<T>(full: seq<T>, limit: int, z: Cursors)
    requires Faithful(z)
    ensures Cuts(c => MemoryPage(full, limit, z, c), full, limit, z)
  {}

  lemma SqlCuts<T>(full: seq<T>, limit: int, z: Cursors)
    requires Faithful(z) && limit > 0
    ensures Cuts(c => SqlPage(full, limit, z, c), full, limit, z)
  {
    forall o: int | 0 <= o <= |full| ensures SqlPage(full, limit, z, CursorAt(z, o)) == PageAt(full, limit, z, o) {
      var rows := Fetch(full, limit + 1, o);
      assert Slice(rows, 0, limit) == Slice(full, o, o + limit);
    }
  }

  /** Pages put together from any offset are the rest of the result, after as many requests as there are pages. */
  lemma {:induction false} FollowCollects<T>(fetch: Fetcher<T>, full: seq<T>, limit: int, z: Cursors, o: int,
                                             steps: nat)
    requires limit > 0 && Faithful(z) && Cuts(fetch, full, limit, z) && 0 <= o <= |full|
    ensures Follow(fetch, CursorAt(z, o), steps) ==
            if steps < PageCount(|full| - o, limit) then None else Some(full[o..])
    decreases steps
  {
    if steps > 0 {
      assert fetch(CursorAt(z, o)) == PageAt(full, limit, z, o);
      if o + limit < |full| {
        FollowCollects(fetch, full, limit, z, o + limit, steps - 1);
        assert full[o..] == full[o..o + limit] + full[o + limit..];
      } else {
        assert full[o..] == Slice(full, o, o + limit);
      }
    }
  }

  /** Following an in-memory query ends with every row once, in order, exactly when the limit allows progress. */
  lemma MemoryPagingExactlyWhen<T>(full: seq<T>, asked: int, most: int, z: Cursors)
    requires Faithful(z)
    ensures var limit := Min(asked, most);
            var fetch := (c: Option<string>) => MemoryPage(full, limit, z, c);
            && (limit > 0 || (limit == 0 && full == []) <==>
                exists steps: nat :: Follow(fetch, None, steps) == Some(full))
            && (limit > 0 ==> forall steps: nat :: steps >= PageCount(|full|, limit) ==>
                Follow(fetch, None, steps) == Some(full))
  {
    var limit := Min(asked, most);
    var fetch := (c: Option<string>) => MemoryPage(full, limit, z, c);
    MemoryCuts(full, limit, z);
    if limit > 0 {
      forall steps: nat | steps >= PageCount(|full|, limit) ensures Follow(fetch, None, steps) == Some(full) {
        FollowCollects(fetch, full, limit, z, 0, steps);
      }
      assert Follow(fetch, None, PageCount(|full|, limit)) == Some(full);
    } else if limit == 0 && full == [] {
      assert Follow(fetch, None, 1) == Some(full);
    } else {
      forall steps: nat ensures Follow(fetch, None, steps) == None {
        NoProgressNeverEnds(fetch, full, limit, z, None, steps);
      }
    }
  }

  lemma {:induction false} NoProgressNeverEnds<T>(
    fetch: Fetcher<T>, full: seq<T>, limit: int, z: Cursors, cursor: Option<string>, steps: nat)
    requires Faithful(z) && (limit < 0 || (limit == 0 && full != [])) && OffsetOf(z, cursor) <= 0
    requires forall c :: fetch(c) == MemoryPage(full, limit, z, c)
    ensures Follow(fetch, cursor, steps) == None
    decreases steps
  {
    if steps > 0 { NoProgressNeverEnds(fetch, full, limit, z, Some(z.write(OffsetOf(z, cursor) + limit)), steps - 1); }
  }

  /** The SQL provider: with a zero limit it stops at once, with nothing. */
  lemma SqlPagingExactlyWhen<T>(full: seq<T>, asked: nat, default: nat, most: nat, z: Cursors)
    requires Faithful(z)
    ensures var limit := SqlLimit(asked, default, most);
            var fetch := (c: Option<string>) => SqlPage(full, limit, z, c);
            && (limit > 0 || full == [] <==> exists steps: nat :: Follow(fetch, None, steps) == Some(full))
            && (limit > 0 ==> forall steps: nat :: steps >= PageCount(|full|, limit) ==>
                Follow(fetch, None, steps) == Some(full))
  {
    var limit := SqlLimit(asked, default, most);
    var fetch := (c: Option<string>) => SqlPage(full, limit, z, c);
    if limit > 0 {
      SqlCuts(full, limit, z);
      forall steps: nat | steps >= PageCount(|full|, limit) ensures Follow(fetch, None, steps) == Some(full) {
        FollowCollects(fetch, full, limit, z, 0, steps);
      }
      assert Follow(fetch, None, PageCount(|full|, limit)) == Some(full);
    } else {
      forall steps: nat ensures Follow(fetch, None, steps) == if steps == 0 then None else Some([]) {
        ZeroLimitStops(fetch, full, z, steps);
      }
      assert Follow(fetch, None, 1) == Some([]);
      assert full == [] ==> Follow(fetch, None, 1) == Some(full);
      assert full != [] ==> forall steps: nat :: Follow(fetch, None, steps) != Some(full);
    }
  }

  lemma ZeroLimitStops<T>(fetch: Fetcher<T>, full: seq<T>, z: Cursors, steps: nat)
    requires fetch(None) == SqlPage(full, 0, z, None)
    ensures Follow(fetch, None, steps) == if steps == 0 then None else Some([])
  {
    assert fetch(None) == Page([], None);
  }

  // ---------------------------------------------------------------- token budgets

  /** The cost of the first `n` rows. */
  function SumTo<T>(rows: seq<T>, n: nat, cost: T -> nat): nat
    requires n <= |rows|
  {
    if n == 0 then 0 else SumTo(rows, n - 1, cost) + cost(rows[n - 1])
  }

  function Sum<T>(rows: seq<T>, cost: T -> nat): nat { SumTo(rows, |rows|, cost) }

  /** A quarter of a length, rounded up. */
  function Tokens(length: nat): nat { (length + 3) / 4 }

  function RowTokens<T>(length: T -> nat): T -> nat { row => Tokens(length(row)) }

  /** `_measure_rows`: the whole page as one JSON array. */
  function Measure<T>(rows: seq<T>, length: T -> nat): nat {
    Tokens(2 + Sum(rows, length) + if rows == [] then 0 else |rows| - 1)
  }

  /** Where a scan that has come to row `i` stops with `left` tokens to spend. */
  function Cutoff<T>(rows: seq<T>, i: nat, cost: T -> nat, left: int): (n: nat)
    requires i <= |rows|
    ensures i <= n <= |rows|
    decreases |rows| - i
  {
    if i == |rows| || cost(rows[i]) > left then i else Cutoff(rows, i + 1, cost, left - cost(rows[i]))
  }

  function Trim<T>(rows: seq<T>, cost: T -> nat, budget: int): seq<T> { rows[..Cutoff(rows, 0, cost, budget)] }

  /** `_trim_to_budget`. */
  method TrimToBudget<T>(rows: seq<T>, cost: T -> nat, budget: int) returns (trimmed: seq<T>, acc: nat)
    ensures trimmed == Trim(rows, cost, budget) && acc == SumTo(rows, |trimmed|, cost)
  {
    trimmed, acc := [], 0;
    for i := 0 to |rows|
      invariant trimmed == rows[..i] && acc == SumTo(rows, i, cost)
      invariant Cutoff(rows, 0, cost, budget) == Cutoff(rows, i, cost, budget - acc)
    {
      var tok := cost(rows[i]);
      if acc + tok > budget { break; }
      trimmed := trimmed + [rows[i]];
      acc := acc + tok;
    }
  }

  lemma {:induction false} CutoffIsLast<T>(rows: seq<T>, i: nat, cost: T -> nat, left: int)
    requires i <= |rows|
    ensures var n := Cutoff(rows, i, cost, left);
            && (n > i ==> SumTo(rows, n, cost) - SumTo(rows, i, cost) <= left)
            && (n < |rows| ==> SumTo(rows, n + 1, cost) - SumTo(rows, i, cost) > left)
    decreases |rows| - i
  {
    if i < |rows| && cost(rows[i]) <= left { CutoffIsLast(rows, i + 1, cost, left - cost(rows[i])); }
  }

  lemma {:induction false} SumGrows<T>(rows: seq<T>, m: nat, n: nat, cost: T -> nat)
    requires m <= n <= |rows|
    ensures SumTo(rows, m, cost) <= SumTo(rows, n, cost)
  {
    if m < n { SumGrows(rows, m, n - 1, cost); }
  }

  /** The longest prefix within the budget, and all of the rows exactly when they fit. */
  lemma TrimIsLongestPrefix<T>(rows: seq<T>, cost: T -> nat, budget: nat)
    ensures var n := |Trim(rows, cost, budget)|;
            && Trim(rows, cost, budget) <= rows && SumTo(rows, n, cost) <= budget
            && (forall m :: n < m <= |rows| ==> SumTo(rows, m, cost) > budget)
            && (n == |rows| <==> Sum(rows, cost) <= budget)
  {
    var n := Cutoff(rows, 0, cost, budget);
    CutoffIsLast(rows, 0, cost, budget);
    forall m | n < m <= |rows| ensures SumTo(rows, m, cost) > budget { SumGrows(rows, n + 1, m, cost); }
  }

  /** What the server hands out: trimming changes the rows and leaves the cursor. */
  function Served<T>(p: Page<T>, length: T -> nat, budget: int): Page<T> {
    if budget > 0 && Measure(p.rows, length) > budget then p.(rows := Trim(p.rows, RowTokens(length), budget)) else p
  }

  predicate PageFits<T>(rows: seq<T>, length: T -> nat, budget: int) {
    budget <= 0 || Measure(rows, length) <= budget || Sum(rows, RowTokens(length)) <= budget
  }

  lemma ServedIsPrefix<T>(p: Page<T>, length: T -> nat, budget: int)
    ensures Served(p, length, budget).rows <= p.rows && Served(p, length, budget).next == p.next
    ensures Served(p, length, budget).rows == p.rows <==> PageFits(p.rows, length, budget)
  {
    if budget > 0 { TrimIsLongestPrefix(p.rows, RowTokens(length), budget); }
  }

  /** `served` shows a prefix of every page and leaves the cursors alone. */
  ghost predicate Clips<T>(served: Fetcher<T>, full: seq<T>, limit: int, z: Cursors) {
    forall o: int :: 0 <= o <= |full| ==> ClipsAt(served(CursorAt(z, o)), PageAt(full, limit, z, o))
  }

  predicate ClipsAt<T(==)>(shown: Page<T>, page: Page<T>) { shown.rows <= page.rows && shown.next == page.next }

  /** Every page from offset `o` on is shown whole. */
  predicate AllWhole<T(==)>(served: Fetcher<T>, full: seq<T>, limit: int, z: Cursors, o: int)
    requires limit > 0
    decreases |full| - o
  {
    && served(CursorAt(z, o)).rows == PageAt(full, limit, z, o).rows
    && (o + limit < |full| ==> AllWhole(served, full, limit, z, o + limit))
  }

  /** Rows clipped off a page are not on the next one. */
  lemma {:induction false} ClippedPagesLose<T>(served: Fetcher<T>, full: seq<T>, limit: int, z: Cursors, o: int,
                                               steps: nat)
    requires limit > 0 && Faithful(z) && 0 <= o <= |full| && steps >= PageCount(|full| - o, limit)
    requires Clips(served, full, limit, z)
    ensures var got := Follow(served, CursorAt(z, o), steps);
            got.Some? && |got.value| <= |full| - o && (got.value == full[o..] <==> AllWhole(served, full, limit, z, o))
    decreases steps
  {
    var page := PageAt(full, limit, z, o);
    var shown := served(CursorAt(z, o));
    assert ClipsAt(shown, page);
    FollowStep(served, CursorAt(z, o), steps);
    if o + limit < |full| {
      ClippedPagesLose(served, full, limit, z, o + limit, steps - 1);
      SplitPage(full, limit, o, shown.rows, Follow(served, CursorAt(z, o + limit), steps - 1).value);
    } else {
      assert full[o..] == page.rows;
    }
  }

  /** Every page from offset `o` on fits the budget. */
  predicate AllPagesFit<T>(full: seq<T>, limit: int, z: Cursors, o: int, length: T -> nat, budget: int)
    requires limit > 0
    decreases |full| - o
  {
    && PageFits(PageAt(full, limit, z, o).rows, length, budget)
    && (o + limit < |full| ==> AllPagesFit(full, limit, z, o + limit, length, budget))
  }

  /** `served` is what the server makes of the pages of `full` under a budget. */
  ghost predicate ServesUnder<T>(served: Fetcher<T>, full: seq<T>, limit: int, z: Cursors, length: T -> nat,
                                 budget: int)
  {
    forall o: int :: 0 <= o <= |full| ==> ServesAt(served, full, limit, z, o, length, budget)
  }

  ghost predicate ServesAt<T>(served: Fetcher<T>, full: seq<T>, limit: int, z: Cursors, o: int, length: T -> nat,
                              budget: int)
  {
    served(CursorAt(z, o)) == Served(PageAt(full, limit, z, o), length, budget)
  }

  lemma {:induction false} WholeExactlyWhenFitting<T>(
    served: Fetcher<T>, full: seq<T>, limit: int, z: Cursors, o: int, length: T -> nat, budget: int)
    requires limit > 0 && 0 <= o <= |full| && ServesUnder(served, full, limit, z, length, budget)
    ensures AllWhole(served, full, limit, z, o) <==> AllPagesFit(full, limit, z, o, length, budget)
    decreases |full| - o
  {
    ServedIsPrefix(PageAt(full, limit, z, o), length, budget);
    assert ServesAt(served, full, limit, z, o, length, budget);
    if o + limit < |full| { WholeExactlyWhenFitting(served, full, limit, z, o + limit, length, budget); }
  }

  /** Following cursors under a budget gives the whole result exactly when no page had to be trimmed. */
  lemma BudgetedPagingExactlyWhen<T>(
    served: Fetcher<T>, full: seq<T>, limit: int, z: Cursors, steps: nat, length: T -> nat, budget: int)
    requires limit > 0 && Faithful(z) && steps >= PageCount(|full|, limit)
    requires ServesUnder(served, full, limit, z, length, budget)
    ensures Follow(served, None, steps) == Some(full) <==> AllPagesFit(full, limit, z, 0, length, budget)
  {
    forall o: int | 0 <= o <= |full| ensures ClipsAt(served(CursorAt(z, o)), PageAt(full, limit, z, o)) {
      assert ServesAt(served, full, limit, z, o, length, budget);
      ServedIsPrefix(PageAt(full, limit, z, o), length, budget);
    }
    ClippedPagesLose(served, full, limit, z, 0, steps);
    WholeExactlyWhenFitting(served, full, limit, z, 0, length, budget);
    assert full[0..] == full;
  }

  /** The pages of the in-memory provider, as the server hands them out. */
  function MemoryServed<T>(full: seq<T>, limit: int, z: Cursors, length: T -> nat, budget: int): Fetcher<T> {
    c => Served(MemoryPage(full, limit, z, c), length, budget)
  }

  /** The pages of the SQL provider, as the server hands them out. */
  function SqlServed<T>(full: seq<T>, limit: int, z: Cursors, length: T -> nat, budget: int): Fetcher<T> {
    c => Served(SqlPage(full, limit, z, c), length, budget)
  }

  lemma ProvidersServeAt<T>(full: seq<T>, limit: int, z: Cursors, o: int, length: T -> nat, budget: int)
    requires Faithful(z) && limit > 0 && 0 <= o <= |full|
    ensures ServesAt(MemoryServed(full, limit, z, length, budget), full, limit, z, o, length, budget)
    ensures ServesAt(SqlServed(full, limit, z, length, budget), full, limit, z, o, length, budget)
  {
    MemoryCuts(full, limit, z);
    SqlCuts(full, limit, z);
    var memory := c => MemoryPage(full, limit, z, c);
    var sql := c => SqlPage(full, limit, z, c);
    assert memory(CursorAt(z, o)) == PageAt(full, limit, z, o) == sql(CursorAt(z, o));
  }

  /** So with either provider the budget is harmless exactly when every page fits it. */
  lemma BudgetIsHarmlessExactlyWhen<T>(
    served: Fetcher<T>, full: seq<T>, limit: int, z: Cursors, steps: nat, length: T -> nat, budget: int)
    requires served == MemoryServed(full, limit, z, length, budget) ||
             served == SqlServed(full, limit, z, length, budget)
    requires limit > 0 && Faithful(z) && steps >= PageCount(|full|, limit)
    ensures Follow(served, None, steps) == Some(full) <==> AllPagesFit(full, limit, z, 0, length, budget)
  {
    forall o: int | 0 <= o <= |full| ensures ServesAt(served, full, limit, z, o, length, budget) {
      ProvidersServeAt(full, limit, z, o, length, budget);
    }
    BudgetedPagingExactlyWhen(served, full, limit, z, steps, length, budget);
  }

  lemma FollowStep<T>(fetch: Fetcher<T>, cursor: Option<string>, steps: nat)
    requires steps > 0
    ensures var p := fetch(cursor);
            match p.next
            case None => Follow(fetch, cursor, steps) == Some(p.rows)
            case Some(_) =>
              var rest := Follow(fetch, p.next, steps - 1);
              Follow(fetch, cursor, steps) == if rest.None? then None else Some(p.rows + rest.value)
  {}

  lemma SplitPage<T>(full: seq<T>, limit: int, o: int, rows: seq<T>, rest: seq<T>)
    requires 0 <= o && 0 < limit && o + limit < |full| && |rows| <= limit && |rest| <= |full| - o - limit
    ensures rows + rest == full[o..] <==> rows == Slice(full, o, o + limit) && rest == full[o + limit..]
  {
    assert full[o..] == full[o..o + limit] + full[o + limit..];
    SplitEquality(rows, rest, full[o..o + limit], full[o + limit..]);
  }

  /** Two rows of two tokens each, one to a page, under a budget of one token: rows are lost. */
  lemma TrimmedRowsAreLost(served: Fetcher<string>, z: Cursors, length: string -> nat)
    requires Faithful(z) && length("a") == 8 && ServesUnder(served, ["a", "b"], 1, z, length, 1)
    ensures Follow(served, None, 2) != Some(["a", "b"])
  {
    var full := ["a", "b"];
    BudgetedPagingExactlyWhen(served, full, 1, z, 2, length, 1);
    assert PageAt(full, 1, z, 0).rows == ["a"];
    assert Sum(["a"], length) == 8 && Sum(["a"], RowTokens(length)) == 2;
    assert !PageFits(["a"], length, 1);
  }

  lemma SplitEquality<T>(a: seq<T>, b: seq<T>, c: seq<T>, d: seq<T>)
    requires |a| <= |c| && |b| <= |d|
    ensures a + b == c + d <==> a == c && b == d
  {
    if a + b == c + d {
      assert |a| == |c|;
      assert a == (a + b)[..|a|] && c == (c + d)[..|c|];
      assert b == (a + b)[|a|..] && d == (c + d)[|c|..];
    }
  }

  // ---------------------------------------------------------------- sizes

  /** A page never has more rows than asked for or than allowed, and fewer only at the end. */
  lemma PagesAreBounded<T>(full: seq<T>, asked: nat, default: nat, most: nat, z: Cursors, o: nat)
    requires Faithful(z) && o <= |full|
    ensures var wanted := if asked == 0 then default else asked;
            var size := if wanted <= most then wanted else most;
            && |SqlPage(full, SqlLimit(asked, default, most), z, CursorAt(z, o)).rows| ==
               (if size <= |full| - o then size else |full| - o)
            && |MemoryPage(full, size, z, CursorAt(z, o)).rows| == (if size <= |full| - o then size else |full| - o)
  {
    assert OffsetOf(z, CursorAt(z, o)) == o;
  }

  /** A token is four characters, the last one perhaps fewer. */
  lemma TokensAreQuarters(length: nat)
    ensures 4 * Tokens(length) >= length && (length > 0 ==> 4 * (Tokens(length) - 1) < length) && Tokens(0) == 0
  {}

  /** The rows as one JSON array without spaces. */
  function ArrayText<T>(rows: seq<T>, text: T -> string): string { "[" + JoinRows(rows, text) + "]" }

  function JoinRows<T>(rows: seq<T>, text: T -> string): string {
    if rows == [] then ""
    else if |rows| == 1 then text(rows[0])
    else JoinRows(rows[..|rows| - 1], text) + "," + text(rows[|rows| - 1])
  }

  lemma {:induction false} JoinedLength<T>(rows: seq<T>, text: T -> string, n: nat)
    requires n <= |rows|
    ensures |JoinRows(rows[..n], text)| == SumTo(rows, n, r => |text(r)|) + if n == 0 then 0 else n - 1
  {
    if n > 1 {
      JoinedLength(rows, text, n - 1);
      assert rows[..n][..n - 1] == rows[..n - 1];
    } else if n == 1 {
      assert SumTo(rows, 0, r => |text(r)|) == 0;
    }
  }

  /** A page is measured by the text of its JSON array. */
  lemma PageIsMeasured<T>(rows: seq<T>, text: T -> string)
    ensures Measure(rows, r => |text(r)|) == Tokens(|ArrayText(rows, text)|)
  {
    JoinedLength(rows, text, |rows|);
    assert rows[..|rows|] == rows;
  }
}
